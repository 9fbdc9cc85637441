/**
 * The area-list screen as the object the platform drives: its fields are
 * updated in place by one method per event, and each method is proved to
 * make exactly the transition `AreaListState.Step` describes.
 */
module AreaListActivities {
  import opened Wrappers
  import opened JavaLang
  import opened AreaListState

  class AreaListActivity {
    var carParkId: Int32
    var areas: seq<Area>
    var focused: Option<nat>          // focusedArea, as an index into areas
    var editText: string              // etName's text
    var confirmEnabled: bool          // btnPositive's enabled flag
    var requests: seq<Int32>          // getAreaByCarParkId calls issued
    var inFlight: nat                 // issued calls not yet answered
    var notifications: seq<Notification>

    /** The screen's fields as a value. */
    function State(): Screen
      reads this
    {
      Screen(carParkId, areas, focused, editText, confirmEnabled, requests, inFlight, notifications)
    }

    ghost predicate Valid()
      reads this
    {
      AreaListState.Valid(State())
    }

    /** Field set-up: the car-park extra, or -1 when it is missing; an empty list. */
    constructor (carParkIdExtra: Option<Int32>)
      ensures Valid()
      ensures State() == Initial(carParkIdExtra)
    {
      carParkId := if carParkIdExtra.Some? then carParkIdExtra.value else -1;
      areas := [];
      focused := None;
      editText := "";
      confirmEnabled := true;
      requests := [];
      inFlight := 0;
      notifications := [];
    }

    /** The fetch guard: a request goes out only for a non-negative car-park id. */
    method GetAreaData()
      requires Valid()
      modifies this
      ensures Valid()
      ensures State() == Step(old(State()), FetchRequested)
      ensures areas == old(areas)
      ensures old(carParkId) < 0 ==> requests == old(requests) && inFlight == old(inFlight)
      ensures old(carParkId) >= 0 ==> requests == old(requests) + [carParkId]
    {
      if carParkId < 0 {
        return;
      }
      requests := requests + [carParkId];
      inFlight := inFlight + 1;
    }

    /** The response callback, with the body's success flag and result list. */
    method OnResponse(success: bool, result: seq<Area>)
      requires Valid() && inFlight > 0
      modifies this
      ensures Valid()
      ensures State() == Step(old(State()), ResponseReceived(success, result))
      ensures areas == if success then old(areas) + result else old(areas)
      ensures success ==> notifications == old(notifications) + [ItemRangeInserted(0, |areas|)]
      ensures requests == old(requests)
    {
      inFlight := inFlight - 1;
      if success {
        areas := areas + result;
        notifications := notifications + [ItemRangeInserted(0, |areas|)];
      }
    }

    /** The failure callback: the same request is issued again. */
    method OnFailure()
      requires Valid() && inFlight > 0
      modifies this
      ensures Valid()
      ensures State() == Step(old(State()), FetchFailed)
      ensures requests == old(requests) + [old(carParkId)] && inFlight == old(inFlight)
      ensures areas == old(areas)
    {
      FailureReissues(State());
      inFlight := inFlight - 1;
      GetAreaData();
    }

    /** The long-click on a row: focus it, load its name into the dialog, disable confirm. */
    method OnItemLongClick(position: int)
      requires Valid() && 0 <= position < |areas|
      modifies this
      ensures Valid()
      ensures State() == Step(old(State()), ItemLongClicked(position))
      ensures focused == Some(position) && editText == areas[position].name && !confirmEnabled
      ensures areas == old(areas)
    {
      focused := Some(position);
      var name := areas[position].name;
      // setting the text runs the text watcher before the button is disabled
      OnTextChanged(name);
      confirmEnabled := false;
    }

    /** The text watcher: confirm is enabled exactly when the trimmed text is non-empty. */
    method OnTextChanged(text: string)
      modifies this
      ensures editText == text
      ensures confirmEnabled <==> HasVisibleChar(text)
      ensures State() == old(State()).(editText := text, confirmEnabled := confirmEnabled)
      ensures old(Valid()) ==> Valid() && State() == Step(old(State()), TextChanged(text))
    {
      editText := text;
      confirmEnabled := |Trim(text)| > 0;
      TrimNonEmptyIff(text);
    }

    /**
     * The dialog's positive button: the focused area takes the raw text as
     * its name, then `UpdateArea` runs; the message it shows is returned.
     */
    method OnPositive() returns (message: string)
      requires Valid() && focused.Some?
      modifies this
      ensures Valid()
      ensures State() == Step(old(State()), PositiveClicked)
      ensures areas == Rename(old(areas), focused.value, editText)
      ensures message == editText
    {
      var i := focused.value;
      areas := areas[i := areas[i].(name := editText)];
      message := UpdateArea();
    }

    /** The remote update is not written yet; it only shows the focused area's name and changes nothing. */
    method UpdateArea() returns (message: string)
      requires focused.Some? && focused.value < |areas|
      ensures message == areas[focused.value].name
    {
      message := areas[focused.value].name;
    }
  }
}

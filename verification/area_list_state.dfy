/**
 * The area-list screen as a value: its fields, the events that reach it
 * (the fetch guard, the two network callbacks, the long-click, the edit
 * text watcher and the dialog's positive button) and the transition each
 * event makes. The screen class in module AreaListActivities is proved to
 * follow `Step` event by event; the lemmas here state what the transitions
 * promise, one event at a time and over whole runs.
 */
module AreaListState {
  import opened Wrappers
  import opened JavaLang

  /** An area as the screen uses it: the id it navigates with and the name it shows and edits. */
  datatype Area = Area(id: Int32, name: string)

  /** The change notification the list adapter receives. */
  datatype Notification = ItemRangeInserted(positionStart: int, itemCount: int)

  /**
   * The screen's state.
   * - `focused`: index in `areas` of the area the rename dialog edits (null before any long-click);
   * - `editText`: the dialog's text field; `confirmEnabled`: its positive button;
   * - `requests`: every area request issued, by car-park id, oldest first;
   * - `inFlight`: issued requests whose callback has not come yet;
   * - `notifications`: what the adapter was told, oldest first.
   */
  datatype Screen = Screen(
    carParkId: Int32,
    areas: seq<Area>,
    focused: Option<nat>,
    editText: string,
    confirmEnabled: bool,
    requests: seq<Int32>,
    inFlight: nat,
    notifications: seq<Notification>)

  datatype Event =
    | FetchRequested                                  // getAreaData()
    | ResponseReceived(success: bool, result: seq<Area>) // onResponse with a non-null body
    | FetchFailed                                     // onFailure
    | ItemLongClicked(position: int)                  // onItemLongClick
    | TextChanged(text: string)                       // onTextChanged
    | PositiveClicked                                 // the dialog's onPositive handler

  /** The screen right after its fields are set up: `-1` stands in for a missing car-park extra. */
  function Initial(carParkIdExtra: Option<Int32>): (s: Screen)
    ensures carParkIdExtra.None? ==> s.carParkId == -1
    ensures carParkIdExtra.Some? ==> s.carParkId == carParkIdExtra.value
    ensures s.areas == [] && s.focused == None && s.requests == [] && s.inFlight == 0 && s.notifications == []
    ensures Valid(s)
  {
    var id := if carParkIdExtra.Some? then carParkIdExtra.value else -1;
    Screen(id, [], None, "", true, [], 0, [])
  }

  /**
   * What holds between events: requests go out only for the screen's own
   * non-negative car park, each callback answers one of them, the focused
   * index points into the list, an enabled confirm button on an open
   * editor means the text survives `trim`, and every insertion notice
   * starts at 0 and covers no more than the list.
   */
  ghost predicate Valid(s: Screen)
  {
    && (|s.requests| > 0 ==> s.carParkId >= 0)
    && (forall i :: 0 <= i < |s.requests| ==> s.requests[i] == s.carParkId)
    && s.inFlight <= |s.requests|
    && (s.focused.Some? ==> s.focused.value < |s.areas| && (s.confirmEnabled ==> HasVisibleChar(s.editText)))
    && (forall i :: 0 <= i < |s.notifications| ==>
          s.notifications[i].positionStart == 0 && s.notifications[i].itemCount <= |s.areas|)
  }

  /** The events the platform can deliver in state `s`. */
  predicate Enabled(s: Screen, e: Event)
  {
    match e
    case ResponseReceived(_, _) => s.inFlight > 0  // a callback answers an issued request
    case FetchFailed => s.inFlight > 0
    case ItemLongClicked(p) => 0 <= p < |s.areas| // the adapter reports a shown row
    case PositiveClicked => s.focused.Some?       // the dialog opens only after a long-click
    case _ => true
  }

  /** The positive button's rule: enabled when the text is non-empty after `trim`. */
  function ConfirmAllowed(text: string): (b: bool)
    ensures b <==> HasVisibleChar(text)
  {
    TrimNonEmptyIff(text);
    |Trim(text)| > 0
  }

  /** `setName` on the area at index `i`: only that area's name changes. */
  function Rename(areas: seq<Area>, i: nat, name: string): (r: seq<Area>)
    requires i < |areas|
    ensures |r| == |areas|
    ensures r[i].id == areas[i].id && r[i].name == name
    ensures forall j :: 0 <= j < |areas| && j != i ==> r[j] == areas[j]
  {
    areas[i := areas[i].(name := name)]
  }

  /** The guard in `getAreaData`: no request for a negative car-park id. */
  function Fetch(s: Screen): Screen
  {
    if s.carParkId < 0 then s
    else s.(requests := s.requests + [s.carParkId], inFlight := s.inFlight + 1)
  }

  /** The transition each event makes; every one keeps the invariant. */
  function Step(s: Screen, e: Event): (r: Screen)
    requires Valid(s) && Enabled(s, e)
    ensures Valid(r)
    ensures r.carParkId == s.carParkId
  {
    match e
    case FetchRequested => Fetch(s)
    case ResponseReceived(success, result) =>
      if success then
        var areas := s.areas + result;
        s.(areas := areas, inFlight := s.inFlight - 1,
           notifications := s.notifications + [ItemRangeInserted(0, |areas|)])
      else
        s.(inFlight := s.inFlight - 1)
    case FetchFailed =>
      Fetch(s.(inFlight := s.inFlight - 1))
    case ItemLongClicked(p) =>
      // focus the area, put its name in the text field (which runs the
      // text watcher), then disable the button
      var focused := s.(focused := Some(p));
      var edited := focused.(editText := s.areas[p].name, confirmEnabled := ConfirmAllowed(s.areas[p].name));
      edited.(confirmEnabled := false)
    case TextChanged(text) =>
      s.(editText := text, confirmEnabled := ConfirmAllowed(text))
    case PositiveClicked =>
      s.(areas := Rename(s.areas, s.focused.value, s.editText))
  }

  /** Runs a sequence of events; `None` when one of them cannot be delivered. */
  function Run(s: Screen, es: seq<Event>): Option<Screen>
    requires Valid(s)
    decreases |es|
  {
    if es == [] then Some(s)
    else if !Enabled(s, es[0]) then None
    else Run(Step(s, es[0]), es[1..])
  }

  /** The areas an event adds to the list. */
  function Delivered(e: Event): seq<Area>
  {
    if e.ResponseReceived? && e.success then e.result else []
  }

  /** All areas the events add, in the order they arrive. */
  function Fetched(es: seq<Event>): seq<Area>
  {
    if es == [] then [] else Delivered(es[0]) + Fetched(es[1..])
  }

  function Ids(areas: seq<Area>): (ids: seq<Int32>)
    ensures |ids| == |areas|
    ensures forall i :: 0 <= i < |areas| ==> ids[i] == areas[i].id
  {
    seq(|areas|, i requires 0 <= i < |areas| => areas[i].id)
  }

  // ---------------------------------------------------------------------
  // One event at a time
  // ---------------------------------------------------------------------

  /** With a negative car-park id the guard issues no request and changes nothing. */
  lemma FetchGuardBlocks(s: Screen)
    requires Valid(s) && s.carParkId < 0
    ensures Step(s, FetchRequested) == s
  {
  }

  /** With a usable car-park id one request for that id goes out; the list is untouched. */
  lemma FetchIssuesRequest(s: Screen)
    requires Valid(s) && s.carParkId >= 0
    ensures Step(s, FetchRequested) == s.(requests := s.requests + [s.carParkId], inFlight := s.inFlight + 1)
  {
  }

  /**
   * A successful response appends its areas after the old ones, in their
   * order, and tells the adapter that items 0 up to the new size were inserted.
   */
  lemma SuccessAppends(s: Screen, result: seq<Area>)
    requires Valid(s) && s.inFlight > 0
    ensures var r := Step(s, ResponseReceived(true, result));
      && r.areas == s.areas + result
      && r.notifications == s.notifications + [ItemRangeInserted(0, |s.areas| + |result|)]
      && r.requests == s.requests && r.inFlight == s.inFlight - 1
      && r.focused == s.focused && r.editText == s.editText && r.confirmEnabled == s.confirmEnabled
  {
  }

  /** A response with the success flag off is dropped: nothing but the pending count changes and no request is re-issued. */
  lemma UnsuccessfulResponseIgnored(s: Screen, result: seq<Area>)
    requires Valid(s) && s.inFlight > 0
    ensures Step(s, ResponseReceived(false, result)) == s.(inFlight := s.inFlight - 1)
  {
  }

  /** A failed request is re-issued at once for the same car park; the list is untouched. */
  lemma FailureReissues(s: Screen)
    requires Valid(s) && s.inFlight > 0
    ensures s.carParkId >= 0
    ensures Step(s, FetchFailed) == s.(requests := s.requests + [s.carParkId])
  {
  }

  /** A long-click on row `p` focuses that area, copies its name into the text field and disables confirm. */
  lemma LongClickOpensEditor(s: Screen, p: int)
    requires Valid(s) && 0 <= p < |s.areas|
    ensures Step(s, ItemLongClicked(p)) == s.(focused := Some(p), editText := s.areas[p].name, confirmEnabled := false)
  {
  }

  /** After a text change the button is enabled exactly when the text has a character above U+0020. */
  lemma TextChangeGatesConfirm(s: Screen, text: string)
    requires Valid(s)
    ensures var r := Step(s, TextChanged(text));
      && r.editText == text
      && (r.confirmEnabled <==> HasVisibleChar(text))
      && r == s.(editText := text, confirmEnabled := r.confirmEnabled)
  {
  }

  /**
   * Confirm stores the raw text, untrimmed, as the focused area's name;
   * the other areas, their order and the list length stay as they were.
   */
  lemma ConfirmRenamesFocused(s: Screen)
    requires Valid(s) && s.focused.Some?
    ensures var r := Step(s, PositiveClicked); var i := s.focused.value;
      && |r.areas| == |s.areas|
      && r.areas[i] == Area(s.areas[i].id, s.editText)
      && (forall j :: 0 <= j < |s.areas| && j != i ==> r.areas[j] == s.areas[j])
      && r == s.(areas := r.areas)
  {
  }

  /** If the button was enabled when confirm is pressed, the new name has a character `trim` keeps. */
  lemma EnabledConfirmStoresVisibleName(s: Screen)
    requires Valid(s) && s.focused.Some? && s.confirmEnabled
    ensures HasVisibleChar(Step(s, PositiveClicked).areas[s.focused.value].name)
  {
  }

  // ---------------------------------------------------------------------
  // Whole runs
  // ---------------------------------------------------------------------

  lemma FetchedCons(es: seq<Event>)
    requires es != []
    ensures Fetched(es) == Delivered(es[0]) + Fetched(es[1..])
  {
  }

  /** One event extends the id list by exactly the ids of the areas it delivers. */
  lemma StepIds(s: Screen, e: Event)
    requires Valid(s) && Enabled(s, e)
    ensures Ids(Step(s, e).areas) == Ids(s.areas) + Ids(Delivered(e))
  {
  }

  /**
   * Over any run the ids on screen are the old ones followed by the ids of
   * every successful response's areas, in arrival order: renames never
   * move, add or drop an area.
   */
  lemma {:induction false} RunIds(s: Screen, es: seq<Event>, t: Screen)
    requires Valid(s) && Run(s, es) == Some(t)
    ensures Ids(t.areas) == Ids(s.areas) + Ids(Fetched(es))
    decreases |es|
  {
    if es != [] {
      var s' := Step(s, es[0]);
      RunIds(s', es[1..], t);
      StepIds(s, es[0]);
      FetchedCons(es);
      assert Ids(Fetched(es)) == Ids(Delivered(es[0])) + Ids(Fetched(es[1..]));
    }
  }

  /** Without renames, the list after a run is the old list followed by every successful response's areas. */
  lemma {:induction false} RunWithoutRenameAppends(s: Screen, es: seq<Event>, t: Screen)
    requires Valid(s) && Run(s, es) == Some(t)
    requires forall i :: 0 <= i < |es| ==> !es[i].PositiveClicked?
    ensures t.areas == s.areas + Fetched(es)
    decreases |es|
  {
    if es != [] {
      var s' := Step(s, es[0]);
      assert s'.areas == s.areas + Delivered(es[0]);
      RunWithoutRenameAppends(s', es[1..], t);
      FetchedCons(es);
    }
  }

  /**
   * A screen without a usable car-park id and with an empty list never
   * issues a request and its list stays empty, whatever the user does.
   */
  lemma {:induction false} NoCarParkNoFetch(s: Screen, es: seq<Event>, t: Screen)
    requires Valid(s) && s.carParkId < 0 && s.areas == [] && Run(s, es) == Some(t)
    ensures t.areas == [] && t.requests == s.requests && t.notifications == s.notifications
    decreases |es|
  {
    if es != [] {
      assert s.requests == [] && s.inFlight == 0 && s.focused == None;
      var s' := Step(s, es[0]);
      assert s'.areas == [] && s'.requests == s.requests && s'.notifications == s.notifications;
      NoCarParkNoFetch(s', es[1..], t);
    }
  }

  /** No event of the run is a fresh call of the fetch guard (retries come only from failures). */
  predicate NoFetchCalls(es: seq<Event>)
  {
    forall i :: 0 <= i < |es| ==> !es[i].FetchRequested?
  }

  /**
   * While only failures re-issue requests, at most one request is pending
   * or answered successfully: the list grows by the areas that arrive, a
   * screen that was already notified receives nothing more, and a first
   * notice covers the old areas plus exactly the delivered ones.
   */
  lemma {:induction false} SingleRequestRun(s: Screen, es: seq<Event>, t: Screen)
    requires Valid(s) && Run(s, es) == Some(t) && NoFetchCalls(es)
    requires s.inFlight + |s.notifications| <= 1
    ensures t.inFlight + |t.notifications| <= 1
    ensures |t.areas| == |s.areas| + |Fetched(es)|
    ensures s.notifications != [] ==> t.notifications == s.notifications && Fetched(es) == []
    ensures s.notifications == [] && t.notifications != [] ==>
              t.notifications == [ItemRangeInserted(0, |s.areas| + |Fetched(es)|)]
    decreases |es|
  {
    if es != [] {
      var s' := Step(s, es[0]);
      FetchedCons(es);
      assert |s'.areas| == |s.areas| + |Delivered(es[0])|;
      assert s'.inFlight + |s'.notifications| <= 1;
      assert s.notifications != [] ==> s.inFlight == 0 && s'.notifications == s.notifications && Delivered(es[0]) == [];
      SingleRequestRun(s', es[1..], t);
    }
  }

  /**
   * A screen created with a car-park id issues its one request; from then
   * on at most one request is ever pending, and the single insertion
   * notice it can receive, reporting start 0 and the full list size,
   * covers exactly the areas that arrived.
   */
  lemma {:induction false} CreatedScreenNotifiesOnce(carParkIdExtra: Option<Int32>, es: seq<Event>, t: Screen)
    requires Run(Step(Initial(carParkIdExtra), FetchRequested), es) == Some(t) && NoFetchCalls(es)
    ensures t.inFlight <= 1 && |t.notifications| <= 1
    ensures t.areas == Fetched(es) || exists i :: 0 <= i < |es| && es[i].PositiveClicked?
    ensures |t.areas| == |Fetched(es)|
    ensures t.notifications != [] ==> t.notifications[0] == ItemRangeInserted(0, |Fetched(es)|)
  {
    var c := Step(Initial(carParkIdExtra), FetchRequested);
    SingleRequestRun(c, es, t);
    if forall i :: 0 <= i < |es| ==> !es[i].PositiveClicked? {
      RunWithoutRenameAppends(c, es, t);
    }
  }

  /** In particular, a screen opened without the car-park extra never fetches anything. */
  lemma {:induction false} MissingExtraNeverFetches(es: seq<Event>, t: Screen)
    requires Run(Initial(None), es) == Some(t)
    ensures t.areas == [] && t.requests == []
  {
    NoCarParkNoFetch(Initial(None), es, t);
  }
}

/**
 * The command message sent to the backend: a mutable bean with three
 * fields, getters, setters, three fixed command tokens and the JSON keys
 * its fields are written under.
 */
module Network {
  import opened Wrappers
  import opened JavaLang

  /** The command tokens a client puts in the `command` field. */
  const COMMAND_RESERVE: string := "reserve"
  const COMMAND_CANCEL: string := "cancel"
  const COMMAND_CHECK_IN: string := "checkin"

  /** The serialised names of the three fields. */
  const USERNAME_KEY: string := "username"
  const CAR_PARK_ID_KEY: string := "car_park_id"
  const COMMAND_KEY: string := "command"

  /** The three tokens are the literal words and no two of them coincide. */
  lemma CommandTokens()
    ensures COMMAND_RESERVE == "reserve" && COMMAND_CANCEL == "cancel" && COMMAND_CHECK_IN == "checkin"
    ensures COMMAND_RESERVE != COMMAND_CANCEL
    ensures COMMAND_RESERVE != COMMAND_CHECK_IN
    ensures COMMAND_CANCEL != COMMAND_CHECK_IN
  {
  }

  /** The three serialised keys are the literal names and are pairwise distinct. */
  lemma SerializedKeys()
    ensures USERNAME_KEY == "username" && CAR_PARK_ID_KEY == "car_park_id" && COMMAND_KEY == "command"
    ensures |{USERNAME_KEY, CAR_PARK_ID_KEY, COMMAND_KEY}| == 3
  {
  }

  /** A JSON value as the serialiser writes it. */
  datatype JsonValue = JsonNull | JsonString(str: string) | JsonNumber(num: int)

  /**
   * The JSON object written for a package: one member per field under its
   * serialised key. A null string field is omitted, as the serialiser does
   * by default; the `int` field is always present.
   */
  function Encode(username: Option<string>, carParkId: Int32, command: Option<string>): (m: map<string, JsonValue>)
    ensures m.Keys <= {USERNAME_KEY, CAR_PARK_ID_KEY, COMMAND_KEY}
    ensures CAR_PARK_ID_KEY in m && m[CAR_PARK_ID_KEY] == JsonNumber(carParkId as int)
    ensures USERNAME_KEY in m <==> username.Some?
    ensures USERNAME_KEY in m ==> m[USERNAME_KEY] == JsonString(username.value)
    ensures COMMAND_KEY in m <==> command.Some?
    ensures COMMAND_KEY in m ==> m[COMMAND_KEY] == JsonString(command.value)
  {
    var withId := map[CAR_PARK_ID_KEY := JsonNumber(carParkId as int)];
    var withUser := if username.Some? then withId[USERNAME_KEY := JsonString(username.value)] else withId;
    if command.Some? then withUser[COMMAND_KEY := JsonString(command.value)] else withUser
  }

  /** Reads a string field: absent or null gives null, a number is a type error. */
  function DecodeString(m: map<string, JsonValue>, key: string): Option<Option<string>>
  {
    if key !in m then Some(None)
    else match m[key]
      case JsonNull => Some(None)
      case JsonString(s) => Some(Some(s))
      case JsonNumber(_) => None
  }

  /** Reads the `int` field: absent or null gives 0; a string or an out-of-range number is an error. */
  function DecodeInt(m: map<string, JsonValue>, key: string): Option<Int32>
  {
    if key !in m then Some(0 as Int32)
    else match m[key]
      case JsonNull => Some(0 as Int32)
      case JsonString(_) => None
      case JsonNumber(n) => if -0x8000_0000 <= n < 0x8000_0000 then Some(n as Int32) else None
  }

  /** The reading direction: the three field values found under the three keys. */
  function Decode(m: map<string, JsonValue>): (r: Option<(Option<string>, Int32, Option<string>)>)
    ensures r.Some? ==> DecodeString(m, USERNAME_KEY) == Some(r.value.0)
    ensures r.Some? ==> DecodeInt(m, CAR_PARK_ID_KEY) == Some(r.value.1)
    ensures r.Some? ==> DecodeString(m, COMMAND_KEY) == Some(r.value.2)
    ensures r.None? ==> DecodeString(m, USERNAME_KEY).None? || DecodeInt(m, CAR_PARK_ID_KEY).None? || DecodeString(m, COMMAND_KEY).None?
  {
    match (DecodeString(m, USERNAME_KEY), DecodeInt(m, CAR_PARK_ID_KEY), DecodeString(m, COMMAND_KEY))
    case (Some(u), Some(i), Some(c)) => Some((u, i, c))
    case _ => None
  }

  /** Reading back what was written gives the same three field values. */
  lemma DecodeEncode(username: Option<string>, carParkId: Int32, command: Option<string>)
    ensures Decode(Encode(username, carParkId, command)) == Some((username, carParkId, command))
  {
  }

  /** Two packages that serialise alike hold the same field values. */
  lemma EncodeInjective(u1: Option<string>, i1: Int32, c1: Option<string>,
                                           u2: Option<string>, i2: Int32, c2: Option<string>)
    requires Encode(u1, i1, c1) == Encode(u2, i2, c2)
    ensures u1 == u2 && i1 == i2 && c1 == c2
  {
  }

  /**
   * The bean. A Java `String` field may be null (`None`); the constructor
   * sets nothing, so the fields keep Java's defaults.
   */
  class CommandPackage {
    var username: Option<string>
    var carParkId: Int32
    var command: Option<string>

    constructor ()
      ensures username == None && carParkId == 0 && command == None
    {
      username, carParkId, command := None, 0, None;
    }

    method GetUsername() returns (u: Option<string>)
      ensures u == username
    {
      u := username;
    }

    method SetUsername(u: Option<string>)
      modifies this
      ensures username == u
      ensures carParkId == old(carParkId) && command == old(command)
    {
      username := u;
    }

    method GetCarParkId() returns (i: Int32)
      ensures i == carParkId
    {
      i := carParkId;
    }

    method SetCarParkId(i: Int32)
      modifies this
      ensures carParkId == i
      ensures username == old(username) && command == old(command)
    {
      carParkId := i;
    }

    method GetCommand() returns (c: Option<string>)
      ensures c == command
    {
      c := command;
    }

    /** Stores any string: the value is not checked against the three tokens. */
    method SetCommand(c: Option<string>)
      modifies this
      ensures command == c
      ensures username == old(username) && carParkId == old(carParkId)
    {
      command := c;
    }

    /** The JSON object for the package's current field values; reading it back gives those values. */
    method ToJson() returns (m: map<string, JsonValue>)
      ensures Decode(m) == Some((username, carParkId, command))
      ensures CAR_PARK_ID_KEY in m && m[CAR_PARK_ID_KEY] == JsonNumber(carParkId as int)
    {
      m := Encode(username, carParkId, command);
      DecodeEncode(username, carParkId, command);
    }
  }
}

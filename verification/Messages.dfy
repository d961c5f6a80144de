/**
  Event payloads as the bridge and the consumers see them: decoded JSON objects, of which only the
  truthiness and the text of a value matter here.
*/
module Messages {
  import opened Wrappers

  /** A JSON value; `Other` is anything but a string or null, with its truthiness and its `str()`. */
  datatype Value = Null | Str(text: string) | Other(truthy: bool, text: string)

  datatype Field = Field(key: string, value: Value)

  /** The fields in insertion order. The last field with a key counts, as it does for a JSON decoder. */
  type Message = seq<Field>

  function Get(m: Message, key: string): Value {
    if m == [] then Null
    else if m[|m| - 1].key == key then m[|m| - 1].value
    else Get(m[..|m| - 1], key)
  }

  /** The value under a key: that of the last field that has it, null if none has. */
  ghost predicate Holds(m: Message, key: string, v: Value) {
    if exists k :: 0 <= k < |m| && m[k].key == key
    then exists k :: LastWith(m, key, k) && m[k].value == v
    else v == Null
  }

  predicate LastWith(m: Message, key: string, k: int) {
    0 <= k < |m| && m[k].key == key && forall j :: k < j < |m| ==> m[j].key != key
  }

  lemma HoldsLonger(m: Message, key: string, v: Value)
    requires m != [] && m[|m| - 1].key != key && Holds(m[..|m| - 1], key, v)
    ensures Holds(m, key, v)
  {
    if k :| 0 <= k < |m| && m[k].key == key {
      assert m[..|m| - 1][k].key == key;
      var l :| LastWith(m[..|m| - 1], key, l) && m[..|m| - 1][l].value == v;
      assert LastWith(m, key, l) && m[l].value == v;
    }
  }

  lemma {:induction false} GetHolds(m: Message, key: string)
    ensures Holds(m, key, Get(m, key))
  {
    if m != [] {
      var n := |m| - 1;
      if m[n].key == key {
        assert LastWith(m, key, n);
      } else {
        GetHolds(m[..n], key);
        HoldsLonger(m, key, Get(m[..n], key));
      }
    }
  }

  /** No message holds two values under one key. */
  lemma HeldOnce(m: Message, key: string, v: Value, w: Value)
    requires Holds(m, key, v) && Holds(m, key, w)
    ensures v == w
  {
    if exists k :: 0 <= k < |m| && m[k].key == key {
      var i :| LastWith(m, key, i) && m[i].value == v;
      var j :| LastWith(m, key, j) && m[j].value == w;
      assert !(i < j) && !(j < i);
    }
  }

  /** What `get` reads, at whatever position the field stands. */
  lemma GetReadsLast(m: Message, key: string, k: nat)
    requires LastWith(m, key, k)
    ensures Get(m, key) == m[k].value
  {
    GetHolds(m, key);
    assert Holds(m, key, m[k].value);
    HeldOnce(m, key, Get(m, key), m[k].value);
  }

  predicate Truthy(v: Value) {
    match v
    case Null => false
    case Str(text) => text != ""
    case Other(truthy, _) => truthy
  }

  /** Python's `v or w`. */
  function Or(v: Value, w: Value): Value {
    if Truthy(v) then v else w
  }

  function ToText(v: Value): string {
    match v
    case Null => "None"
    case Str(text) => text
    case Other(_, text) => text
  }

  predicate IsSpace(c: char) {
    var n := c as int;
    9 <= n <= 13 || 28 <= n <= 32 || n == 0x85 || n == 0xA0 || n == 0x1680 || 0x2000 <= n <= 0x200A
    || n == 0x2028 || n == 0x2029 || n == 0x202F || n == 0x205F || n == 0x3000
  }

  /** The white space of ASCII: tab to carriage return, four separators, and the space. */
  lemma AsciiSpace(c: char)
    requires c as int < 128
    ensures IsSpace(c) <==> c in "\t\n\r " || c as int in {11, 12, 28, 29, 30, 31}
  {}

  /** `str.strip()`: what is left has no white space at either end. */
  function Strip(s: string): (r: string)
    ensures r == "" || (!IsSpace(r[0]) && !IsSpace(r[|r| - 1]))
    ensures |r| <= |s|
  {
    if s == "" then ""
    else if IsSpace(s[0]) then Strip(s[1..])
    else if IsSpace(s[|s| - 1]) then Strip(s[..|s| - 1])
    else s
  }

  /** Only white space is taken away, and only from the ends. */
  lemma {:induction false} StripCutsSpace(s: string) returns (left: string, right: string)
    ensures s == left + Strip(s) + right
    ensures (forall k :: 0 <= k < |left| ==> IsSpace(left[k])) && (forall k :: 0 <= k < |right| ==> IsSpace(right[k]))
    decreases |s|
  {
    if s == "" || !(IsSpace(s[0]) || IsSpace(s[|s| - 1])) {
      left, right := "", "";
    } else if IsSpace(s[0]) {
      left, right := StripCutsSpace(s[1..]);
      left := [s[0]] + left;
    } else {
      left, right := StripCutsSpace(s[..|s| - 1]);
      right := right + [s[|s| - 1]];
    }
  }

  /** What the bridge makes of the identifier: none to be had, one the claim rejects, or one it claims. */
  datatype BridgeId = NoId | BadId | Id(id: string)

  /** `message.get("event_id") or message.get("eventId")`, which `claim` then calls `.strip()` on. */
  function BridgeIdOf(m: Message): BridgeId {
    var v := Or(Get(m, "event_id"), Get(m, "eventId"));
    if !Truthy(v) then NoId
    else if v.Str? && Strip(v.text) != "" then Id(v.text)
    else BadId
  }

  /** `extract_event_id`, which prefers the other key, converts to text and strips; None is its ValueError. */
  function ConsumerIdOf(m: Message): Option<string> {
    var v := Or(Get(m, "eventId"), Get(m, "event_id"));
    if v.Null? then None
    else
      var id := Strip(ToText(v));
      if id == "" then None else Some(id)
  }

  predicate Blank(s: string) {
    forall k :: 0 <= k < |s| ==> IsSpace(s[k])
  }

  lemma StripsToNothing(s: string)
    ensures Strip(s) == "" <==> Blank(s)
  {
    var left, right := StripCutsSpace(s);
    if Strip(s) != "" {
      assert s[|left|] == Strip(s)[0];
    } else {
      assert s == left + right;
    }
  }

  /** What the bridge makes of the value it finds. */
  ghost predicate BridgeReads(v: Value, r: BridgeId) {
    match v
    case Str(text) => if Blank(text) then r == BadId else r == Id(text)
    case _ => r == BadId
  }

  /**
    Where the bridge finds the identifier, by the fields of the message: under `event_id`, or, if what stands
    there is missing or false, under `eventId`. A string that is not blank is the identifier as it stands.
  */
  lemma BridgeIdExactly(m: Message, a: Value, b: Value)
    requires Holds(m, "event_id", a) && Holds(m, "eventId", b)
    ensures Truthy(a) ==> BridgeReads(a, BridgeIdOf(m))
    ensures !Truthy(a) && Truthy(b) ==> BridgeReads(b, BridgeIdOf(m))
    ensures BridgeIdOf(m) == NoId <==> !Truthy(a) && !Truthy(b)
  {
    GetHolds(m, "event_id");
    GetHolds(m, "eventId");
    HeldOnce(m, "event_id", a, Get(m, "event_id"));
    HeldOnce(m, "eventId", b, Get(m, "eventId"));
    if a.Str? {
      StripsToNothing(a.text);
    }
    if b.Str? {
      StripsToNothing(b.text);
    }
  }

  /** So an ordinary event is read, whichever of the two keys it uses and wherever the field stands. */
  lemma EventIsRead(m: Message, k: nat, text: string)
    requires !Blank(text) && k < |m| && m[k].value == Str(text)
    requires LastWith(m, "event_id", k)
             || (LastWith(m, "eventId", k) && forall j :: 0 <= j < |m| && m[j].key == "event_id" ==> !Truthy(m[j].value))
    ensures BridgeIdOf(m) == Id(text)
  {
    GetHolds(m, "event_id");
    GetHolds(m, "eventId");
    BridgeIdExactly(m, Get(m, "event_id"), Get(m, "eventId"));
    if LastWith(m, "event_id", k) {
      GetReadsLast(m, "event_id", k);
    } else {
      GetReadsLast(m, "eventId", k);
    }
  }

  /** The text less the white space around it, if anything is left. */
  ghost predicate Trimmed(text: string, r: Option<string>) {
    match r
    case None => Blank(text)
    case Some(core) =>
      && core != "" && !IsSpace(core[0]) && !IsSpace(core[|core| - 1])
      && exists left, right :: text == left + core + right && Blank(left) && Blank(right)
  }

  lemma StripTrims(text: string)
    ensures Trimmed(text, if Strip(text) == "" then None else Some(Strip(text)))
  {
    StripsToNothing(text);
    var left, right := StripCutsSpace(text);
    assert Blank(left) && Blank(right);
  }

  /**
    Where a consumer finds it: the other way round, and then whatever the second field holds, unless it is
    null; as text, less the white space around it.
  */
  lemma ConsumerIdExactly(m: Message, a: Value, b: Value)
    requires Holds(m, "event_id", a) && Holds(m, "eventId", b)
    ensures Truthy(b) ==> Trimmed(ToText(b), ConsumerIdOf(m))
    ensures !Truthy(b) && !a.Null? ==> Trimmed(ToText(a), ConsumerIdOf(m))
    ensures !Truthy(b) && a.Null? ==> ConsumerIdOf(m) == None
  {
    GetHolds(m, "event_id");
    GetHolds(m, "eventId");
    HeldOnce(m, "event_id", a, Get(m, "event_id"));
    HeldOnce(m, "eventId", b, Get(m, "eventId"));
    StripTrims(ToText(a));
    StripTrims(ToText(b));
  }

  function ValidateConsumerName(name: string): Option<string> {
    var normalized := Strip(name);
    if normalized == "" then None else Some(normalized)
  }

  lemma StripTwice(s: string)
    ensures Strip(Strip(s)) == Strip(s)
  {}

  /** A name is rejected exactly when it is blank, else trimmed, and then accepted unchanged ever after. */
  lemma BlankNamesRejected(name: string)
    ensures ValidateConsumerName(name).None? <==> Blank(name)
    ensures Trimmed(name, ValidateConsumerName(name))
    ensures ValidateConsumerName(name).Some? ==>
      ValidateConsumerName(ValidateConsumerName(name).value) == ValidateConsumerName(name)
  {
    StripTrims(name);
    StripsToNothing(name);
    StripTwice(name);
  }

  /**
    The bridge claims an event under the identifier its consumers claim it under exactly when the
    identifier carries no surrounding white space and the two keys, if both are filled, agree.
  */
  lemma IdsAgree(m: Message)
    requires BridgeIdOf(m).Id?
    ensures var a, b, id := Get(m, "event_id"), Get(m, "eventId"), BridgeIdOf(m).id;
            ConsumerIdOf(m) == Some(id) <==>
              Strip(id) == id && (Truthy(a) && Truthy(b) ==> Strip(ToText(b)) == ToText(a))
  {
    var a, b := Get(m, "event_id"), Get(m, "eventId");
    if Truthy(a) && Truthy(b) {
      StripTwice(ToText(b));
    }
  }

  /** Two events the bridge tells apart can be one event to a consumer. */
  lemma IdsCanCollide() returns (m1: Message, m2: Message)
    ensures BridgeIdOf(m1).Id? && BridgeIdOf(m2).Id? && BridgeIdOf(m1) != BridgeIdOf(m2)
    ensures ConsumerIdOf(m1) == ConsumerIdOf(m2) == Some("7")
  {
    m1 := [Field("event_id", Str("7"))];
    m2 := [Field("event_id", Str("7 "))];
    assert m1[..0] == [] && m2[..0] == [];
    assert Strip("7 ") == "7" by {
      assert "7 "[..1] == "7";
    }
  }
}

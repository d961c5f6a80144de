/** `build_routing_key`: a template filled in from the fields of an event. */
module Routing {
  import opened Wrappers
  import opened Messages

  datatype Segment = Literal(text: string) | Placeholder(name: string)

  type Template = seq<Segment>

  const DEFAULT_TEMPLATE: Template := [Placeholder("event_type")]

  /** `key.replace(".", "_")` */
  function Underscored(key: string): string {
    if key == "" then ""
    else Underscored(key[..|key| - 1]) + if key[|key| - 1] == '.' then "_" else [key[|key| - 1]]
  }

  /** `{k.replace(".", "_"): v for k, v in event.items()}`: of two keys that become equal the later wins. */
  function SafeEvent(event: Message): map<string, Value> {
    if event == [] then map[]
    else
      var f := event[|event| - 1];
      SafeEvent(event[..|event| - 1])[Underscored(f.key) := f.value]
  }

  /** `template.format(**safe_event)`; None is the KeyError of a missing placeholder. */
  function Format(template: Template, safe: map<string, Value>): Option<string> {
    if template == [] then Some("")
    else
      var init := Format(template[..|template| - 1], safe);
      match template[|template| - 1]
      case Literal(text) => if init.None? then None else Some(init.value + text)
      case Placeholder(name) =>
        if init.None? || name !in safe then None else Some(init.value + ToText(safe[name]))
  }

  function BuildRoutingKey(template: Template, event: Message): Option<string> {
    Format(template, SafeEvent(event))
  }

  predicate Mentions(template: Template, name: string) {
    Placeholder(name) in template
  }

  predicate HasField(event: Message, name: string) {
    exists k :: 0 <= k < |event| && Underscored(event[k].key) == name
  }

  lemma {:induction false} SafeEventKeys(event: Message, name: string)
    ensures name in SafeEvent(event) <==> HasField(event, name)
  {
    if event != [] {
      var n := |event| - 1;
      SafeEventKeys(event[..n], name);
      if HasField(event[..n], name) {
        var k :| 0 <= k < n && Underscored(event[..n][k].key) == name;
        assert Underscored(event[k].key) == name;
      }
      if HasField(event, name) && Underscored(event[n].key) != name {
        var k :| 0 <= k < |event| && Underscored(event[k].key) == name;
        assert Underscored(event[..n][k].key) == name;
      }
    }
  }

  lemma {:induction false} FormatDefined(template: Template, safe: map<string, Value>)
    ensures Format(template, safe).Some? <==> forall name :: Mentions(template, name) ==> name in safe
  {
    if template != [] {
      var n := |template| - 1;
      FormatDefined(template[..n], safe);
      assert forall name :: Mentions(template, name) <==>
        Mentions(template[..n], name) || template[n] == Placeholder(name);
    }
  }

  /** The routing key exists exactly when every placeholder is a field of the event, dots read as underscores. */
  lemma RoutingKeyDefined(template: Template, event: Message)
    ensures BuildRoutingKey(template, event).Some? <==> forall name :: Mentions(template, name) ==> HasField(event, name)
  {
    FormatDefined(template, SafeEvent(event));
    forall name
      ensures name in SafeEvent(event) <==> HasField(event, name)
    {
      SafeEventKeys(event, name);
    }
  }

  /** Which value fills a placeholder: that of the last field whose key reads as its name. */
  lemma {:induction false} PlaceholderValue(event: Message, name: string, k: nat)
    requires k < |event| && Underscored(event[k].key) == name
    requires forall j :: k < j < |event| ==> Underscored(event[j].key) != name
    ensures name in SafeEvent(event) && SafeEvent(event)[name] == event[k].value
  {
    var n := |event| - 1;
    if k < n {
      assert Underscored(event[n].key) != name;
      PlaceholderValue(event[..n], name, k);
    }
  }

  /** A segment's text: its own, or that of the last field whose key reads as its name. */
  ghost predicate Renders(segment: Segment, event: Message, text: string) {
    match segment
    case Literal(own) => text == own
    case Placeholder(name) => exists k :: LastReadAs(event, name, k) && text == ToText(event[k].value)
  }

  predicate LastReadAs(event: Message, name: string, k: int) {
    && 0 <= k < |event| && Underscored(event[k].key) == name
    && forall j :: k < j < |event| ==> Underscored(event[j].key) != name
  }

  function Joined(texts: seq<string>): string {
    if texts == [] then "" else texts[0] + Joined(texts[1..])
  }

  lemma {:induction false} JoinedMore(texts: seq<string>, text: string)
    ensures Joined(texts + [text]) == Joined(texts) + text
  {
    if texts == [] {
      assert texts + [text] == [text] && [text][1..] == [];
      assert Joined([text]) == text + "";
    } else {
      assert (texts + [text])[1..] == texts[1..] + [text];
      JoinedMore(texts[1..], text);
    }
  }

  /** What the key reads: the texts of the segments, one behind the other. */
  lemma {:induction false} RoutingKeyText(template: Template, event: Message, texts: seq<string>)
    requires |texts| == |template| && forall k :: 0 <= k < |template| ==> Renders(template[k], event, texts[k])
    ensures BuildRoutingKey(template, event) == Some(Joined(texts))
    decreases |template|
  {
    if template == [] {
      assert texts == [];
    } else {
      var n := |template| - 1;
      forall k | 0 <= k < n
        ensures Renders(template[..n][k], event, texts[..n][k])
      {
        assert Renders(template[k], event, texts[k]);
      }
      RoutingKeyText(template[..n], event, texts[..n]);
      assert texts == texts[..n] + [texts[n]];
      JoinedMore(texts[..n], texts[n]);
      SegmentText(template[n], event, texts[n]);
    }
  }

  lemma SegmentText(segment: Segment, event: Message, text: string)
    requires Renders(segment, event, text)
    ensures match segment
            case Literal(own) => text == own
            case Placeholder(name) => name in SafeEvent(event) && ToText(SafeEvent(event)[name]) == text
  {
    if segment.Placeholder? {
      var k: nat :| LastReadAs(event, segment.name, k) && text == ToText(event[k].value);
      PlaceholderValue(event, segment.name, k);
    }
  }

  lemma {:induction false} UnderscoredKeeps(key: string)
    ensures |Underscored(key)| == |key|
    ensures forall k :: 0 <= k < |key| ==> Underscored(key)[k] == if key[k] == '.' then '_' else key[k]
  {
    if key != "" {
      UnderscoredKeeps(key[..|key| - 1]);
    }
  }

  /** A key as the camelCase alias generator of `BaseEvent.to_message` writes it. */
  predicate CamelCase(key: string) {
    forall k :: 0 <= k < |key| ==> key[k] != '_' && key[k] != '.'
  }

  /** The aliases of the fields every event has; subclasses add theirs in the same form. */
  const MESSAGE_KEYS := {
    "eventId", "eventType", "aggregateId", "occurredAt", "source", "dataVersion", "correlationId", "causationId", "metadata"
  }

  lemma MessageKeysAreCamelCase(key: string)
    requires key in MESSAGE_KEYS
    ensures CamelCase(key)
  {}

  /** An event with such keys only has no routing key under the bridge's default template. */
  lemma CamelCaseUnroutable(event: Message)
    requires forall k :: 0 <= k < |event| ==> CamelCase(event[k].key)
    ensures BuildRoutingKey(DEFAULT_TEMPLATE, event).None?
  {
    RoutingKeyDefined(DEFAULT_TEMPLATE, event);
    assert Mentions(DEFAULT_TEMPLATE, "event_type");
    forall k | 0 <= k < |event|
      ensures Underscored(event[k].key) != "event_type"
    {
      UnderscoredKeeps(event[k].key);
      assert "event_type"[5] == '_';
    }
  }

  /** That goes for every event in the library's own format, with whatever camelCase fields a subclass adds. */
  lemma OwnFormatUnroutable(event: Message)
    requires forall k :: 0 <= k < |event| ==> event[k].key in MESSAGE_KEYS || CamelCase(event[k].key)
    ensures BuildRoutingKey(DEFAULT_TEMPLATE, event).None?
  {
    forall k | 0 <= k < |event|
      ensures CamelCase(event[k].key)
    {
      if event[k].key in MESSAGE_KEYS {
        MessageKeysAreCamelCase(event[k].key);
      }
    }
    CamelCaseUnroutable(event);
  }
}

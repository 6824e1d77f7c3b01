/** The debug projection of calendar components to JSON-ready values:
    calendars and events keep a fixed list of properties plus their type name,
    property values become strings or integers, anything else becomes its
    string form. */
module Projection {
  import opened Wrappers
  import opened Calendar

  /** The properties kept for a calendar, in output order. */
  const CalendarKeys: seq<string> := ["PRODID", "VERSION", "CALSCALE", "X-WR-CALNAME", "X-WR-TIMEZONE", "X-WR-CALDESC"]

  /** The properties kept for an event, in output order. */
  const EventKeys: seq<string> := ["SUMMARY", "DTSTART", "DTEND", "DTSTAMP", "UID", "SEQUENCE", "CREATED",
                                   "DESCRIPTION", "LAST-MODIFIED", "LOCATION", "STATUS", "TRANSP"]

  /** str() of the two component classes, stored under "type". */
  const CalendarType: string := "<class 'icalendar.cal.Calendar'>"
  const EventType: string := "<class 'icalendar.cal.Event'>"
  const TypeKey: string := "type"

  /** A JSON-ready value: a string, an integer, an object whose members keep
      their insertion order, or the string form of a component that is neither
      a calendar nor an event (its rendering is not part of this model, so the
      component itself stands for it). */
  datatype Json =
    | JString(s: string)
    | JInt(n: int)
    | JObject(members: seq<(string, Json)>)
    | JRepr(component: Component)

  /** A property value: dates as the text of their date, integers as
      integers, anything else as its text. */
  function CleanValue(v: Value): (j: Json)
    ensures j.JString? || j.JInt?
    ensures j.JInt? <==> v.Int?
    ensures v.Int? ==> j == JInt(v.n)
    ensures v.Text? ==> j == JString(v.s)
    ensures v.DateTime? ==> j == JString(v.rendered)
  {
    match v
    case DateTime(rendered) => JString(rendered)
    case Int(n) => JInt(n)
    case Text(s) => JString(s)
  }

  /** The listed properties of props, cleaned, in the order of keys. */
  function Members(props: map<string, Value>, keys: seq<string>): (ms: seq<(string, Json)>)
    requires forall i :: 0 <= i < |keys| ==> keys[i] in props
    ensures |ms| == |keys|
    ensures forall i :: 0 <= i < |keys| ==> ms[i] == (keys[i], CleanValue(props[keys[i]]))
  {
    if keys == [] then []
    else Members(props, keys[..|keys| - 1]) + [(keys[|keys| - 1], CleanValue(props[keys[|keys| - 1]]))]
  }

  predicate HasKeys(c: Component, keys: seq<string>)
  {
    forall i :: 0 <= i < |keys| ==> keys[i] in c.props
  }

  /** The object for a component of a projected class: the listed properties
      in order, then its type; nothing when a listed property is missing,
      where the script raises KeyError. */
  function Project(c: Component, keys: seq<string>, tag: string): Option<Json>
  {
    if HasKeys(c, keys) then Some(JObject(Members(c.props, keys) + [(TypeKey, JString(tag))]))
    else None
  }

  /** ComposeCleanObject on a component. */
  function CleanComponent(c: Component): Option<Json>
  {
    if c.name == VCALENDAR then Project(c, CalendarKeys, CalendarType)
    else if c.name == VEVENT then Project(c, EventKeys, EventType)
    else Some(JRepr(c))
  }

  /** ComposeCleanObject: a calendar or an event is projected key by key into
      a fresh dictionary, then tagged with its type; any other component is
      turned into its string form. */
  method ComposeCleanObject(c: Component) returns (r: Option<Json>)
    ensures r == CleanComponent(c)
  {
    var keys, tag;
    if c.name == VCALENDAR {
      keys, tag := CalendarKeys, CalendarType;
    } else if c.name == VEVENT {
      keys, tag := EventKeys, EventType;
    } else {
      return Some(JRepr(c));
    }
    var dump: seq<(string, Json)> := [];
    for i := 0 to |keys|
      invariant HasKeys(c, keys[..i])
      invariant dump == Members(c.props, keys[..i])
    {
      if keys[i] !in c.props {
        assert !HasKeys(c, keys);
        return None;
      }
      assert keys[..i + 1] == keys[..i] + [keys[i]];
      dump := dump + [(keys[i], CleanValue(c.props[keys[i]]))];
    }
    assert keys[..|keys|] == keys;
    r := Some(JObject(dump + [(TypeKey, JString(tag))]));
  }

  /** The member names of a projected object: the listed keys, then "type". */
  function Names(ms: seq<(string, Json)>): (r: seq<string>)
    ensures |r| == |ms|
    ensures forall i :: 0 <= i < |ms| ==> r[i] == ms[i].0
  {
    if ms == [] then [] else Names(ms[..|ms| - 1]) + [ms[|ms| - 1].0]
  }

  /** A projected component fails exactly when a listed property is missing;
      otherwise it is an object with the listed keys in order followed by
      "type", each key holding that property's cleaned value. */
  lemma ProjectShape(c: Component, keys: seq<string>, tag: string)
    ensures Project(c, keys, tag).None? <==> exists i :: 0 <= i < |keys| && keys[i] !in c.props
    ensures Project(c, keys, tag).Some? ==>
              && Project(c, keys, tag).value.JObject?
              && Names(Project(c, keys, tag).value.members) == keys + [TypeKey]
              && Project(c, keys, tag).value.members[|keys|] == (TypeKey, JString(tag))
              && (forall i :: 0 <= i < |keys| ==>
                    Project(c, keys, tag).value.members[i] == (keys[i], CleanValue(c.props[keys[i]])))
  {
    if HasKeys(c, keys) {
      var ms := Project(c, keys, tag).value.members;
      assert Names(ms) == keys + [TypeKey];
    }
  }

  /** A cleaned calendar carries its six listed properties and its type; a
      cleaned event its twelve and its type; any other component is never
      projected and never fails. */
  lemma CleanShape(c: Component)
    ensures c.name == VCALENDAR && CleanComponent(c).Some? ==>
              Names(CleanComponent(c).value.members) == CalendarKeys + [TypeKey]
    ensures c.name == VEVENT && CleanComponent(c).Some? ==>
              Names(CleanComponent(c).value.members) == EventKeys + [TypeKey]
    ensures c.name != VCALENDAR && c.name != VEVENT ==> CleanComponent(c) == Some(JRepr(c))
    ensures CleanComponent(c).None? <==>
              || (c.name == VCALENDAR && !HasKeys(c, CalendarKeys))
              || (c.name == VEVENT && !HasKeys(c, EventKeys))
  {
    ProjectShape(c, CalendarKeys, CalendarType);
    ProjectShape(c, EventKeys, EventType);
  }

  /** Cleaning a list of components, stopping at the first that fails. */
  function CleanAll(cs: seq<Component>): Option<seq<Json>>
  {
    if cs == [] then Some([])
    else
      match CleanAll(cs[..|cs| - 1])
      case None => None
      case Some(js) =>
        match CleanComponent(cs[|cs| - 1])
        case None => None
        case Some(j) => Some(js + [j])
  }

  lemma CleanAllSnoc(cs: seq<Component>, c: Component)
    ensures CleanAll(cs + [c]) ==
              if CleanAll(cs).Some? && CleanComponent(c).Some? then Some(CleanAll(cs).value + [CleanComponent(c).value])
              else None
  {
    assert (cs + [c])[..|cs|] == cs;
  }

  /** The cleaned list succeeds exactly when every component can be cleaned,
      and then holds each one's object, in order. */
  lemma {:induction false} CleanAllElements(cs: seq<Component>)
    ensures CleanAll(cs).Some? <==> forall i :: 0 <= i < |cs| ==> CleanComponent(cs[i]).Some?
    ensures CleanAll(cs).Some? ==>
              && |CleanAll(cs).value| == |cs|
              && forall i :: 0 <= i < |cs| ==> CleanAll(cs).value[i] == CleanComponent(cs[i]).value
  {
    if cs != [] {
      var init, c := cs[..|cs| - 1], cs[|cs| - 1];
      assert cs == init + [c];
      CleanAllElements(init);
      CleanAllSnoc(init, c);
      if CleanAll(cs).Some? {
        assert forall i :: 0 <= i < |init| ==> cs[i] == init[i];
      } else if CleanAll(init).Some? {
        assert !CleanComponent(cs[|cs| - 1]).Some?;
      } else {
        var i :| 0 <= i < |init| && !CleanComponent(init[i]).Some?;
        assert cs[i] == init[i];
      }
    }
  }

  /** Cleaning a concatenation cleans the two parts and concatenates. */
  lemma {:induction false} CleanAllAppend(a: seq<Component>, b: seq<Component>)
    ensures CleanAll(a + b) ==
              if CleanAll(a).Some? && CleanAll(b).Some? then Some(CleanAll(a).value + CleanAll(b).value) else None
    decreases |b|
  {
    if b == [] {
      assert a + b == a;
      if CleanAll(a).Some? {
        assert CleanAll(a).value + [] == CleanAll(a).value;
      }
    } else {
      var init, c := b[..|b| - 1], b[|b| - 1];
      assert a + b == (a + init) + [c];
      assert b == init + [c];
      CleanAllAppend(a, init);
      CleanAllSnoc(a + init, c);
      CleanAllSnoc(init, c);
      if CleanAll(a).Some? && CleanAll(init).Some? && CleanComponent(c).Some? {
        var x, y, j := CleanAll(a).value, CleanAll(init).value, CleanComponent(c).value;
        assert x + (y + [j]) == (x + y) + [j];
      }
    }
  }

  /** What ComposeCleanListOfObject receives as its second argument: a list
      of components, or the dictionary of categories, whose lists are taken
      in key order. */
  datatype Objects = Listed(items: seq<Component>) | Grouped(order: seq<string>, buckets: map<string, seq<Component>>)
  {
    predicate WellFormed()
    {
      Grouped? ==> forall k :: k in order ==> k in buckets
    }
  }

  /** The lists of the keys, concatenated in key order. */
  function Chain(order: seq<string>, buckets: map<string, seq<Component>>): seq<Component>
    requires forall k :: k in order ==> k in buckets
  {
    if order == [] then [] else Chain(order[..|order| - 1], buckets) + buckets[order[|order| - 1]]
  }

  /** The components of objects, in the order the script visits them. */
  function Flatten(objects: Objects): seq<Component>
    requires objects.WellFormed()
  {
    match objects
    case Listed(items) => items
    case Grouped(order, buckets) => Chain(order, buckets)
  }

  /** The script's inner loop: append the cleaned form of each component of
      cs to the objects cleaned so far. */
  method AppendClean(objs: seq<Json>, ghost done: seq<Component>, cs: seq<Component>) returns (r: Option<seq<Json>>)
    requires CleanAll(done) == Some(objs)
    ensures r == CleanAll(done + cs)
  {
    var acc := objs;
    assert done + cs[..0] == done;
    for i := 0 to |cs|
      invariant CleanAll(done + cs[..i]) == Some(acc)
    {
      var o := ComposeCleanObject(cs[i]);
      PrefixStep(done, cs, i);
      if o.None? {
        return None;
      }
      acc := acc + [o.value];
    }
    assert cs[..|cs|] == cs;
    r := Some(acc);
  }

  /** Cleaning the prefix up to element i of cs: one more element, and a
      failure there fails the whole of cs. */
  lemma PrefixStep(done: seq<Component>, cs: seq<Component>, i: nat)
    requires i < |cs|
    ensures CleanAll(done + cs[..i + 1]) ==
              if CleanAll(done + cs[..i]).Some? && CleanComponent(cs[i]).Some?
              then Some(CleanAll(done + cs[..i]).value + [CleanComponent(cs[i]).value])
              else None
    ensures CleanAll(done + cs[..i + 1]).None? ==> CleanAll(done + cs).None?
  {
    assert done + cs[..i + 1] == done + cs[..i] + [cs[i]];
    CleanAllSnoc(done + cs[..i], cs[i]);
    CleanAllAppend(done + cs[..i + 1], cs[i + 1..]);
    assert done + cs == done + cs[..i + 1] + cs[i + 1..];
  }

  /** ComposeCleanListOfObject: the cleaned headers, then the cleaned objects
      (for a dictionary, each list in key order). */
  method ComposeCleanListOfObject(headers: seq<Component>, objects: Objects) returns (r: Option<seq<Json>>)
    requires objects.WellFormed()
    ensures r == CleanAll(headers + Flatten(objects))
  {
    assert headers == [] + headers;
    r := AppendClean([], [], headers);
    if r.None? {
      CleanAllAppend(headers, Flatten(objects));
      return;
    }
    if objects.Listed? {
      r := AppendClean(r.value, headers, objects.items);
    } else {
      var order, buckets := objects.order, objects.buckets;
      assert headers + Chain(order[..0], buckets) == headers;
      for i := 0 to |order|
        invariant r == CleanAll(headers + Chain(order[..i], buckets)) && r.Some?
      {
        ChainStep(order, buckets, i);
        var done := headers + Chain(order[..i], buckets);
        r := AppendClean(r.value, done, buckets[order[i]]);
        assert done + buckets[order[i]] == headers + Chain(order[..i + 1], buckets);
        if r.None? {
          ChainFailure(headers, order, buckets, i + 1);
          return;
        }
      }
      assert order[..|order|] == order;
    }
  }

  /** Once the cleaned prefix of a flattened dictionary fails, the whole
      list fails. */
  lemma ChainFailure(headers: seq<Component>, order: seq<string>, buckets: map<string, seq<Component>>, n: nat)
    requires forall k :: k in order ==> k in buckets
    requires n <= |order| && CleanAll(headers + Chain(order[..n], buckets)).None?
    ensures CleanAll(headers + Chain(order, buckets)).None?
  {
    ChainPrefix(order, buckets, n);
    var upto := Chain(order[..n], buckets);
    var whole := Chain(order, buckets);
    assert whole == upto + whole[|upto|..];
    CleanAllAppend(headers + upto, whole[|upto|..]);
    assert headers + whole == headers + upto + whole[|upto|..];
  }

  lemma ChainStep(order: seq<string>, buckets: map<string, seq<Component>>, i: nat)
    requires forall k :: k in order ==> k in buckets
    requires i < |order|
    ensures Chain(order[..i + 1], buckets) == Chain(order[..i], buckets) + buckets[order[i]]
  {
    assert order[..i + 1][..i] == order[..i];
  }

  lemma {:induction false} ChainPrefix(order: seq<string>, buckets: map<string, seq<Component>>, n: nat)
    requires forall k :: k in order ==> k in buckets
    requires n <= |order|
    ensures Chain(order[..n], buckets) <= Chain(order, buckets)
    decreases |order|
  {
    if n < |order| {
      var init := order[..|order| - 1];
      assert order[..n] == init[..n];
      ChainPrefix(init, buckets, n);
    } else {
      assert order[..n] == order;
    }
  }
}

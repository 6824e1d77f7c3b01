/** Optional values, for the script's failure paths. */
module Wrappers {
  datatype Option<+T> = None | Some(value: T)
}

/** The calendar objects the script handles, as values: a component is a kind
    tag, a property dictionary and an ordered list of nested components, the
    shape the icalendar parser produces for the feed. */
module Calendar {

  /** A property value as icalendar types it: a date or date-time (vDDDTypes,
      carried with the text str(obj.dt) gives), an integer (vInt), or any
      other property, carried as its text. */
  datatype Value = DateTime(rendered: string) | Int(n: int) | Text(s: string)

  /** A calendar component. Property names are upper-case, as icalendar's
      case-insensitive dictionary stores them. */
  datatype Component = Component(name: string, props: map<string, Value>, subcomponents: seq<Component>)

  /** The event kind of section 3.6.1 of RFC 5545. */
  const VEVENT := "VEVENT"
  const VCALENDAR := "VCALENDAR"
  const SUMMARY := "SUMMARY"
  const DESCRIPTION := "DESCRIPTION"

  predicate IsEvent(c: Component)
  {
    c.name == VEVENT
  }

  /** A Python dict from category name to a list of components: the keys in
      insertion order, and the lists. */
  datatype Categories = Categories(order: seq<string>, buckets: map<string, seq<Component>>)
  {
    ghost predicate Valid()
    {
      && (forall i, j :: 0 <= i < j < |order| ==> order[i] != order[j])
      && (forall k :: k in buckets <==> k in order)
    }
  }

  /** `Calendar()` followed by add_component for each of cs: a calendar with no
      properties whose subcomponents are cs, in order. */
  function FreshCalendar(cs: seq<Component>): (r: Component)
    ensures !IsEvent(r) && r.name == VCALENDAR
    ensures r.props == map[] && r.subcomponents == cs
  {
    Component(VCALENDAR, map[], cs)
  }

  /** icalendar's walk(): the component itself, then the walk of each of its
      subcomponents in order (a pre-order traversal). */
  function Walk(c: Component): (r: seq<Component>)
    ensures |r| >= 1 && r[0] == c
    decreases c
  {
    [c] + WalkAll(c.subcomponents)
  }

  function WalkAll(cs: seq<Component>): seq<Component>
    decreases cs
  {
    if cs == [] then [] else Walk(cs[0]) + WalkAll(cs[1..])
  }
}

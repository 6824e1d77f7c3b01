/** The classification pass: walks the parsed feed, rewrites every event's
    summary and description, and groups the events by sport name while keeping
    every other component as a header. */
module Classifier {
  import opened Wrappers
  import opened Titles
  import opened Calendar

  /** An event the pass can rewrite: its SUMMARY and DESCRIPTION are present
      and are text. On any other event the script raises (calling split() on
      None, a missing key, or adding a str to a non-str). */
  predicate Retitlable(e: Component)
  {
    SUMMARY in e.props && e.props[SUMMARY].Text? && DESCRIPTION in e.props && e.props[DESCRIPTION].Text?
  }

  /** The category of an event: the sport name of its summary. */
  function SportName(e: Component): string
    requires Retitlable(e)
  {
    SportOf(e.props[SUMMARY].s)
  }

  /** The event as the pass leaves it: the summary becomes `name + " " +
      medals`, the description `medals + " " + description`. */
  function Retitle(e: Component): (r: Component)
    requires Retitlable(e)
    ensures r.name == e.name && r.subcomponents == e.subcomponents
    ensures r.props.Keys == e.props.Keys && Retitlable(r)
  {
    var summary, description := e.props[SUMMARY].s, e.props[DESCRIPTION].s;
    var name, medals := SportOf(summary), MedalsOf(summary);
    e.(props := e.props[DESCRIPTION := Text(medals + " " + description)][SUMMARY := Text(name + " " + medals)])
  }

  /** Every event of the walk can be rewritten, so the pass does not raise. */
  predicate PassSucceeds(walk: seq<Component>)
  {
    forall i :: 0 <= i < |walk| && IsEvent(walk[i]) ==> Retitlable(walk[i])
  }

  /** The components of the walk that are not events, unchanged and in walk
      order. */
  function Headers(walk: seq<Component>): seq<Component>
  {
    if walk == [] then []
    else
      var c := walk[|walk| - 1];
      Headers(walk[..|walk| - 1]) + if IsEvent(c) then [] else [c]
  }

  /** The rewritten events of the walk, in walk order. */
  function Events(walk: seq<Component>): seq<Component>
    requires PassSucceeds(walk)
  {
    if walk == [] then []
    else
      var c := walk[|walk| - 1];
      assert forall i :: 0 <= i < |walk| - 1 ==> walk[..|walk| - 1][i] == walk[i];
      Events(walk[..|walk| - 1]) + if IsEvent(c) then [Retitle(c)] else []
  }

  /** The rewritten events of the walk whose sport name is k, in walk order. */
  function Bucket(walk: seq<Component>, k: string): seq<Component>
    requires PassSucceeds(walk)
  {
    if walk == [] then []
    else
      var c := walk[|walk| - 1];
      assert forall i :: 0 <= i < |walk| - 1 ==> walk[..|walk| - 1][i] == walk[i];
      Bucket(walk[..|walk| - 1], k) + if IsEvent(c) && SportName(c) == k then [Retitle(c)] else []
  }

  /** The sport names of the walk's events, each once, in order of first
      appearance: the key order of the script's dictionary. */
  function Order(walk: seq<Component>): seq<string>
    requires PassSucceeds(walk)
  {
    if walk == [] then []
    else
      var c := walk[|walk| - 1];
      assert forall i :: 0 <= i < |walk| - 1 ==> walk[..|walk| - 1][i] == walk[i];
      var before := Order(walk[..|walk| - 1]);
      if IsEvent(c) && SportName(c) !in before then before + [SportName(c)] else before
  }

  datatype Classified = Classified(headers: seq<Component>, categories: Categories)

  /** What the pass produces: nothing when some event cannot be rewritten,
      otherwise the headers and the dictionary of buckets. */
  function Classification(walk: seq<Component>): Option<Classified>
  {
    if PassSucceeds(walk) then
      var order := Order(walk);
      Some(Classified(Headers(walk), Categories(order, Buckets(walk, order))))
    else None
  }

  /** The dictionary of buckets over the given keys. */
  function Buckets(walk: seq<Component>, keys: seq<string>): (m: map<string, seq<Component>>)
    requires PassSucceeds(walk)
    ensures forall k :: k in m <==> k in keys
  {
    map k | k in keys :: Bucket(walk, k)
  }

  /** The pass over the walked components: events are tokenized, rewritten and
      appended to the bucket of their sport name (created on first sight),
      everything else is appended to the headers. */
  method Classify(walk: seq<Component>) returns (r: Option<Classified>)
    ensures r == Classification(walk)
  {
    var headers: seq<Component> := [];
    var order: seq<string> := [];
    var events: map<string, seq<Component>> := map[];
    for i := 0 to |walk|
      invariant PassSucceeds(walk[..i])
      invariant headers == Headers(walk[..i])
      invariant order == Order(walk[..i])
      invariant forall k :: k in events <==> k in order
      invariant forall k :: k in events ==> events[k] == Bucket(walk[..i], k)
    {
      var c := walk[i];
      assert walk[..i + 1] == walk[..i] + [c];
      if c.name == VEVENT {
        if !(SUMMARY in c.props && c.props[SUMMARY].Text?) {
          assert !Retitlable(walk[i]);
          return None;
        }
        var name, medals := Tokenize(c.props[SUMMARY].s);
        if !(DESCRIPTION in c.props && c.props[DESCRIPTION].Text?) {
          assert !Retitlable(walk[i]);
          return None;
        }
        var e := c.(props := c.props[DESCRIPTION := Text(medals + " " + c.props[DESCRIPTION].s)]
                                    [SUMMARY := Text(name + " " + medals)]);
        assert e == Retitle(c);
        EventStep(walk[..i], c);
        if name !in events {
          BucketOutsideOrder(walk[..i], name);
          events := events[name := []];
          order := order + [name];
        }
        events := events[name := events[name] + [e]];
      } else {
        headers := headers + [c];
        HeaderStep(walk[..i], c);
      }
    }
    assert walk[..|walk|] == walk;
    assert events == Buckets(walk, order);
    r := Some(Classified(headers, Categories(order, events)));
  }

  /** One event more: its name is appended to the key order if new, and the
      rewritten event to the end of its bucket. */
  lemma EventStep(done: seq<Component>, c: Component)
    requires PassSucceeds(done) && IsEvent(c) && Retitlable(c)
    ensures PassSucceeds(done + [c])
    ensures Headers(done + [c]) == Headers(done)
    ensures Events(done + [c]) == Events(done) + [Retitle(c)]
    ensures Order(done + [c]) == Order(done) + if SportName(c) in Order(done) then [] else [SportName(c)]
    ensures forall k :: Bucket(done + [c], k) == Bucket(done, k) + if k == SportName(c) then [Retitle(c)] else []
  {
    var w := done + [c];
    assert w[..|w| - 1] == done;
  }

  /** One header more: it is appended to the headers, the buckets stay. */
  lemma HeaderStep(done: seq<Component>, c: Component)
    requires PassSucceeds(done) && !IsEvent(c)
    ensures PassSucceeds(done + [c])
    ensures Headers(done + [c]) == Headers(done) + [c]
    ensures Events(done + [c]) == Events(done)
    ensures Order(done + [c]) == Order(done)
    ensures forall k :: Bucket(done + [c], k) == Bucket(done, k)
  {
    var w := done + [c];
    assert w[..|w| - 1] == done;
  }

  /** A name that is not a key yet has an empty bucket. */
  lemma {:induction false} BucketOutsideOrder(walk: seq<Component>, k: string)
    requires PassSucceeds(walk)
    requires k !in Order(walk)
    ensures Bucket(walk, k) == []
  {
    if walk != [] {
      var init := walk[..|walk| - 1];
      assert forall i :: 0 <= i < |init| ==> init[i] == walk[i];
      BucketOutsideOrder(init, k);
    }
  }

  /** The rewrite touches only SUMMARY and DESCRIPTION: the summary becomes the
      sport name, a space and the medals, the description gains the medals and
      a space in front, and the event keeps its category. */
  lemma RetitleEffect(e: Component)
    requires Retitlable(e)
    ensures var r := Retitle(e);
      && Retitlable(r)
      && r.name == e.name && r.subcomponents == e.subcomponents
      && r.props.Keys == e.props.Keys
      && (forall k :: k in e.props && k != SUMMARY && k != DESCRIPTION ==> r.props[k] == e.props[k])
      && r.props[SUMMARY].s == SportName(e) + " " + MedalsOf(e.props[SUMMARY].s)
      && r.props[DESCRIPTION].s == MedalsOf(e.props[SUMMARY].s) + " " + e.props[DESCRIPTION].s
      && SportName(r) == SportName(e)
  {
    RetokenizeStable(e.props[SUMMARY].s);
  }

  /** Rewriting an event twice leaves the summary as the first rewrite made it,
      but puts the medals in front of the description a second time. */
  lemma RetitleTwice(e: Component)
    requires Retitlable(e)
    ensures Retitlable(Retitle(e))
    ensures Retitle(Retitle(e)).props[SUMMARY] == Retitle(e).props[SUMMARY]
    ensures var m := MedalsOf(e.props[SUMMARY].s);
      Retitle(Retitle(e)).props[DESCRIPTION].s == m + " " + m + " " + e.props[DESCRIPTION].s
  {
    RetitleEffect(e);
    RetokenizeStable(e.props[SUMMARY].s);
  }

  /** A key of the dictionary is exactly the sport name of some event of the
      walk. */
  lemma {:induction false} OrderNames(walk: seq<Component>, k: string)
    requires PassSucceeds(walk)
    ensures k in Order(walk) <==> exists i :: 0 <= i < |walk| && IsEvent(walk[i]) && SportName(walk[i]) == k
  {
    if walk != [] {
      var init, c := walk[..|walk| - 1], walk[|walk| - 1];
      assert walk == init + [c];
      OrderNames(init, k);
      if IsEvent(c) {
        EventStep(init, c);
      } else {
        HeaderStep(init, c);
      }
      if k in Order(walk) && k !in Order(init) {
        assert IsEvent(walk[|walk| - 1]) && SportName(walk[|walk| - 1]) == k;
      }
      if k in Order(init) {
        var i :| 0 <= i < |init| && IsEvent(init[i]) && SportName(init[i]) == k;
        assert walk[i] == init[i];
      }
    }
  }

  /** No sport name is a key twice. */
  lemma {:induction false} OrderDistinct(walk: seq<Component>)
    requires PassSucceeds(walk)
    ensures forall i, j :: 0 <= i < j < |Order(walk)| ==> Order(walk)[i] != Order(walk)[j]
  {
    if walk != [] {
      var init, c := walk[..|walk| - 1], walk[|walk| - 1];
      assert walk == init + [c];
      OrderDistinct(init);
      if IsEvent(c) {
        EventStep(init, c);
      } else {
        HeaderStep(init, c);
      }
    }
  }

  /** A successful pass yields a well-formed dictionary: distinct keys, one
      bucket per key, and a key for every event. */
  lemma ClassificationValid(walk: seq<Component>)
    requires Classification(walk).Some?
    ensures Classification(walk).value.categories.Valid()
    ensures forall i :: 0 <= i < |walk| && IsEvent(walk[i]) ==> SportName(walk[i]) in Classification(walk).value.categories.order
  {
    OrderDistinct(walk);
    forall i | 0 <= i < |walk| && IsEvent(walk[i])
      ensures SportName(walk[i]) in Order(walk)
    {
      OrderNames(walk, SportName(walk[i]));
    }
  }

  /** Every component of the walk goes to exactly one side: headers or events. */
  lemma {:induction false} HeadersAndEvents(walk: seq<Component>)
    requires PassSucceeds(walk)
    ensures |Headers(walk)| + |Events(walk)| == |walk|
    ensures forall i :: 0 <= i < |Headers(walk)| ==> !IsEvent(Headers(walk)[i]) && Headers(walk)[i] in walk
  {
    if walk != [] {
      var init := walk[..|walk| - 1];
      assert forall i :: 0 <= i < |init| ==> init[i] == walk[i];
      HeadersAndEvents(init);
    }
  }

  /** The events of `es` whose summary gives sport name k, in order. */
  function WithSport(es: seq<Component>, k: string): (r: seq<Component>)
    requires forall i :: 0 <= i < |es| ==> Retitlable(es[i])
    ensures |r| <= |es|
  {
    if es == [] then []
    else
      var e := es[|es| - 1];
      WithSport(es[..|es| - 1], k) + if SportName(e) == k then [e] else []
  }

  lemma {:induction false} EventsRetitlable(walk: seq<Component>)
    requires PassSucceeds(walk)
    ensures forall i :: 0 <= i < |Events(walk)| ==> Retitlable(Events(walk)[i]) && IsEvent(Events(walk)[i])
  {
    if walk != [] {
      var init, c := walk[..|walk| - 1], walk[|walk| - 1];
      assert walk == init + [c];
      EventsRetitlable(init);
      if IsEvent(c) {
        RetitleEffect(c);
      }
    }
  }

  lemma WithSportSnoc(es: seq<Component>, e: Component, k: string)
    requires forall i :: 0 <= i < |es| ==> Retitlable(es[i])
    requires Retitlable(e)
    ensures WithSport(es + [e], k) == WithSport(es, k) + if SportName(e) == k then [e] else []
  {
    assert (es + [e])[..|es|] == es;
  }

  /** A bucket holds exactly the rewritten events whose category is its key,
      in walk order: grouping loses and reorders nothing. */
  lemma {:induction false} BucketIsFilter(walk: seq<Component>, k: string)
    requires PassSucceeds(walk)
    ensures forall i :: 0 <= i < |Events(walk)| ==> Retitlable(Events(walk)[i])
    ensures Bucket(walk, k) == WithSport(Events(walk), k)
  {
    EventsRetitlable(walk);
    if walk != [] {
      var init, c := walk[..|walk| - 1], walk[|walk| - 1];
      assert walk == init + [c];
      BucketIsFilter(init, k);
      if IsEvent(c) {
        EventStep(init, c);
        RetitleEffect(c);
        WithSportSnoc(Events(init), Retitle(c), k);
      } else {
        HeaderStep(init, c);
      }
    }
  }

  /** The summed lengths of the buckets of keys. */
  function TotalSize(walk: seq<Component>, keys: seq<string>): nat
    requires PassSucceeds(walk)
  {
    if keys == [] then 0 else TotalSize(walk, keys[..|keys| - 1]) + |Bucket(walk, keys[|keys| - 1])|
  }

  /** One event more grows the total over distinct keys by one exactly when
      its name is among them. */
  lemma {:induction false} TotalSizeStep(done: seq<Component>, c: Component, keys: seq<string>)
    requires PassSucceeds(done) && IsEvent(c) && Retitlable(c)
    requires forall i, j :: 0 <= i < j < |keys| ==> keys[i] != keys[j]
    ensures PassSucceeds(done + [c])
    ensures TotalSize(done + [c], keys) == TotalSize(done, keys) + if SportName(c) in keys then 1 else 0
  {
    EventStep(done, c);
    if keys != [] {
      var init, last := keys[..|keys| - 1], keys[|keys| - 1];
      TotalSizeStep(done, c, init);
      LastKey(done, c, keys);
    }
  }

  /** The last of distinct keys: its bucket grows by one exactly when it is
      the event's name, and it is not among the keys before it. */
  lemma LastKey(done: seq<Component>, c: Component, keys: seq<string>)
    requires PassSucceeds(done) && IsEvent(c) && Retitlable(c) && keys != []
    requires forall i, j :: 0 <= i < j < |keys| ==> keys[i] != keys[j]
    ensures PassSucceeds(done + [c])
    ensures var init, last := keys[..|keys| - 1], keys[|keys| - 1];
      && TotalSize(done + [c], keys) == TotalSize(done + [c], init) + |Bucket(done + [c], last)|
      && TotalSize(done, keys) == TotalSize(done, init) + |Bucket(done, last)|
      && |Bucket(done + [c], last)| == |Bucket(done, last)| + (if last == SportName(c) then 1 else 0)
      && (SportName(c) in keys <==> SportName(c) in init || SportName(c) == last)
      && last !in init
  {
    EventStep(done, c);
    assert keys == keys[..|keys| - 1] + [keys[|keys| - 1]];
  }

  /** The buckets hold as many components as there are events in the walk:
      every event lands in exactly one bucket. */
  lemma {:induction false} BucketSizes(walk: seq<Component>)
    requires PassSucceeds(walk)
    ensures TotalSize(walk, Order(walk)) == |Events(walk)|
  {
    if walk != [] {
      var init, c := walk[..|walk| - 1], walk[|walk| - 1];
      assert walk == init + [c];
      BucketSizes(init);
      OrderDistinct(init);
      if IsEvent(c) {
        TotalSizeStep(init, c, Order(init));
        var n := SportName(c);
        if n !in Order(init) {
          BucketOutsideOrder(init, n);
          var o := Order(init) + [n];
          assert o[..|o| - 1] == Order(init);
        }
      } else {
        HeaderStep(init, c);
        TotalSizeHeader(init, c, Order(init));
      }
    }
  }

  lemma {:induction false} TotalSizeHeader(done: seq<Component>, c: Component, keys: seq<string>)
    requires PassSucceeds(done) && !IsEvent(c)
    ensures PassSucceeds(done + [c])
    ensures TotalSize(done + [c], keys) == TotalSize(done, keys)
  {
    HeaderStep(done, c);
    if keys != [] {
      TotalSizeHeader(done, c, keys[..|keys| - 1]);
    }
  }

  /** Each event of the walk, rewritten, is in the bucket of its own sport
      name, and every member of a bucket is a rewritten event of that name. */
  lemma EventInItsBucket(walk: seq<Component>, i: nat, k: string)
    requires PassSucceeds(walk) && i < |walk| && IsEvent(walk[i])
    ensures Retitle(walk[i]) in Bucket(walk, SportName(walk[i]))
    ensures forall j :: 0 <= j < |Bucket(walk, k)| ==>
              IsEvent(Bucket(walk, k)[j]) && Retitlable(Bucket(walk, k)[j]) && SportName(Bucket(walk, k)[j]) == k
  {
    BucketMember(walk, i);
    BucketIsFilter(walk, k);
    EventsRetitlable(walk);
    WithSportMembers(Events(walk), k);
  }

  lemma {:induction false} BucketMember(walk: seq<Component>, i: nat)
    requires PassSucceeds(walk) && i < |walk| && IsEvent(walk[i])
    ensures Retitle(walk[i]) in Bucket(walk, SportName(walk[i]))
  {
    var init, c := walk[..|walk| - 1], walk[|walk| - 1];
    assert walk == init + [c];
    if IsEvent(c) {
      EventStep(init, c);
    } else {
      HeaderStep(init, c);
    }
    if i < |init| {
      assert init[i] == walk[i];
      BucketMember(init, i);
    }
  }

  lemma {:induction false} WithSportMembers(es: seq<Component>, k: string)
    requires forall i :: 0 <= i < |es| ==> Retitlable(es[i])
    ensures forall j :: 0 <= j < |WithSport(es, k)| ==> WithSport(es, k)[j] in es && SportName(WithSport(es, k)[j]) == k
  {
    if es != [] {
      var init := es[..|es| - 1];
      WithSportMembers(init, k);
      assert forall j :: 0 <= j < |init| ==> init[j] in es;
    }
  }

  /** Each event of es is selected for sport k as often as es holds it when
      its sport name is k, and never otherwise. */
  lemma {:induction false} WithSportCounts(es: seq<Component>, k: string)
    requires forall i :: 0 <= i < |es| ==> Retitlable(es[i])
    ensures forall i :: 0 <= i < |es| ==>
              multiset(WithSport(es, k))[es[i]] == if SportName(es[i]) == k then multiset(es)[es[i]] else 0
    ensures forall e :: e !in es ==> multiset(WithSport(es, k))[e] == 0
  {
    if es != [] {
      var init, e := es[..|es| - 1], es[|es| - 1];
      assert es == init + [e];
      WithSportCounts(init, k);
      var added := if SportName(e) == k then [e] else [];
      assert WithSport(es, k) == WithSport(init, k) + added;
      var before, after := multiset(WithSport(init, k)), multiset(WithSport(es, k));
      assert after == before + multiset(added);
      assert multiset(es) == multiset(init) + multiset{e};
      forall i | 0 <= i < |es|
        ensures after[es[i]] == if SportName(es[i]) == k then multiset(es)[es[i]] else 0
      {
        var x := es[i];
        if x in init {
          var j :| 0 <= j < |init| && init[j] == x;
          assert before[x] == if SportName(x) == k then multiset(init)[x] else 0;
        } else {
          assert x == e && before[x] == 0 && multiset(init)[x] == 0;
        }
      }
    }
  }

  /** The lists of the given keys, concatenated in key order: the events of
      es grouped by sport name. */
  function ByKeys(es: seq<Component>, keys: seq<string>): seq<Component>
    requires forall i :: 0 <= i < |es| ==> Retitlable(es[i])
  {
    if keys == [] then [] else ByKeys(es, keys[..|keys| - 1]) + WithSport(es, keys[|keys| - 1])
  }

  /** Grouping by distinct keys holds each event whose sport name is a key as
      often as es does, and no other. */
  lemma {:induction false} ByKeysCounts(es: seq<Component>, keys: seq<string>)
    requires forall i :: 0 <= i < |es| ==> Retitlable(es[i])
    requires forall i, j :: 0 <= i < j < |keys| ==> keys[i] != keys[j]
    ensures forall i :: 0 <= i < |es| ==>
              multiset(ByKeys(es, keys))[es[i]] == if SportName(es[i]) in keys then multiset(es)[es[i]] else 0
    ensures forall e :: e !in es ==> multiset(ByKeys(es, keys))[e] == 0
  {
    if keys != [] {
      var init, last := keys[..|keys| - 1], keys[|keys| - 1];
      assert keys == init + [last];
      assert last !in init;
      ByKeysCounts(es, init);
      WithSportCounts(es, last);
      assert multiset(ByKeys(es, keys)) == multiset(ByKeys(es, init)) + multiset(WithSport(es, last));
    }
  }

  /** Every rewritten event of the walk has a sport name among the keys. */
  lemma {:induction false} EventsNamed(walk: seq<Component>)
    requires PassSucceeds(walk)
    ensures forall i :: 0 <= i < |Events(walk)| ==> Retitlable(Events(walk)[i]) && SportName(Events(walk)[i]) in Order(walk)
  {
    EventsRetitlable(walk);
    if walk != [] {
      var init, c := walk[..|walk| - 1], walk[|walk| - 1];
      assert walk == init + [c];
      EventsNamed(init);
      if IsEvent(c) {
        EventStep(init, c);
        RetitleEffect(c);
      } else {
        HeaderStep(init, c);
      }
    }
  }

  /** Grouping by distinct keys that name every event keeps each event
      exactly once. */
  lemma ByKeysKeepsAll(es: seq<Component>, keys: seq<string>)
    requires forall i :: 0 <= i < |es| ==> Retitlable(es[i]) && SportName(es[i]) in keys
    requires forall i, j :: 0 <= i < j < |keys| ==> keys[i] != keys[j]
    ensures multiset(ByKeys(es, keys)) == multiset(es)
  {
    ByKeysCounts(es, keys);
    forall e
      ensures multiset(ByKeys(es, keys))[e] == multiset(es)[e]
    {
      if e in es {
        var i :| 0 <= i < |es| && es[i] == e;
      }
    }
  }

  /** The events grouped in key order are the walk's events, each exactly
      once. */
  lemma GroupingKeepsEvents(walk: seq<Component>)
    requires PassSucceeds(walk)
    ensures forall i :: 0 <= i < |Events(walk)| ==> Retitlable(Events(walk)[i])
    ensures multiset(ByKeys(Events(walk), Order(walk))) == multiset(Events(walk))
    ensures |ByKeys(Events(walk), Order(walk))| == |Events(walk)|
  {
    EventsNamed(walk);
    OrderDistinct(walk);
    ByKeysKeepsAll(Events(walk), Order(walk));
    assert |multiset(ByKeys(Events(walk), Order(walk)))| == |multiset(Events(walk))|;
  }
}

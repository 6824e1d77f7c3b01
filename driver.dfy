/** The script's main body after the classification pass: option defaults,
    the listing of categories, the dump and full-calendar outputs, header
    sterilisation, the per-sport files and the merged files. File writes are
    recorded, in order, as (file name, content) pairs. */
module Driver {
  import opened Wrappers
  import opened Calendar
  import opened Classifier
  import opened Projection
  import opened Ordering
  import Strings

  /** The parsed command line: the six flags, the positional sport names, and
      how many command-line arguments were given. */
  datatype Options = Options(
    single: bool, ical: bool, json: bool, dump: bool, all: bool, merge: bool,
    sports: seq<string>, argCount: nat)

  /** With neither output format requested, ical is used. */
  function WithDefaultFormat(o: Options): (r: Options)
    ensures r.ical || r.json
    ensures r.json == o.json
    ensures r.ical <==> o.ical || !o.json
    ensures r.(ical := o.ical) == o
  {
    if !o.ical && !o.json then o.(ical := true) else o
  }

  /** Python's str.isalnum on the characters up to U+00FF: ASCII digits and
      letters, the Latin-1 letters, and the superscript digits and vulgar
      fractions that count as numeric. */
  predicate IsAlnum(c: char)
    ensures IsAlnum(c) ==> !Strings.IsSpace(c) && c != '.' && c != '/' && c != '\\'
  {
    ('0' <= c && c <= '9') || ('A' <= c && c <= 'Z') || ('a' <= c && c <= 'z')
    || c == '\U{AA}' || c == '\U{B2}' || c == '\U{B3}' || c == '\U{B5}' || c == '\U{B9}' || c == '\U{BA}'
    || ('\U{BC}' <= c && c <= '\U{BE}') || ('\U{C0}' <= c && c <= '\U{D6}')
    || ('\U{D8}' <= c && c <= '\U{F6}') || ('\U{F8}' <= c && c <= '\U{FF}')
  }

  /** The base file name for a category: its alphanumeric characters, in
      order. */
  function Filename(kind: string): (f: string)
    ensures |f| <= |kind|
    ensures forall i :: 0 <= i < |f| ==> IsAlnum(f[i])
  {
    if kind == [] then []
    else
      var init, last := kind[..|kind| - 1], kind[|kind| - 1];
      Filename(init) + if IsAlnum(last) then [last] else []
  }

  /** The file name keeps every alphanumeric character of the name as often
      as the name has it. */
  lemma {:induction false} FilenameCounts(kind: string)
    ensures forall c :: IsAlnum(c) ==> multiset(Filename(kind))[c] == multiset(kind)[c]
  {
    if kind != [] {
      var init, last := kind[..|kind| - 1], kind[|kind| - 1];
      FilenameCounts(init);
      FilenameSnoc(init, last);
      assert kind == init + [last];
      assert multiset(kind) == multiset(init) + multiset{last};
    }
  }

  lemma {:induction false} FilenameAppend(a: string, b: string)
    ensures Filename(a + b) == Filename(a) + Filename(b)
    decreases |b|
  {
    if b == [] {
      assert a + b == a;
    } else {
      var init := b[..|b| - 1];
      assert (a + b)[..|a + b| - 1] == a + init;
      FilenameAppend(a, init);
    }
  }

  /** A name made only of alphanumeric characters is its own file name. */
  lemma {:induction false} FilenameOfAlnum(kind: string)
    requires forall i :: 0 <= i < |kind| ==> IsAlnum(kind[i])
    ensures Filename(kind) == kind
  {
    if kind != [] {
      var init, last := kind[..|kind| - 1], kind[|kind| - 1];
      assert kind == init + [last];
      assert IsAlnum(last);
      FilenameOfAlnum(init);
      FilenameSnoc(init, last);
    }
  }

  lemma FilenameSnoc(s: string, c: char)
    ensures Filename(s + [c]) == Filename(s) + if IsAlnum(c) then [c] else []
  {
    assert (s + [c])[..|s|] == s;
  }

  /** Filtering a file name again changes nothing. */
  lemma FilenameIdempotent(kind: string)
    ensures Filename(Filename(kind)) == Filename(kind)
  {
    FilenameOfAlnum(Filename(kind));
  }

  /** The headers once their subcomponents are cleared. */
  function Sterile(headers: seq<Component>): (r: seq<Component>)
    ensures |r| == |headers|
    ensures forall i :: 0 <= i < |r| ==>
              r[i].subcomponents == [] && r[i].name == headers[i].name && r[i].props == headers[i].props
  {
    if headers == [] then []
    else Sterile(headers[..|headers| - 1]) + [headers[|headers| - 1].(subcomponents := [])]
  }

  /** Clears the subcomponents of every header, so that a header written to a
      file does not pull in the events nested below it. */
  method Sterilize(headers: seq<Component>) returns (r: seq<Component>)
    ensures r == Sterile(headers)
  {
    r := [];
    for i := 0 to |headers|
      invariant r == Sterile(headers[..i])
    {
      assert headers[..i + 1][..i] == headers[..i];
      r := r + [headers[i].(subcomponents := [])];
    }
    assert headers[..|headers|] == headers;
  }

  /** The sports to write: the requested names, or every category name in
      sorted order when none is requested. */
  function Selection(requested: seq<string>, order: seq<string>): (r: seq<string>)
    ensures requested != [] ==> r == requested
    ensures requested == [] ==> Sorted(r) && multiset(r) == multiset(order)
  {
    if requested == [] then Sort(order) else requested
  }

  /** The content of a written file: the fetched feed as is, a calendar
      serialised by icalendar, a JSON list, or a file opened for writing and
      left empty because the script raised before writing it. */
  datatype Output = Raw(bytes: seq<bv8>) | Ical(calendar: Component) | JsonList(items: seq<Json>) | Truncated

  /** The state of the output phase: the files written so far, the merged
      calendar's components, the merged JSON list, and whether the script has
      raised. */
  datatype Plan = Plan(writes: seq<(string, Output)>, calMerged: seq<Component>, jsonMerged: seq<Json>, crashed: bool)

  /** One requested sport: nothing for an unknown name; otherwise its JSON
      block (headers then events) for the single file and the merged list,
      then its events for the merged calendar and its own calendar file. */
  function Step(o: Options, headers: seq<Component>, buckets: map<string, seq<Component>>, p: Plan, kind: string): Plan
  {
    if p.crashed || kind !in buckets then p
    else
      var events := buckets[kind];
      var p1 :=
        if !o.json then p
        else
          match CleanAll(headers + events)
          case None => p.(crashed := true)
          case Some(obj) =>
            p.(writes := p.writes + (if o.single then [(Filename(kind) + ".json", JsonList(obj))] else []),
               jsonMerged := p.jsonMerged + if o.merge then obj else []);
      if p1.crashed || !o.ical then p1
      else
        p1.(calMerged := p1.calMerged + (if o.merge then events else []),
            writes := p1.writes + if o.single then [(Filename(kind) + ".ical", Ical(FreshCalendar(headers + events)))] else [])
  }

  /** The requested sports, one after the other. */
  function Emit(o: Options, headers: seq<Component>, buckets: map<string, seq<Component>>, p: Plan, kinds: seq<string>): Plan
  {
    if kinds == [] then p
    else Step(o, headers, buckets, Emit(o, headers, buckets, p, kinds[..|kinds| - 1]), kinds[|kinds| - 1])
  }

  /** The loop over the requested sports. */
  method EmitSelection(o: Options, headers: seq<Component>, buckets: map<string, seq<Component>>, p0: Plan, kinds: seq<string>)
    returns (p: Plan)
    requires !p0.crashed
    ensures p == Emit(o, headers, buckets, p0, kinds)
  {
    p := p0;
    for i := 0 to |kinds|
      invariant p == Emit(o, headers, buckets, p0, kinds[..i]) && !p.crashed
    {
      assert kinds[..i + 1][..i] == kinds[..i];
      p := EmitOne(o, headers, buckets, p, kinds[i]);
      if p.crashed {
        EmitCrashed(o, headers, buckets, p, kinds[i + 1..]);
        EmitAppend(o, headers, buckets, p0, kinds[..i + 1], kinds[i + 1..]);
        assert kinds[..i + 1] + kinds[i + 1..] == kinds;
        return;
      }
    }
    assert kinds[..|kinds|] == kinds;
  }

  /** The body of the loop over the requested sports, for one name. */
  method EmitOne(o: Options, headers: seq<Component>, buckets: map<string, seq<Component>>, p0: Plan, kind: string)
    returns (p: Plan)
    requires !p0.crashed
    ensures p == Step(o, headers, buckets, p0, kind)
  {
    var writes, calMerged, jsonMerged := p0.writes, p0.calMerged, p0.jsonMerged;
    var fname := Filename(kind);
    if kind in buckets {
      var events := buckets[kind];
      if o.json {
        var obj := ComposeCleanListOfObject(headers, Listed(events));
        assert headers + Flatten(Listed(events)) == headers + events;
        if obj.None? {
          return p0.(crashed := true);
        }
        if o.single {
          writes := writes + [(fname + ".json", JsonList(obj.value))];
        }
        if o.merge {
          jsonMerged := jsonMerged + obj.value;
        }
      }
      if o.ical {
        if o.merge {
          calMerged := calMerged + events;
        }
        if o.single {
          writes := writes + [(fname + ".ical", Ical(FreshCalendar(headers + events)))];
        }
      }
    }
    p := Plan(writes, calMerged, jsonMerged, false);
  }

  /** Once the script has raised, nothing more happens. */
  lemma {:induction false} EmitCrashed(o: Options, headers: seq<Component>, buckets: map<string, seq<Component>>, p: Plan, kinds: seq<string>)
    requires p.crashed
    ensures Emit(o, headers, buckets, p, kinds) == p
  {
    if kinds != [] {
      EmitCrashed(o, headers, buckets, p, kinds[..|kinds| - 1]);
    }
  }

  lemma {:induction false} EmitAppend(o: Options, headers: seq<Component>, buckets: map<string, seq<Component>>, p: Plan, a: seq<string>, b: seq<string>)
    ensures Emit(o, headers, buckets, p, a + b) == Emit(o, headers, buckets, Emit(o, headers, buckets, p, a), b)
    decreases |b|
  {
    if b == [] {
      assert a + b == a;
    } else {
      var init := b[..|b| - 1];
      assert (a + b)[..|a + b| - 1] == a + init;
      EmitAppend(o, headers, buckets, p, a, init);
    }
  }

  /** A requested name that is not a category produces nothing, and the names
      after it are processed as if it had not been requested. */
  lemma UnknownNameSkipped(o: Options, headers: seq<Component>, buckets: map<string, seq<Component>>, p: Plan,
                           a: seq<string>, kind: string, b: seq<string>)
    requires kind !in buckets
    ensures Emit(o, headers, buckets, p, a + [kind] + b) == Emit(o, headers, buckets, p, a + b)
  {
    EmitAppend(o, headers, buckets, p, a + [kind], b);
    EmitAppend(o, headers, buckets, p, a, [kind]);
    EmitAppend(o, headers, buckets, p, a, b);
    assert [kind][..0] == [];
  }

  /** The events of the found sports among kinds, concatenated in order. */
  function Found(buckets: map<string, seq<Component>>, kinds: seq<string>): seq<Component>
  {
    if kinds == [] then []
    else
      var k := kinds[|kinds| - 1];
      Found(buckets, kinds[..|kinds| - 1]) + if k in buckets then buckets[k] else []
  }

  /** For each found sport among kinds, the headers followed by its events. */
  function Blocks(headers: seq<Component>, buckets: map<string, seq<Component>>, kinds: seq<string>): seq<Component>
  {
    if kinds == [] then []
    else
      var k := kinds[|kinds| - 1];
      Blocks(headers, buckets, kinds[..|kinds| - 1]) + if k in buckets then headers + buckets[k] else []
  }

  /** One sport, when it does not raise: the merged calendar gains its
      events and the merged JSON its cleaned block, each only with --merge
      and the matching format. */
  lemma StepMerged(o: Options, headers: seq<Component>, buckets: map<string, seq<Component>>, p: Plan, kind: string)
    requires !Step(o, headers, buckets, p, kind).crashed
    ensures !p.crashed
    ensures Step(o, headers, buckets, p, kind).calMerged ==
              p.calMerged + if o.merge && o.ical && kind in buckets then buckets[kind] else []
    ensures o.json && kind in buckets ==> CleanAll(headers + buckets[kind]).Some?
    ensures Step(o, headers, buckets, p, kind).jsonMerged ==
              p.jsonMerged + if o.merge && o.json && kind in buckets then CleanAll(headers + buckets[kind]).value else []
  {
  }

  /** When the script does not raise, the merged calendar gains the events of
      each found sport in the order requested. */
  lemma {:induction false} MergedIcal(o: Options, headers: seq<Component>, buckets: map<string, seq<Component>>, p: Plan, kinds: seq<string>)
    requires !Emit(o, headers, buckets, p, kinds).crashed
    ensures Emit(o, headers, buckets, p, kinds).calMerged == p.calMerged + if o.merge && o.ical then Found(buckets, kinds) else []
  {
    if kinds != [] {
      var init, k := kinds[..|kinds| - 1], kinds[|kinds| - 1];
      var q := Emit(o, headers, buckets, p, init);
      StepMerged(o, headers, buckets, q, k);
      MergedIcal(o, headers, buckets, p, init);
    }
  }

  /** When the script does not raise, the merged JSON gains, for each found
      sport, the cleaned headers followed by its cleaned events. */
  lemma {:induction false} MergedJson(o: Options, headers: seq<Component>, buckets: map<string, seq<Component>>, p: Plan, kinds: seq<string>)
    requires !Emit(o, headers, buckets, p, kinds).crashed
    ensures o.json ==> CleanAll(Blocks(headers, buckets, kinds)).Some?
    ensures Emit(o, headers, buckets, p, kinds).jsonMerged ==
              p.jsonMerged + if o.merge && o.json then CleanAll(Blocks(headers, buckets, kinds)).value else []
  {
    if kinds != [] {
      var init, k := kinds[..|kinds| - 1], kinds[|kinds| - 1];
      var q := Emit(o, headers, buckets, p, init);
      StepMerged(o, headers, buckets, q, k);
      MergedJson(o, headers, buckets, p, init);
      BlocksStep(o, headers, buckets, init, k);
      assert kinds == init + [k];
      if o.merge && o.json {
        var x := CleanAll(Blocks(headers, buckets, init)).value;
        if k in buckets {
          var y := CleanAll(headers + buckets[k]).value;
          assert p.jsonMerged + x + y == p.jsonMerged + (x + y);
        } else {
          assert x + [] == x;
        }
      }
    }
  }

  /** One more name adds its headers-then-events block, cleaned, when it is
      found. */
  lemma BlocksStep(o: Options, headers: seq<Component>, buckets: map<string, seq<Component>>, init: seq<string>, k: string)
    requires o.json && k in buckets ==> CleanAll(headers + buckets[k]).Some?
    requires o.json ==> CleanAll(Blocks(headers, buckets, init)).Some?
    ensures o.json ==> CleanAll(Blocks(headers, buckets, init + [k])).Some?
    ensures o.json ==>
              (CleanAll(Blocks(headers, buckets, init + [k])).value ==
               CleanAll(Blocks(headers, buckets, init)).value + if k in buckets then CleanAll(headers + buckets[k]).value else [])
  {
    var kinds := init + [k];
    assert kinds[..|kinds| - 1] == init;
    var before := Blocks(headers, buckets, init);
    if k in buckets {
      assert Blocks(headers, buckets, kinds) == before + (headers + buckets[k]);
      CleanAllAppend(before, headers + buckets[k]);
    } else {
      assert Blocks(headers, buckets, kinds) == before + [] == before;
      if o.json {
        assert CleanAll(before).value + [] == CleanAll(before).value;
      }
    }
  }

  /** One sport only appends files, named after it, and only with --single. */
  lemma StepWrites(o: Options, headers: seq<Component>, buckets: map<string, seq<Component>>, p: Plan, kind: string)
    ensures p.writes <= Step(o, headers, buckets, p, kind).writes
    ensures !o.single ==> Step(o, headers, buckets, p, kind).writes == p.writes
    ensures forall i :: |p.writes| <= i < |Step(o, headers, buckets, p, kind).writes| ==>
              kind in buckets && !Step(o, headers, buckets, p, kind).writes[i].1.Raw? &&
              (Step(o, headers, buckets, p, kind).writes[i].0 == Filename(kind) + ".json" ||
               Step(o, headers, buckets, p, kind).writes[i].0 == Filename(kind) + ".ical")
  {
  }

  /** The file name was derived from a found sport among kinds. */
  predicate NamedAfter(name: string, kinds: seq<string>, buckets: map<string, seq<Component>>)
  {
    exists k :: k in kinds && k in buckets && (name == Filename(k) + ".json" || name == Filename(k) + ".ical")
  }

  /** Files written while processing the sports are named after found
      requested sports, and none is written without --single. */
  lemma {:induction false} SportFiles(o: Options, headers: seq<Component>, buckets: map<string, seq<Component>>, p: Plan, kinds: seq<string>)
    ensures p.writes <= Emit(o, headers, buckets, p, kinds).writes
    ensures !o.single ==> Emit(o, headers, buckets, p, kinds).writes == p.writes
    ensures forall i :: |p.writes| <= i < |Emit(o, headers, buckets, p, kinds).writes| ==>
              NamedAfter(Emit(o, headers, buckets, p, kinds).writes[i].0, kinds, buckets)
              && !Emit(o, headers, buckets, p, kinds).writes[i].1.Raw?
  {
    if kinds != [] {
      var init, k := kinds[..|kinds| - 1], kinds[|kinds| - 1];
      SportFiles(o, headers, buckets, p, init);
      var q := Emit(o, headers, buckets, p, init);
      var r := Emit(o, headers, buckets, p, kinds);
      assert r == Step(o, headers, buckets, q, k);
      StepWrites(o, headers, buckets, q, k);
      forall i | |p.writes| <= i < |r.writes|
        ensures NamedAfter(r.writes[i].0, kinds, buckets) && !r.writes[i].1.Raw?
      {
        if i < |q.writes| {
          assert r.writes[i] == q.writes[i];
          assert NamedAfter(q.writes[i].0, init, buckets);
          var k' :| k' in init && k' in buckets &&
                    (q.writes[i].0 == Filename(k') + ".json" || q.writes[i].0 == Filename(k') + ".ical");
          assert k' in kinds;
        } else {
          assert k in kinds;
        }
      }
    }
  }

  /** The files --single writes for one found sport: its JSON list (headers
      then events, cleaned) with --json, then its calendar with --ical. */
  function SportWrites(o: Options, headers: seq<Component>, events: seq<Component>, kind: string): seq<(string, Output)>
  {
    (if o.json && CleanAll(headers + events).Some? then [(Filename(kind) + ".json", JsonList(CleanAll(headers + events).value))] else [])
    + if o.ical then [(Filename(kind) + ".ical", Ical(FreshCalendar(headers + events)))] else []
  }

  /** The per-sport files of the found sports among kinds, in order. */
  function Files(o: Options, headers: seq<Component>, buckets: map<string, seq<Component>>, kinds: seq<string>): seq<(string, Output)>
  {
    if kinds == [] then []
    else
      var k := kinds[|kinds| - 1];
      Files(o, headers, buckets, kinds[..|kinds| - 1]) + if o.single && k in buckets then SportWrites(o, headers, buckets[k], k) else []
  }

  /** One sport that does not raise appends exactly its own files. */
  lemma StepFiles(o: Options, headers: seq<Component>, buckets: map<string, seq<Component>>, p: Plan, kind: string)
    requires !Step(o, headers, buckets, p, kind).crashed
    ensures Step(o, headers, buckets, p, kind).writes ==
              p.writes + if o.single && kind in buckets then SportWrites(o, headers, buckets[kind], kind) else []
  {
    StepMerged(o, headers, buckets, p, kind);
  }

  /** When the script does not raise, the loop over the sports writes exactly
      the per-sport files of the found sports, in the order requested, and
      every found sport's headers and events can be cleaned when JSON is
      requested. */
  lemma {:induction false} EmitFiles(o: Options, headers: seq<Component>, buckets: map<string, seq<Component>>, p: Plan, kinds: seq<string>)
    requires !Emit(o, headers, buckets, p, kinds).crashed
    ensures Emit(o, headers, buckets, p, kinds).writes == p.writes + Files(o, headers, buckets, kinds)
    ensures forall k :: k in kinds && k in buckets && o.json ==> CleanAll(headers + buckets[k]).Some?
  {
    if kinds != [] {
      var init, k := kinds[..|kinds| - 1], kinds[|kinds| - 1];
      assert kinds == init + [k];
      var q := Emit(o, headers, buckets, p, init);
      StepMerged(o, headers, buckets, q, k);
      StepFiles(o, headers, buckets, q, k);
      EmitFiles(o, headers, buckets, p, init);
    }
  }

  /** With --single and no exception, every found requested sport gets its
      JSON file holding its cleaned headers then events (with --json) and its
      calendar file holding the headers then its events (with --ical). */
  lemma {:induction false} SingleFiles(o: Options, headers: seq<Component>, buckets: map<string, seq<Component>>, p: Plan, kinds: seq<string>)
    requires o.single && !Emit(o, headers, buckets, p, kinds).crashed
    ensures forall k :: k in kinds && k in buckets && o.json ==> CleanAll(headers + buckets[k]).Some?
    ensures forall k :: k in kinds && k in buckets && o.json ==>
              (Filename(k) + ".json", JsonList(CleanAll(headers + buckets[k]).value)) in Emit(o, headers, buckets, p, kinds).writes
    ensures forall k :: k in kinds && k in buckets && o.ical ==>
              (Filename(k) + ".ical", Ical(FreshCalendar(headers + buckets[k]))) in Emit(o, headers, buckets, p, kinds).writes
  {
    EmitFiles(o, headers, buckets, p, kinds);
    if kinds != [] {
      var init, last := kinds[..|kinds| - 1], kinds[|kinds| - 1];
      assert kinds == init + [last];
      var q := Emit(o, headers, buckets, p, init);
      var r := Emit(o, headers, buckets, p, kinds);
      StepMerged(o, headers, buckets, q, last);
      StepFiles(o, headers, buckets, q, last);
      SingleFiles(o, headers, buckets, p, init);
      forall k | k in kinds && k in buckets
        ensures o.json ==> (Filename(k) + ".json", JsonList(CleanAll(headers + buckets[k]).value)) in r.writes
        ensures o.ical ==> (Filename(k) + ".ical", Ical(FreshCalendar(headers + buckets[k]))) in r.writes
      {
        if k != last {
          assert k in init;
        } else {
          var w := SportWrites(o, headers, buckets[k], k);
          assert r.writes == q.writes + w;
          if o.json {
            assert w[0] == (Filename(k) + ".json", JsonList(CleanAll(headers + buckets[k]).value));
          }
          if o.ical {
            assert w[|w| - 1] == (Filename(k) + ".ical", Ical(FreshCalendar(headers + buckets[k])));
          }
        }
      }
    }
  }

  /** The merged files, after all sports: merged.json, then merged.ical. */
  function Finish(o: Options, p: Plan): Plan
  {
    if p.crashed || !o.merge then p
    else
      p.(writes := p.writes + (if o.json then [("merged.json", JsonList(p.jsonMerged))] else [])
                            + (if o.ical then [("merged.ical", Ical(FreshCalendar(p.calMerged)))] else []))
  }

  /** The parsed calendar as the pass leaves it: every event in the tree has
      its summary and description rewritten, everything else is as parsed. */
  function RetitleTree(c: Component): (r: Component)
    ensures r.name == c.name && |r.subcomponents| == |c.subcomponents|
    ensures IsEvent(c) && Retitlable(c) ==> r.props == Retitle(c).props
    ensures !(IsEvent(c) && Retitlable(c)) ==> r.props == c.props
    decreases c
  {
    var top := if IsEvent(c) && Retitlable(c) then Retitle(c) else c;
    top.(subcomponents := RetitleAll(c.subcomponents))
  }

  function RetitleAll(cs: seq<Component>): (rs: seq<Component>)
    ensures |rs| == |cs|
    decreases cs
  {
    if cs == [] then [] else [RetitleTree(cs[0])] + RetitleAll(cs[1..])
  }

  /** dump.ical and the full-calendar outputs, written before the headers
      are sterilised; all.json is opened before its contents are computed. */
  function Prelude(o: Options, bytes: seq<bv8>, gcal: Component, cl: Classified): Plan
    requires forall k :: k in cl.categories.order ==> k in cl.categories.buckets
  {
    var dumped := if o.dump then [("dump.ical", Raw(bytes))] else [];
    if !o.all then Plan(dumped, [], [], false)
    else
      var full := dumped + if o.ical then [("all.ical", Ical(RetitleTree(gcal)))] else [];
      if !o.json then Plan(full, [], [], false)
      else
        match CleanAll(cl.headers + Chain(cl.categories.order, cl.categories.buckets))
        case None => Plan(full + [("all.json", Truncated)], [], [], true)
        case Some(obj) => Plan(full + [("all.json", JsonList(obj))], [], [], false)
  }

  /** With --merge, the merged calendar and the merged JSON start from the
      sterilised headers. */
  function Seed(o: Options, headers: seq<Component>, p: Plan): Plan
  {
    if p.crashed || !o.merge then p
    else
      match CleanAll(headers)
      case None => p.(crashed := true)
      case Some(js) => p.(calMerged := headers, jsonMerged := js)
  }

  /** Everything the script writes once the categories are known. */
  function Outputs(o: Options, bytes: seq<bv8>, gcal: Component, cl: Classified): Plan
    requires forall k :: k in cl.categories.order ==> k in cl.categories.buckets
  {
    var pre := Prelude(o, bytes, gcal, cl);
    var headers := Sterile(cl.headers);
    var kinds := Selection(o.sports, cl.categories.order);
    Finish(o, Emit(o, headers, cl.categories.buckets, Seed(o, headers, pre), kinds))
  }

  /** How a run ends: normally, with the usage message (no arguments), with
      exit status -1 (the feed could not be fetched), or by raising (the feed
      could not be parsed, an event lacks a text summary or description, or a
      calendar or event lacks a projected property). */
  datatype Outcome = Completed | UsageShown | FetchFailed | ParseFailed | Crashed

  /** The sorted category names the script prints, the files it writes in
      order, and how it ends. */
  datatype Run = Run(listing: seq<string>, writes: seq<(string, Output)>, outcome: Outcome)

  /** A whole run, given the fetched feed (None when the fetch failed) and
      the parser. */
  function Pipeline(options: Options, fetched: Option<seq<bv8>>, parse: seq<bv8> -> Option<Component>): Run
  {
    var o := WithDefaultFormat(options);
    match fetched
    case None => Run([], [], FetchFailed)
    case Some(bytes) =>
      match parse(bytes)
      case None => Run([], [], ParseFailed)
      case Some(gcal) =>
        match Classification(Walk(gcal))
        case None => Run([], [], Crashed)
        case Some(cl) =>
          ClassificationValid(Walk(gcal));
          var listing := Sort(cl.categories.order);
          if o.argCount == 0 then Run(listing, [], UsageShown)
          else
            var p := Outputs(o, bytes, gcal, cl);
            Run(listing, p.writes, if p.crashed then Crashed else Completed)
  }

  /** The script's main body. */
  method Distill(options: Options, fetched: Option<seq<bv8>>, parse: seq<bv8> -> Option<Component>) returns (run: Run)
    ensures run == Pipeline(options, fetched, parse)
  {
    var o := options;
    if !o.ical && !o.json {
      o := o.(ical := true);
    }
    if fetched.None? {
      return Run([], [], FetchFailed);
    }
    var bytes := fetched.value;
    var parsed := parse(bytes);
    if parsed.None? {
      return Run([], [], ParseFailed);
    }
    var gcal := parsed.value;
    var classified := Classify(Walk(gcal));
    if classified.None? {
      return Run([], [], Crashed);
    }
    ClassificationValid(Walk(gcal));
    var cl := classified.value;
    var listing := Sort(cl.categories.order);
    if o.argCount == 0 {
      return Run(listing, [], UsageShown);
    }
    run := WriteOutputs(o, bytes, gcal, cl, listing);
  }

  /** dump.ical, all.ical and all.json. */
  method WriteFull(o: Options, bytes: seq<bv8>, gcal: Component, cl: Classified) returns (p: Plan)
    requires forall k :: k in cl.categories.order ==> k in cl.categories.buckets
    ensures p == Prelude(o, bytes, gcal, cl)
  {
    var writes: seq<(string, Output)> := [];
    if o.dump {
      writes := writes + [("dump.ical", Raw(bytes))];
    }
    if o.all {
      if o.ical {
        writes := writes + [("all.ical", Ical(RetitleTree(gcal)))];
      }
      if o.json {
        var obj := ComposeCleanListOfObject(cl.headers, Grouped(cl.categories.order, cl.categories.buckets));
        if obj.None? {
          return Plan(writes + [("all.json", Truncated)], [], [], true);
        }
        writes := writes + [("all.json", JsonList(obj.value))];
      }
    }
    p := Plan(writes, [], [], false);
  }

  /** The output phase of the main body, from the dump to the merged files. */
  method WriteOutputs(o: Options, bytes: seq<bv8>, gcal: Component, cl: Classified, listing: seq<string>) returns (run: Run)
    requires forall k :: k in cl.categories.order ==> k in cl.categories.buckets
    ensures var p := Outputs(o, bytes, gcal, cl);
      run == Run(listing, p.writes, if p.crashed then Crashed else Completed)
  {
    var pre := WriteFull(o, bytes, gcal, cl);
    var headers := Sterilize(cl.headers);
    var kinds := if |o.sports| == 0 then Sort(cl.categories.order) else o.sports;
    assert kinds == Selection(o.sports, cl.categories.order);
    var p;
    if pre.crashed {
      EmitCrashed(o, headers, cl.categories.buckets, pre, kinds);
      p := pre;
    } else {
      p := WriteSelection(o, headers, cl.categories.buckets, kinds, pre);
    }
    run := Run(listing, p.writes, if p.crashed then Crashed else Completed);
  }

  /** The merge seeding, the loop over the requested sports, and the merged
      files. */
  method WriteSelection(o: Options, headers: seq<Component>, buckets: map<string, seq<Component>>, kinds: seq<string>, pre: Plan)
    returns (p: Plan)
    requires !pre.crashed
    ensures p == Finish(o, Emit(o, headers, buckets, Seed(o, headers, pre), kinds))
  {
    var calMerged: seq<Component> := pre.calMerged;
    var jsonMerged: seq<Json> := pre.jsonMerged;
    if o.merge {
      calMerged := headers;
      var js := AppendClean([], [], headers);
      assert [] + headers == headers;
      if js.None? {
        EmitCrashed(o, headers, buckets, pre.(crashed := true), kinds);
        return pre.(crashed := true);
      }
      jsonMerged := js.value;
    }
    p := EmitSelection(o, headers, buckets, Plan(pre.writes, calMerged, jsonMerged, false), kinds);
    if p.crashed {
      return;
    }
    var writes := p.writes;
    if o.merge {
      if o.json {
        writes := writes + [("merged.json", JsonList(p.jsonMerged))];
      }
      if o.ical {
        writes := writes + [("merged.ical", Ical(FreshCalendar(p.calMerged)))];
      }
    }
    p := p.(writes := writes);
  }

  /** The merged files of a run that does not raise: merged.ical holds the
      sterilised headers followed by the events of each found sport in the
      order requested; merged.json holds the cleaned headers followed, for
      each found sport, by its cleaned headers-then-events block. */
  lemma MergedFiles(o: Options, bytes: seq<bv8>, gcal: Component, cl: Classified)
    requires forall k :: k in cl.categories.order ==> k in cl.categories.buckets
    requires o.merge && !Outputs(o, bytes, gcal, cl).crashed
    ensures var headers, kinds := Sterile(cl.headers), Selection(o.sports, cl.categories.order);
      var writes := Outputs(o, bytes, gcal, cl).writes;
      && (o.ical ==> writes[|writes| - 1] == ("merged.ical", Ical(FreshCalendar(headers + Found(cl.categories.buckets, kinds)))))
      && (o.json ==> CleanAll(headers + Blocks(headers, cl.categories.buckets, kinds)).Some?
                     && ("merged.json", JsonList(CleanAll(headers + Blocks(headers, cl.categories.buckets, kinds)).value)) in writes)
  {
    var headers, kinds := Sterile(cl.headers), Selection(o.sports, cl.categories.order);
    var buckets := cl.categories.buckets;
    var seed := Seed(o, headers, Prelude(o, bytes, gcal, cl));
    var p := Emit(o, headers, buckets, seed, kinds);
    assert !p.crashed;
    if seed.crashed {
      EmitCrashed(o, headers, buckets, seed, kinds);
    }
    MergedIcal(o, headers, buckets, seed, kinds);
    MergedJson(o, headers, buckets, seed, kinds);
    CleanAllAppend(headers, Blocks(headers, buckets, kinds));
  }

  /** The lists of the dictionary, taken in key order, are the events of the
      walk grouped by sport name. */
  lemma {:induction false} ChainOfBuckets(walk: seq<Component>, keys: seq<string>, m: map<string, seq<Component>>)
    requires PassSucceeds(walk)
    requires forall k :: k in keys ==> k in m && m[k] == Bucket(walk, k)
    ensures forall i :: 0 <= i < |Events(walk)| ==> Retitlable(Events(walk)[i])
    ensures Chain(keys, m) == ByKeys(Events(walk), keys)
  {
    EventsRetitlable(walk);
    if keys != [] {
      var init, last := keys[..|keys| - 1], keys[|keys| - 1];
      ChainOfBuckets(walk, init, m);
      BucketIsFilter(walk, last);
    }
  }

  /** Everything written after dump.ical, all.ical and all.json comes after
      them and is never the raw feed; once all.json has raised, nothing more
      is written. */
  lemma OutputsExtendPrelude(o: Options, bytes: seq<bv8>, gcal: Component, cl: Classified)
    requires forall k :: k in cl.categories.order ==> k in cl.categories.buckets
    ensures Prelude(o, bytes, gcal, cl).writes <= Outputs(o, bytes, gcal, cl).writes
    ensures forall i :: |Prelude(o, bytes, gcal, cl).writes| <= i < |Outputs(o, bytes, gcal, cl).writes| ==>
              !Outputs(o, bytes, gcal, cl).writes[i].1.Raw?
    ensures Prelude(o, bytes, gcal, cl).crashed ==> Outputs(o, bytes, gcal, cl) == Prelude(o, bytes, gcal, cl)
  {
    var pre := Prelude(o, bytes, gcal, cl);
    var headers, kinds := Sterile(cl.headers), Selection(o.sports, cl.categories.order);
    var seed := Seed(o, headers, pre);
    SportFiles(o, headers, cl.categories.buckets, seed, kinds);
    if seed.crashed {
      EmitCrashed(o, headers, cl.categories.buckets, seed, kinds);
    }
  }

  /** dump.ical, with the fetched bytes, is the first file written exactly
      when --dump is given. */
  lemma DumpFirst(o: Options, bytes: seq<bv8>, gcal: Component, cl: Classified)
    requires forall k :: k in cl.categories.order ==> k in cl.categories.buckets
    ensures var w := Outputs(o, bytes, gcal, cl).writes;
      o.dump <==> w != [] && w[0] == ("dump.ical", Raw(bytes))
  {
    OutputsExtendPrelude(o, bytes, gcal, cl);
    var pre := Prelude(o, bytes, gcal, cl);
    var w := Outputs(o, bytes, gcal, cl).writes;
    if !o.dump && w != [] {
      if pre.writes != [] {
        assert w[0] == pre.writes[0];
      }
      assert !w[0].1.Raw?;
    }
  }

  /** all.ical holds the rewritten calendar; all.json holds the cleaned
      headers and lists, or stays empty and ends the run when cleaning
      raises. */
  lemma AllFiles(o: Options, bytes: seq<bv8>, gcal: Component, cl: Classified)
    requires forall k :: k in cl.categories.order ==> k in cl.categories.buckets
    ensures o.all && o.ical ==> ("all.ical", Ical(RetitleTree(gcal))) in Outputs(o, bytes, gcal, cl).writes
    ensures var w, all := Outputs(o, bytes, gcal, cl).writes, cl.headers + Chain(cl.categories.order, cl.categories.buckets);
      && (o.all && o.json && CleanAll(all).Some? ==> ("all.json", JsonList(CleanAll(all).value)) in w)
      && (o.all && o.json && CleanAll(all).None? ==>
            Outputs(o, bytes, gcal, cl).crashed && w != [] && w[|w| - 1] == ("all.json", Truncated))
  {
    OutputsExtendPrelude(o, bytes, gcal, cl);
    var pre := Prelude(o, bytes, gcal, cl);
    var w := Outputs(o, bytes, gcal, cl).writes;
    if o.all && o.ical {
      assert ("all.ical", Ical(RetitleTree(gcal))) in pre.writes;
    }
    if o.all && o.json && !pre.crashed {
      assert pre.writes[|pre.writes| - 1] in pre.writes;
    }
  }

  /** The outputs written before the per-sport files: dump.ical holds the
      fetched bytes and is the first file exactly when --dump is given;
      all.ical, with --all and --ical, holds the parsed calendar with every
      event rewritten; all.json, with --all and --json, holds the cleaned
      headers followed by every event of the feed exactly once, grouped by
      sport in key order, or stays empty and ends the run when cleaning
      raises. */
  lemma FullFiles(o: Options, bytes: seq<bv8>, gcal: Component, cl: Classified)
    requires Classification(Walk(gcal)) == Some(cl)
    ensures PassSucceeds(Walk(gcal)) && cl.categories.order == Order(Walk(gcal))
    ensures forall k :: k in cl.categories.order ==> k in cl.categories.buckets
    ensures forall i :: 0 <= i < |Events(Walk(gcal))| ==> Retitlable(Events(Walk(gcal))[i])
    ensures multiset(ByKeys(Events(Walk(gcal)), cl.categories.order)) == multiset(Events(Walk(gcal)))
    ensures var w := Outputs(o, bytes, gcal, cl).writes;
      o.dump <==> w != [] && w[0] == ("dump.ical", Raw(bytes))
    ensures o.all && o.ical ==> ("all.ical", Ical(RetitleTree(gcal))) in Outputs(o, bytes, gcal, cl).writes
    ensures var w, all := Outputs(o, bytes, gcal, cl).writes, cl.headers + ByKeys(Events(Walk(gcal)), cl.categories.order);
      && (o.all && o.json && CleanAll(all).Some? ==> ("all.json", JsonList(CleanAll(all).value)) in w)
      && (o.all && o.json && CleanAll(all).None? ==>
            Outputs(o, bytes, gcal, cl).crashed && w != [] && w[|w| - 1] == ("all.json", Truncated))
  {
    var walk := Walk(gcal);
    var order := Order(walk);
    GroupingKeepsEvents(walk);
    ChainOfBuckets(walk, order, Buckets(walk, order));
    DumpFirst(o, bytes, gcal, cl);
    AllFiles(o, bytes, gcal, cl);
  }
}

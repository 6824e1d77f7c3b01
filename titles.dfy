/** The title tokenizer: splits an event title into the sport name and the
    medal glyphs that decorate it. */
module Titles {
  import opened Strings

  /* The three medal prefixes as the script spells them: the UTF-8 bytes of the
     gold, silver and bronze medal emoji read as cp1252 text. */
  const Gold: string := "\U{F0}\U{178}\U{A5}\U{2021}"
  const Silver: string := "\U{F0}\U{178}\U{A5}\U{2C6}"
  const Bronze: string := "\U{F0}\U{178}\U{A5}\U{2030}"

  /** The token starts with one of the three medal prefixes. */
  predicate IsMedal(t: string)
    ensures IsMedal(t) ==> |t| >= 4 && t[..3] == "\U{F0}\U{178}\U{A5}" && !IsSpace(t[0])
  {
    Gold <= t || Silver <= t || Bronze <= t
  }

  /** The tokens whose medal-ness is `medal`, in their original order. */
  function Pick(ws: seq<string>, medal: bool): (r: seq<string>)
    ensures |r| <= |ws|
    ensures forall i :: 0 <= i < |r| ==> IsMedal(r[i]) == medal && r[i] in ws
  {
    if ws == [] then []
    else Pick(ws[..|ws| - 1], medal) + (if IsMedal(ws[|ws| - 1]) == medal then [ws[|ws| - 1]] else [])
  }

  /** The sport name of a title: its non-medal tokens joined by single spaces. */
  function SportOf(title: string): string
  {
    JoinSpace(Pick(Words(title), false))
  }

  /** The medals of a title: its medal tokens concatenated with no separator. */
  function MedalsOf(title: string): string
  {
    Concat(Pick(Words(title), true))
  }

  /** Tokenize: walks the tokens of the title once, appending each medal token
      to `medals` and each other token, followed by a space, to the sport name;
      both are stripped at the end. */
  method Tokenize(title: string) returns (name: string, medals: string)
    ensures name == SportOf(title)
    ensures medals == MedalsOf(title)
  {
    var tokens := Words(title);
    var sportname := "";
    medals := "";
    for i := 0 to |tokens|
      invariant sportname == Spaced(Pick(tokens[..i], false))
      invariant medals == Concat(Pick(tokens[..i], true))
    {
      var t := tokens[i];
      AccumulateStep(tokens, i);
      if IsMedal(t) {
        medals := medals + t;
      } else {
        sportname := sportname + t + " ";
      }
    }
    assert tokens[..|tokens|] == tokens;
    StripAccumulators(tokens);
    name := Strip(sportname);
    medals := Strip(medals);
  }

  /** Appending one token extends exactly one of the two picks, and the
      accumulators built from them by one step. */
  lemma PickSnoc(ws: seq<string>, t: string)
    ensures IsMedal(t) ==>
              && Pick(ws + [t], true) == Pick(ws, true) + [t]
              && Pick(ws + [t], false) == Pick(ws, false)
              && Concat(Pick(ws + [t], true)) == Concat(Pick(ws, true)) + t
    ensures !IsMedal(t) ==>
              && Pick(ws + [t], false) == Pick(ws, false) + [t]
              && Pick(ws + [t], true) == Pick(ws, true)
              && Spaced(Pick(ws + [t], false)) == Spaced(Pick(ws, false)) + t + " "
  {
    assert (ws + [t])[..|ws|] == ws;
    var m, s := Pick(ws, true), Pick(ws, false);
    assert (m + [t])[..|m|] == m;
    assert (s + [t])[..|s|] == s;
  }

  /** One iteration of the tokenizer loop, on the prefixes of the token list. */
  lemma AccumulateStep(tokens: seq<string>, i: nat)
    requires i < |tokens|
    ensures IsMedal(tokens[i]) ==>
              && Concat(Pick(tokens[..i + 1], true)) == Concat(Pick(tokens[..i], true)) + tokens[i]
              && Spaced(Pick(tokens[..i + 1], false)) == Spaced(Pick(tokens[..i], false))
    ensures !IsMedal(tokens[i]) ==>
              && Concat(Pick(tokens[..i + 1], true)) == Concat(Pick(tokens[..i], true))
              && Spaced(Pick(tokens[..i + 1], false)) == Spaced(Pick(tokens[..i], false)) + tokens[i] + " "
  {
    assert tokens[..i + 1] == tokens[..i] + [tokens[i]];
    PickSnoc(tokens[..i], tokens[i]);
  }

  /** Stripping the two accumulators at the end of the loop gives the sport name
      and the medals. */
  lemma StripAccumulators(tokens: seq<string>)
    requires AllWords(tokens)
    ensures Strip(Spaced(Pick(tokens, false))) == JoinSpace(Pick(tokens, false))
    ensures Strip(Concat(Pick(tokens, true))) == Concat(Pick(tokens, true))
  {
    var sports := Pick(tokens, false);
    PickWords(tokens, false);
    PickWords(tokens, true);
    JoinTrimmed(sports);
    if sports != [] {
      SpacedIsJoinPlusSpace(sports);
    }
    StripOfTrimmed(JoinSpace(sports));
    ConcatOfWords(Pick(tokens, true));
    NoSpaceTrimmed(Concat(Pick(tokens, true)));
    StripOfTrimmed(Concat(Pick(tokens, true)));
  }

  lemma PickWords(ws: seq<string>, medal: bool)
    requires AllWords(ws)
    ensures AllWords(Pick(ws, medal))
  {
  }

  lemma NoSpaceTrimmed(s: string)
    requires NoSpace(s)
    ensures Trimmed(s)
  {
  }

  lemma {:induction false} PickAppend(a: seq<string>, b: seq<string>, medal: bool)
    ensures Pick(a + b, medal) == Pick(a, medal) + Pick(b, medal)
    decreases |b|
  {
    if b == [] {
      assert a + b == a;
    } else {
      var init := b[..|b| - 1];
      assert (a + b)[..|a + b| - 1] == a + init;
      PickAppend(a, init, medal);
    }
  }

  /** Picking from tokens that are all of one kind keeps all or none of them. */
  lemma {:induction false} PickUniform(ws: seq<string>, medal: bool)
    requires forall i :: 0 <= i < |ws| ==> IsMedal(ws[i]) == medal
    ensures Pick(ws, medal) == ws
    ensures Pick(ws, !medal) == []
  {
    if ws != [] {
      PickUniform(ws[..|ws| - 1], medal);
    }
  }

  /** Pick(ws, m) is non-empty exactly when some token has medal-ness m. */
  lemma {:induction false} PickNonEmpty(ws: seq<string>, medal: bool)
    ensures Pick(ws, medal) != [] <==> exists i :: 0 <= i < |ws| && IsMedal(ws[i]) == medal
  {
    if ws != [] {
      var init, last := ws[..|ws| - 1], ws[|ws| - 1];
      PickNonEmpty(init, medal);
      if Pick(ws, medal) != [] {
        var r := Pick(ws, medal);
        assert r[0] in ws && IsMedal(r[0]) == medal;
      }
    }
  }

  /** The sport name is made of exactly the non-medal tokens of the title, in
      their original order, has no leading or trailing whitespace, and is empty
      exactly when every token is a medal. */
  lemma SportNameTokens(title: string)
    ensures Words(SportOf(title)) == Pick(Words(title), false)
    ensures Trimmed(SportOf(title))
    ensures SportOf(title) != "" <==> exists i :: 0 <= i < |Words(title)| && !IsMedal(Words(title)[i])
  {
    var ws := Words(title);
    PickWords(ws, false);
    WordsOfJoin(Pick(ws, false));
    JoinTrimmed(Pick(ws, false));
    PickNonEmpty(ws, false);
  }

  /** The medals string holds no whitespace and is empty exactly when no token
      starts with a medal prefix; when it is not empty it is itself a medal
      token. */
  lemma MedalsShape(title: string)
    ensures NoSpace(MedalsOf(title))
    ensures MedalsOf(title) != "" ==> exists i :: 0 <= i < |Words(title)| && IsMedal(Words(title)[i])
    ensures (exists i :: 0 <= i < |Words(title)| && IsMedal(Words(title)[i])) ==> MedalsOf(title) != ""
    ensures MedalsOf(title) != "" ==> IsWord(MedalsOf(title)) && IsMedal(MedalsOf(title))
  {
    var ws := Words(title);
    var ms := Pick(ws, true);
    PickWords(ws, true);
    ConcatOfWords(ms);
    PickNonEmpty(ws, true);
    assert MedalsOf(title) == Concat(ms);
    if ms != [] {
      ConcatOfMedals(ms);
      var i :| 0 <= i < |ws| && ws[i] == ms[0];
      assert IsMedal(ws[i]);
      assert exists j :: 0 <= j < |ws| && IsMedal(ws[j]);
      assert MedalsOf(title) != "";
    }
  }

  lemma PrefixOfAppend(p: string, a: string, b: string)
    requires p <= a
    ensures p <= a + b
  {
    assert (a + b)[..|p|] == a[..|p|];
  }

  lemma {:induction false} ConcatOfMedals(ms: seq<string>)
    requires ms != []
    requires forall i :: 0 <= i < |ms| ==> IsMedal(ms[i])
    ensures IsMedal(Concat(ms))
  {
    var init, last := ms[..|ms| - 1], ms[|ms| - 1];
    assert Concat(ms) == Concat(init) + last;
    if init == [] {
      assert Concat(ms) == last;
    } else {
      ConcatOfMedals(init);
      var c := Concat(init);
      if Gold <= c {
        PrefixOfAppend(Gold, c, last);
      } else if Silver <= c {
        PrefixOfAppend(Silver, c, last);
      } else {
        PrefixOfAppend(Bronze, c, last);
      }
    }
  }

  /** The concatenated medals re-split into one medal token, or none. */
  lemma ResplitMedals(ms: seq<string>)
    requires AllWords(ms)
    requires forall i :: 0 <= i < |ms| ==> IsMedal(ms[i])
    ensures Pick(Words(Concat(ms)), false) == []
    ensures Concat(Pick(Words(Concat(ms)), true)) == Concat(ms)
  {
    ConcatOfWords(ms);
    if ms != [] {
      ConcatOfMedals(ms);
      WordsOfWord(Concat(ms));
      PickSingleMedal(Concat(ms));
    }
  }

  lemma PickSingleMedal(medals: string)
    requires IsMedal(medals)
    ensures Pick([medals], false) == []
    ensures Concat(Pick([medals], true)) == medals
  {
    PickUniform([medals], true);
    assert Concat([medals]) == Concat([]) + medals;
  }

  /** Splitting `" ".join(sports) + " " + "".join(ms)` again separates the
      same sport words and medals. */
  lemma RejoinSplits(sports: seq<string>, ms: seq<string>)
    requires AllWords(sports) && AllWords(ms)
    requires forall i :: 0 <= i < |sports| ==> !IsMedal(sports[i])
    requires forall i :: 0 <= i < |ms| ==> IsMedal(ms[i])
    ensures Pick(Words(JoinSpace(sports) + " " + Concat(ms)), false) == sports
    ensures Concat(Pick(Words(JoinSpace(sports) + " " + Concat(ms)), true)) == Concat(ms)
  {
    var name, medals := JoinSpace(sports), Concat(ms);
    var tail := Words(medals);
    assert Words(name + " " + medals) == sports + tail by {
      assert name + " " + medals == name + [' '] + medals;
      WordsAroundSpace(name, ' ', medals);
      WordsOfJoin(sports);
    }
    assert Pick(tail, false) == [] && Concat(Pick(tail, true)) == medals by {
      ResplitMedals(ms);
    }
    assert Pick(sports + tail, false) == sports by {
      PickAppend(sports, tail, false);
      PickUniform(sports, false);
    }
    assert Pick(sports + tail, true) == Pick(tail, true) by {
      PickAppend(sports, tail, true);
      PickUniform(sports, false);
    }
  }

  /** Re-tokenizing a rewritten summary `name + " " + medals` gives back the
      same name and medals: the summary rewrite is stable under a second pass. */
  lemma RetokenizeStable(title: string)
    ensures SportOf(SportOf(title) + " " + MedalsOf(title)) == SportOf(title)
    ensures MedalsOf(SportOf(title) + " " + MedalsOf(title)) == MedalsOf(title)
  {
    var ws := Words(title);
    PickWords(ws, false);
    PickWords(ws, true);
    RejoinSplits(Pick(ws, false), Pick(ws, true));
  }
}

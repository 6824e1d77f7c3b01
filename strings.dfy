/** Python's whitespace handling on str, as the title tokenizer uses it:
    str.split() with no argument, " ".join, "".join and str.strip(). */
module Strings {

  /** Python's str.isspace: the characters that str.split() and str.strip()
      treat as whitespace. */
  predicate IsSpace(c: char)
  {
    ('\t' <= c && c <= '\r') || ('\U{1C}' <= c && c <= ' ') || c == '\U{85}' || c == '\U{A0}'
    || c == '\U{1680}' || ('\U{2000}' <= c && c <= '\U{200A}') || c == '\U{2028}' || c == '\U{2029}'
    || c == '\U{202F}' || c == '\U{205F}' || c == '\U{3000}'
  }

  predicate NoSpace(s: string)
  {
    forall i :: 0 <= i < |s| ==> !IsSpace(s[i])
  }

  /** A token str.split() can produce: non-empty, without whitespace. */
  predicate IsWord(w: string)
  {
    w != [] && NoSpace(w)
  }

  predicate AllWords(ws: seq<string>)
  {
    forall i :: 0 <= i < |ws| ==> IsWord(ws[i])
  }

  /** Neither starts nor ends with whitespace. */
  predicate Trimmed(s: string)
  {
    s == [] || (!IsSpace(s[0]) && !IsSpace(s[|s| - 1]))
  }

  /** Length of the run of non-whitespace characters that starts s. */
  function WordLen(s: string): (n: nat)
    ensures n <= |s|
    ensures forall i :: 0 <= i < n ==> !IsSpace(s[i])
    ensures n < |s| ==> IsSpace(s[n])
  {
    if s == [] || IsSpace(s[0]) then 0 else 1 + WordLen(s[1..])
  }

  /** str.split(): the maximal runs of non-whitespace characters, in order. */
  function Words(s: string): (ws: seq<string>)
    ensures AllWords(ws)
    decreases |s|
  {
    if s == [] then []
    else if IsSpace(s[0]) then Words(s[1..])
    else
      var n := WordLen(s);
      [s[..n]] + Words(s[n..])
  }

  /** " ".join(ws) */
  function JoinSpace(ws: seq<string>): string
  {
    if ws == [] then ""
    else if |ws| == 1 then ws[0]
    else JoinSpace(ws[..|ws| - 1]) + " " + ws[|ws| - 1]
  }

  /** Every word followed by one space: what `acc += t + " "` builds. */
  function Spaced(ws: seq<string>): string
  {
    if ws == [] then "" else Spaced(ws[..|ws| - 1]) + ws[|ws| - 1] + " "
  }

  /** "".join(ws) */
  function Concat(ws: seq<string>): string
  {
    if ws == [] then "" else Concat(ws[..|ws| - 1]) + ws[|ws| - 1]
  }

  /** str.lstrip() */
  function TrimStart(s: string): (r: string)
    ensures |r| <= |s| && r == s[|s| - |r|..]
    ensures r == [] || !IsSpace(r[0])
    ensures forall i :: 0 <= i < |s| - |r| ==> IsSpace(s[i])
  {
    if s != [] && IsSpace(s[0]) then TrimStart(s[1..]) else s
  }

  /** str.rstrip() */
  function TrimEnd(s: string): (r: string)
    ensures r <= s
    ensures r == [] || !IsSpace(r[|r| - 1])
    ensures forall i :: |r| <= i < |s| ==> IsSpace(s[i])
  {
    if s != [] && IsSpace(s[|s| - 1]) then TrimEnd(s[..|s| - 1]) else s
  }

  /** str.strip() */
  function Strip(s: string): (r: string)
    ensures Trimmed(r)
  {
    TrimStart(TrimEnd(s))
  }

  lemma StripOfTrimmed(s: string)
    requires Trimmed(s)
    ensures Strip(s) == s
    ensures Strip(s + " ") == s
  {
    assert TrimEnd(s + " ") == TrimEnd(s) by {
      if s + " " != [] {
        assert (s + " ")[..|s + " "| - 1] == s;
      }
    }
  }

  /** A split never runs into a whitespace character: the words after it are
      split on their own. */
  lemma WordLenStopsAtSpace(x: string, c: char, y: string)
    requires IsSpace(c)
    ensures WordLen(x + [c] + y) == WordLen(x)
  {
    var s := x + [c] + y;
    assert forall i :: 0 <= i < |x| ==> s[i] == x[i];
    assert s[|x|] == c;
  }

  /** Splitting at a whitespace character: str.split() of `x + c + y` is the
      split of x followed by the split of y. */
  lemma {:induction false} WordsAroundSpace(x: string, c: char, y: string)
    requires IsSpace(c)
    ensures Words(x + [c] + y) == Words(x) + Words(y)
    decreases |x|
  {
    var s := x + [c] + y;
    if x == [] {
      assert s[1..] == y;
    } else if IsSpace(x[0]) {
      assert s[1..] == x[1..] + [c] + y;
      WordsAroundSpace(x[1..], c, y);
    } else {
      WordLenStopsAtSpace(x, c, y);
      var n := WordLen(x);
      assert s[..n] == x[..n];
      assert s[n..] == x[n..] + [c] + y;
      WordsAroundSpace(x[n..], c, y);
    }
  }

  lemma WordsOfWord(w: string)
    requires IsWord(w)
    ensures Words(w) == [w]
  {
    assert WordLen(w) == |w|;
    assert w[..|w|] == w;
    assert w[|w|..] == [];
  }

  /** Round trip: splitting words joined by single spaces gives the words back. */
  lemma {:induction false} WordsOfJoin(ws: seq<string>)
    requires AllWords(ws)
    ensures Words(JoinSpace(ws)) == ws
  {
    if |ws| == 1 {
      WordsOfWord(ws[0]);
    } else if |ws| > 1 {
      var init, last := ws[..|ws| - 1], ws[|ws| - 1];
      WordsOfJoin(init);
      WordsAroundSpace(JoinSpace(init), ' ', last);
      WordsOfWord(last);
      assert JoinSpace(init) + " " + last == JoinSpace(init) + [' '] + last;
      assert ws == init + [last];
    }
  }

  /** Words joined by single spaces have no outer whitespace and are empty
      exactly when there are no words. */
  lemma {:induction false} JoinTrimmed(ws: seq<string>)
    requires AllWords(ws)
    ensures Trimmed(JoinSpace(ws))
    ensures JoinSpace(ws) == [] <==> ws == []
  {
    if |ws| > 1 {
      var init := ws[..|ws| - 1];
      JoinTrimmed(init);
    }
  }

  lemma {:induction false} SpacedIsJoinPlusSpace(ws: seq<string>)
    requires ws != []
    ensures Spaced(ws) == JoinSpace(ws) + " "
  {
    if |ws| > 1 {
      var init := ws[..|ws| - 1];
      SpacedIsJoinPlusSpace(init);
    }
  }

  /** "".join of whitespace-free words has no whitespace, and is empty exactly
      when there are no words. */
  lemma {:induction false} ConcatOfWords(ws: seq<string>)
    requires AllWords(ws)
    ensures NoSpace(Concat(ws))
    ensures Concat(ws) == [] <==> ws == []
  {
    if ws != [] {
      ConcatOfWords(ws[..|ws| - 1]);
    }
  }
}

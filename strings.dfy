/**
 * The few operations on Python `str` values that the core relies on:
 * prefixes and slicing, concatenation of a list of strings, `strip()`
 * and `split()` with their notion of whitespace.
 */
module Strings {

  /** The epsilon marker of the grammar files (U+03B5). */
  const Epsilon: string := "ε"

  /** `x.startswith(t)` */
  predicate IsPrefix(t: string, x: string) {
    |t| <= |x| && x[..|t|] == t
  }

  lemma PrefixSplit(t: string, x: string)
    requires IsPrefix(t, x)
    ensures x == t + x[|t|..]
  {
  }

  /** Python's `x[pos:]`: empty once `pos` is past the end. */
  function Drop(x: string, pos: nat): string {
    if pos <= |x| then x[pos..] else []
  }

  /** `''.join(ss)` */
  function Concat(ss: seq<string>): string {
    if ss == [] then [] else ss[0] + Concat(ss[1..])
  }

  lemma {:induction false} ConcatAppend(a: seq<string>, b: seq<string>)
    ensures Concat(a + b) == Concat(a) + Concat(b)
  {
    if a == [] {
      assert a + b == b;
    } else {
      assert (a + b)[1..] == a[1..] + b;
      ConcatAppend(a[1..], b);
    }
  }

  /** The characters for which Python's `str.isspace()` holds; `strip()` and `split()` use the same set. */
  predicate IsSpace(c: char) {
    ('\t' <= c <= '\r') || ('\U{1C}' <= c <= '\U{1F}') || c == ' ' ||
    c == '\U{85}' || c == '\U{A0}' || c == '\U{1680}' || ('\U{2000}' <= c <= '\U{200A}') ||
    c == '\U{2028}' || c == '\U{2029}' || c == '\U{202F}' || c == '\U{205F}' || c == '\U{3000}'
  }

  predicate NoSpace(s: string) {
    forall i :: 0 <= i < |s| ==> !IsSpace(s[i])
  }

  predicate AllSpace(s: string) {
    forall i :: 0 <= i < |s| ==> IsSpace(s[i])
  }

  /** Leading whitespace removed. */
  function TrimStart(s: string): string {
    if s != [] && IsSpace(s[0]) then TrimStart(s[1..]) else s
  }

  /** What `TrimStart` leaves: a suffix of `s`, not starting with whitespace, after a run of whitespace. */
  lemma {:induction false} TrimStartFacts(s: string)
    ensures |TrimStart(s)| <= |s| && TrimStart(s) == s[|s| - |TrimStart(s)|..]
    ensures TrimStart(s) == [] || !IsSpace(TrimStart(s)[0])
    ensures AllSpace(s[..|s| - |TrimStart(s)|])
  {
    if s != [] && IsSpace(s[0]) {
      TrimStartFacts(s[1..]);
      var n := |s| - |TrimStart(s)|;
      assert s[..n] == [s[0]] + s[1..][..n - 1];
    }
  }

  /** Trailing whitespace removed. */
  function TrimEnd(s: string): string {
    if s != [] && IsSpace(s[|s| - 1]) then TrimEnd(s[..|s| - 1]) else s
  }

  /** What `TrimEnd` leaves: a prefix of `s`, not ending with whitespace, before a run of whitespace. */
  lemma {:induction false} TrimEndFacts(s: string)
    ensures |TrimEnd(s)| <= |s| && TrimEnd(s) == s[..|TrimEnd(s)|]
    ensures TrimEnd(s) == [] || !IsSpace(TrimEnd(s)[|TrimEnd(s)| - 1])
    ensures AllSpace(s[|TrimEnd(s)|..])
  {
    if s != [] && IsSpace(s[|s| - 1]) {
      var u := s[..|s| - 1];
      TrimEndFacts(u);
      var n := |TrimEnd(s)|;
      assert s[..n] == u[..n];
      assert s[n..] == u[n..] + [s[|s| - 1]];
    }
  }

  /** `s.strip()` */
  function Strip(s: string): string {
    TrimEnd(TrimStart(s))
  }

  /** `not s.strip()` holds exactly for the strings made of whitespace only. */
  lemma StripEmptyIffBlank(s: string)
    ensures Strip(s) == [] <==> AllSpace(s)
  {
    var t := TrimStart(s);
    TrimStartFacts(s);
    TrimEndFacts(t);
    assert s == s[..|s| - |t|] + t;
    if t != [] {
      assert t[0] == s[|s| - |t|];
      assert t[0..] == t;
    }
  }

  lemma StripNoSpace(s: string)
    requires NoSpace(s)
    ensures Strip(s) == s
  {
  }

  /** The longest whitespace-free prefix of `t`. */
  function WordAt(t: string): (w: string)
    ensures IsPrefix(w, t) && NoSpace(w)
    ensures t != [] && !IsSpace(t[0]) ==> w != []
    ensures |w| < |t| ==> IsSpace(t[|w|])
  {
    if t == [] || IsSpace(t[0]) then [] else [t[0]] + WordAt(t[1..])
  }

  /** `s.split()`: the maximal runs of non-whitespace characters, left to right. */
  function Words(s: string): (ws: seq<string>)
    decreases |s|
  {
    TrimStartFacts(s);
    var t := TrimStart(s);
    if t == [] then []
    else
      var w := WordAt(t);
      [w] + Words(t[|w|..])
  }

  /** `s` with every whitespace character removed. */
  function RemoveSpaces(s: string): (r: string)
    ensures NoSpace(r)
  {
    if s == [] then [] else (if IsSpace(s[0]) then [] else [s[0]]) + RemoveSpaces(s[1..])
  }

  lemma {:induction false} RemoveSpacesAppend(a: string, b: string)
    ensures RemoveSpaces(a + b) == RemoveSpaces(a) + RemoveSpaces(b)
  {
    if a == [] {
      assert a + b == b;
    } else {
      assert (a + b)[1..] == a[1..] + b;
      RemoveSpacesAppend(a[1..], b);
    }
  }

  lemma {:induction false} RemoveSpacesOfSpaces(s: string)
    requires AllSpace(s)
    ensures RemoveSpaces(s) == []
  {
    if s != [] { RemoveSpacesOfSpaces(s[1..]); }
  }

  lemma {:induction false} RemoveSpacesOfWord(s: string)
    requires NoSpace(s)
    ensures RemoveSpaces(s) == s
  {
    if s != [] { RemoveSpacesOfWord(s[1..]); }
  }

  /** `split()` yields no empty word and no word holding whitespace. */
  lemma {:induction false} WordsAreWords(s: string)
    ensures forall k :: 0 <= k < |Words(s)| ==> Words(s)[k] != [] && NoSpace(Words(s)[k])
    decreases |s|
  {
    var t := TrimStart(s);
    TrimStartFacts(s);
    if t != [] {
      var w := WordAt(t);
      var rest := t[|w|..];
      WordsAreWords(rest);
      var ws := Words(s);
      assert ws == [w] + Words(rest);
      forall k | 0 <= k < |ws| ensures ws[k] != [] && NoSpace(ws[k]) {
        if k > 0 { assert ws[k] == Words(rest)[k - 1]; }
      }
    }
  }

  /** The words of `split()` concatenate to the input with its whitespace removed. */
  lemma {:induction false} WordsConcat(s: string)
    ensures Concat(Words(s)) == RemoveSpaces(s)
    decreases |s|
  {
    var t := TrimStart(s);
    TrimStartFacts(s);
    var lead := s[..|s| - |t|];
    assert s == lead + t;
    RemoveSpacesAppend(lead, t);
    RemoveSpacesOfSpaces(lead);
    assert RemoveSpaces(s) == RemoveSpaces(t);
    if t != [] {
      var w := WordAt(t);
      var rest := t[|w|..];
      WordsConcat(rest);
      PrefixSplit(w, t);
      RemoveSpacesAppend(w, rest);
      RemoveSpacesOfWord(w);
      var ws := Words(rest);
      assert Words(s) == [w] + ws;
      assert ([w] + ws)[1..] == ws;
      calc {
        Concat(Words(s));
        Concat([w] + ws);
        w + Concat(ws);
        w + RemoveSpaces(rest);
        RemoveSpaces(t);
      }
    }
  }

  /** `[w.strip() for w in ws if w.strip()]` */
  function StripEach(ws: seq<string>): seq<string> {
    if ws == [] then []
    else (if Strip(ws[0]) != [] then [Strip(ws[0])] else []) + StripEach(ws[1..])
  }

  /** On the output of `split()` the strip-and-filter comprehension changes nothing. */
  lemma {:induction false} StripEachOfWords(ws: seq<string>)
    requires forall k :: 0 <= k < |ws| ==> ws[k] != [] && NoSpace(ws[k])
    ensures StripEach(ws) == ws
  {
    if ws != [] {
      StripNoSpace(ws[0]);
      StripEachOfWords(ws[1..]);
    }
  }
}

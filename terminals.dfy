/**
 * Terminal matching shared by both parsers and the tokenizer: the
 * terminals sorted longest first, the first of them that is a prefix of
 * the remaining input, and the reference notion that this search computes,
 * the longest terminal that is a prefix.
 */
module Terminals {
  import opened Wrappers
  import opened Strings

  /** The longest member of `terms` of length 1..k that is a prefix of `x`. */
  function LongestPrefixUpTo(terms: set<string>, x: string, k: nat): Option<string>
    requires k <= |x|
  {
    if k == 0 then None
    else if x[..k] in terms then Some(x[..k])
    else LongestPrefixUpTo(terms, x, k - 1)
  }

  /** The longest non-empty terminal that `x` starts with, if any. */
  function LongestTerminal(terms: set<string>, x: string): Option<string> {
    LongestPrefixUpTo(terms, x, |x|)
  }

  /** Trying the lengths from `k` down finds the longest terminal prefix of length at most `k`. */
  lemma {:induction false} LongestPrefixUpToFacts(terms: set<string>, x: string, k: nat)
    requires k <= |x|
    ensures var r := LongestPrefixUpTo(terms, x, k);
      (r.Some? ==> r.value in terms && 0 < |r.value| <= k && IsPrefix(r.value, x)) &&
      (r.Some? ==> forall u :: u in terms && IsPrefix(u, x) && |u| <= k ==> |u| <= |r.value|) &&
      (r.None? ==> forall u :: u in terms && IsPrefix(u, x) && |u| <= k ==> u == [])
  {
    if k > 0 && x[..k] !in terms {
      LongestPrefixUpToFacts(terms, x, k - 1);
    }
  }

  /**
   * `LongestTerminal` finds a non-empty declared terminal that `x` starts with
   * and that no terminal prefix of `x` is longer than; it finds none only when
   * the empty string is the one terminal prefix of `x`.
   */
  lemma LongestTerminalFacts(terms: set<string>, x: string)
    ensures var r := LongestTerminal(terms, x);
      (r.Some? ==> r.value in terms && r.value != [] && IsPrefix(r.value, x)) &&
      (r.Some? ==> forall u :: u in terms && IsPrefix(u, x) ==> |u| <= |r.value|) &&
      (r.None? ==> forall u :: u in terms && IsPrefix(u, x) ==> u == [])
  {
    LongestPrefixUpToFacts(terms, x, |x|);
  }

  /** Two prefixes of one string with the same length are the same string. */
  lemma PrefixesOfEqualLength(t: string, u: string, x: string)
    requires IsPrefix(t, x) && IsPrefix(u, x) && |t| == |u|
    ensures t == u
  {
  }

  /** Non-increasing length, as `sorted(terminals, key=len, reverse=True)` leaves them. */
  predicate SortedByLength(ts: seq<string>) {
    forall i, j :: 0 <= i < j < |ts| ==> |ts[i]| >= |ts[j]|
  }

  /** The loop `for terminal in ts: if x.startswith(terminal): ...; break`. */
  function FirstPrefix(ts: seq<string>, x: string): (r: Option<string>)
    ensures r.Some? ==> r.value in ts && IsPrefix(r.value, x)
    ensures r.Some? ==> exists i :: 0 <= i < |ts| && ts[i] == r.value && forall j :: 0 <= j < i ==> !IsPrefix(ts[j], x)
    ensures r.None? ==> forall j :: 0 <= j < |ts| ==> !IsPrefix(ts[j], x)
  {
    if ts == [] then None
    else if IsPrefix(ts[0], x) then Some(ts[0])
    else
      var r := FirstPrefix(ts[1..], x);
      assert r.Some? ==> exists i :: 0 <= i < |ts| && ts[i] == r.value && forall j :: 0 <= j < i ==> !IsPrefix(ts[j], x) by {
        if r.Some? {
          var i :| 0 <= i < |ts[1..]| && ts[1..][i] == r.value && forall j :: 0 <= j < i ==> !IsPrefix(ts[1..][j], x);
          assert ts[i + 1] == r.value;
          forall j | 0 <= j < i + 1 ensures !IsPrefix(ts[j], x) {
            if j > 0 { assert ts[j] == ts[1..][j - 1]; }
          }
        }
      }
      assert r.None? ==> forall j :: 0 <= j < |ts| ==> !IsPrefix(ts[j], x) by {
        if r.None? {
          forall j | 0 <= j < |ts| ensures !IsPrefix(ts[j], x) {
            if j > 0 { assert ts[j] == ts[1..][j - 1]; }
          }
        }
      }
      r
  }

  /** The loop `for terminal in ts: if x.startswith(terminal): break`: the index where it stops. */
  method FirstPrefixIndex(ts: seq<string>, x: string) returns (j: nat)
    ensures j <= |ts|
    ensures forall k :: 0 <= k < j ==> !IsPrefix(ts[k], x)
    ensures j < |ts| ==> IsPrefix(ts[j], x)
  {
    j := 0;
    while j < |ts| && !IsPrefix(ts[j], x)
      invariant j <= |ts|
      invariant forall k :: 0 <= k < j ==> !IsPrefix(ts[k], x)
    {
      j := j + 1;
    }
  }

  /** The search stops at index `j` when `ts[j]` is the first prefix of `x`. */
  lemma {:induction false} FirstPrefixAt(ts: seq<string>, x: string, j: nat)
    requires j < |ts| && IsPrefix(ts[j], x)
    requires forall k :: 0 <= k < j ==> !IsPrefix(ts[k], x)
    ensures FirstPrefix(ts, x) == Some(ts[j])
  {
    if j > 0 {
      forall k | 0 <= k < j - 1 ensures !IsPrefix(ts[1..][k], x) {
        assert ts[1..][k] == ts[k + 1];
      }
      FirstPrefixAt(ts[1..], x, j - 1);
    }
  }

  /**
   * Scanning the terminals longest first and stopping at the first prefix finds
   * the longest terminal prefix, whatever order equal-length terminals are in:
   * two different terminals of one length cannot both be prefixes of `x`.
   * Where no non-empty terminal fits, the scan finds nothing or the empty
   * terminal, which is a prefix of everything.
   */
  lemma FirstPrefixIsLongest(ts: seq<string>, terms: set<string>, x: string)
    requires IsLengthOrder(ts, terms)
    ensures LongestTerminal(terms, x).Some? ==> FirstPrefix(ts, x) == LongestTerminal(terms, x)
    ensures LongestTerminal(terms, x).None? ==> FirstPrefix(ts, x).None? || FirstPrefix(ts, x) == Some([])
    ensures [] !in terms ==> FirstPrefix(ts, x) == LongestTerminal(terms, x)
  {
    var f := FirstPrefix(ts, x);
    var l := LongestTerminal(terms, x);
    LongestTerminalFacts(terms, x);
    if l.Some? {
      var u := l.value;
      var k :| 0 <= k < |ts| && ts[k] == u;
      assert f.Some?;
      var t := f.value;
      var i :| 0 <= i < |ts| && ts[i] == t && forall j :: 0 <= j < i ==> !IsPrefix(ts[j], x);
      assert |u| >= |t|;
      if k < i {
        assert false;
      } else {
        assert |ts[i]| >= |ts[k]| || i == k;
        PrefixesOfEqualLength(t, u, x);
      }
    } else if f.Some? {
      assert f.value in terms;
    }
  }

  /** `_try_match_terminal(string, pos)`: the new position and the terminal matched there. */
  function TryMatchTerminal(sorted: seq<string>, s: string, pos: nat): (r: Option<(nat, string)>)
    ensures r.Some? ==> IsPrefix(r.value.1, Drop(s, pos)) && r.value.0 == pos + |r.value.1|
    ensures r.Some? ==>
      exists i :: 0 <= i < |sorted| && sorted[i] == r.value.1 && forall j :: 0 <= j < i ==> !IsPrefix(sorted[j], Drop(s, pos))
    ensures r.None? <==> forall j :: 0 <= j < |sorted| ==> !IsPrefix(sorted[j], Drop(s, pos))
  {
    match FirstPrefix(sorted, Drop(s, pos))
    case Some(t) => Some((pos + |t|, t))
    case None => None
  }

  /** Insert `x` into a length-sorted list ahead of the first element no longer than it. */
  function InsertByLength(ts: seq<string>, x: string): (r: seq<string>)
    requires SortedByLength(ts)
    ensures SortedByLength(r)
    ensures multiset(r) == multiset(ts) + multiset{x}
  {
    if ts == [] || |x| >= |ts[0]| then [x] + ts
    else
      var rest := InsertByLength(ts[1..], x);
      assert ts == [ts[0]] + ts[1..];
      BoundedByHead(ts, x, rest);
      [ts[0]] + rest
  }

  lemma BoundedByHead(ts: seq<string>, x: string, rest: seq<string>)
    requires SortedByLength(ts) && ts != [] && |x| < |ts[0]|
    requires multiset(rest) == multiset(ts[1..]) + multiset{x}
    requires SortedByLength(rest)
    ensures SortedByLength([ts[0]] + rest)
  {
    forall j | 0 <= j < |rest| ensures |rest[j]| <= |ts[0]| {
      assert rest[j] in multiset(rest);
      if rest[j] != x {
        assert rest[j] in ts[1..];
        var k :| 0 <= k < |ts[1..]| && ts[1..][k] == rest[j];
        assert ts[k + 1] == rest[j];
      }
    }
    var r := [ts[0]] + rest;
    forall i, j | 0 <= i < j < |r| ensures |r[i]| >= |r[j]| {
      assert r[j] == rest[j - 1];
      if i > 0 { assert r[i] == rest[i - 1]; }
    }
  }

  /** `sorted(terminals, key=len, reverse=True)`: every terminal once, longest first. */
  method SortByLength(terms: set<string>) returns (ts: seq<string>)
    ensures SortedByLength(ts)
    ensures multiset(ts) == multiset(terms)
  {
    ts := [];
    var rest := terms;
    while rest != {}
      invariant rest <= terms
      invariant SortedByLength(ts)
      invariant multiset(ts) + multiset(rest) == multiset(terms)
      decreases |rest|
    {
      var t :| t in rest;
      ts := InsertByLength(ts, t);
      assert multiset(rest) == multiset(rest - {t}) + multiset{t};
      rest := rest - {t};
    }
  }

  /** What the parsers keep: the terminals in non-increasing length, each of them listed. */
  predicate IsLengthOrder(ts: seq<string>, terms: set<string>) {
    SortedByLength(ts) && (forall t :: t in ts ==> t in terms) && (forall t :: t in terms ==> t in ts)
  }

  /** The list `SortByLength` returns is such a list. */
  lemma SortedIsLengthOrder(ts: seq<string>, terms: set<string>)
    requires SortedByLength(ts) && multiset(ts) == multiset(terms)
    ensures IsLengthOrder(ts, terms)
  {
    forall t ensures t in ts <==> t in terms {
      assert t in ts <==> t in multiset(ts);
    }
  }

  /** `_try_match_terminal` finds the longest terminal prefix of the input at `pos`. */
  lemma TryMatchTerminalIsLongest(sorted: seq<string>, terms: set<string>, s: string, pos: nat)
    requires IsLengthOrder(sorted, terms)
    ensures LongestTerminal(terms, Drop(s, pos)).Some? ==>
      TryMatchTerminal(sorted, s, pos) == Some((pos + |LongestTerminal(terms, Drop(s, pos)).value|, LongestTerminal(terms, Drop(s, pos)).value))
    ensures LongestTerminal(terms, Drop(s, pos)).None? ==>
      TryMatchTerminal(sorted, s, pos).None? || TryMatchTerminal(sorted, s, pos) == Some((pos, []))
    ensures [] !in terms && LongestTerminal(terms, Drop(s, pos)).None? ==> TryMatchTerminal(sorted, s, pos).None?
  {
    FirstPrefixIsLongest(sorted, terms, Drop(s, pos));
  }
}

/**
 * The string generator (generator.py): a breadth-first search over sentential
 * forms from the start symbol. A form is expanded by rewriting its first
 * character that is a (one-character) non-terminal with each of that
 * non-terminal's right sides; forms already seen are not queued again, forms
 * deeper than the depth ceiling are dropped, and forms without a non-terminal
 * character are collected with `ε` and spaces removed.
 */
module Generation {
  import opened Strings
  import opened Grammars

  /** `max_depth`: forms at a greater depth are dropped without being expanded. */
  const MaxDepth: nat := 20

  /** `char in self.grammar.non_terminals`: a character that is, on its own, a declared non-terminal. */
  predicate IsNonTerminalChar(g: GrammarData, c: char) {
    [c] in g.nonTerminals
  }

  /** A form none of whose characters is a non-terminal. */
  predicate AllTerminal(g: GrammarData, s: string) {
    forall k :: 0 <= k < |s| ==> !IsNonTerminalChar(g, s[k])
  }

  /** The index of the first non-terminal character of `s`, or `|s|` when there is none. */
  function FirstNonTerminal(g: GrammarData, s: string): (i: nat)
    ensures i <= |s|
    ensures forall k :: 0 <= k < i ==> !IsNonTerminalChar(g, s[k])
    ensures i < |s| ==> IsNonTerminalChar(g, s[i])
    decreases |s|
  {
    if s == [] || IsNonTerminalChar(g, s[0]) then 0
    else
      var i := 1 + FirstNonTerminal(g, s[1..]);
      assert forall k :: 1 <= k < |s| ==> s[k] == s[1..][k - 1];
      i
  }

  /** A form is all terminal exactly when the search for a non-terminal character runs off its end. */
  lemma AllTerminalIffNoneFound(g: GrammarData, s: string)
    ensures AllTerminal(g, s) <==> FirstNonTerminal(g, s) == |s|
  {
  }

  /** The right sides of the non-terminal `symbol`, `productions.get(symbol, [])`. */
  function RightSides(g: GrammarData, symbol: string): seq<string> {
    if symbol in g.productions then g.productions[symbol] else []
  }

  /**
   * The forms one step from `s`: the first non-terminal character replaced by
   * each of its right sides in order; none when `s` is all terminal.
   */
  function Successors(g: GrammarData, s: string): seq<string> {
    var i := FirstNonTerminal(g, s);
    if i == |s| then []
    else
      var rights := RightSides(g, [s[i]]);
      seq(|rights|, j requires 0 <= j < |rights| => s[..i] + rights[j] + s[i + 1..])
  }

  /**
   * Only the first non-terminal character is rewritten: every successor keeps
   * the all-terminal text before it and the text after it, and has one of its
   * right sides in between; there is one successor per right side.
   */
  lemma SuccessorsRewriteFirst(g: GrammarData, s: string)
    requires !AllTerminal(g, s)
    ensures var i := FirstNonTerminal(g, s);
      i < |s| && AllTerminal(g, s[..i]) && IsNonTerminalChar(g, s[i]) &&
      |Successors(g, s)| == |RightSides(g, [s[i]])| &&
      forall j :: 0 <= j < |Successors(g, s)| ==>
        Successors(g, s)[j] == s[..i] + RightSides(g, [s[i]])[j] + s[i + 1..]
  {
    AllTerminalIffNoneFound(g, s);
  }

  /** An all-terminal form has no successors. */
  lemma TerminalFormsAreFinal(g: GrammarData, s: string)
    requires AllTerminal(g, s)
    ensures Successors(g, s) == []
  {
    AllTerminalIffNoneFound(g, s);
  }

  /** `s.replace('ε', '').replace(' ', '')` */
  function Clean(s: string): string
    decreases |s|
  {
    if s == [] then []
    else (if s[0] == Epsilon[0] || s[0] == ' ' then [] else [s[0]]) + Clean(s[1..])
  }

  /** The cleaned form has neither `ε` nor a space, an `ε`- and space-free form is kept as it is, and nothing grows. */
  lemma {:induction false} CleanRemovesExactly(s: string)
    ensures forall k :: 0 <= k < |Clean(s)| ==> Clean(s)[k] != Epsilon[0] && Clean(s)[k] != ' '
    ensures (forall k :: 0 <= k < |s| ==> s[k] != Epsilon[0] && s[k] != ' ') ==> Clean(s) == s
    ensures |Clean(s)| <= |s|
    decreases |s|
  {
    if s != [] {
      CleanRemovesExactly(s[1..]);
      var head := if s[0] == Epsilon[0] || s[0] == ' ' then [] else [s[0]];
      assert Clean(s) == head + Clean(s[1..]);
      forall k | 0 <= k < |Clean(s)| ensures Clean(s)[k] != Epsilon[0] && Clean(s)[k] != ' ' {
        if k >= |head| { assert Clean(s)[k] == Clean(s[1..])[k - |head|]; }
      }
      if forall k :: 0 <= k < |s| ==> s[k] != Epsilon[0] && s[k] != ' ' {
        assert forall k :: 0 <= k < |s[1..]| ==> s[1..][k] == s[k + 1];
        assert s == [s[0]] + s[1..];
      }
    }
  }

  /** Cleaning works piece by piece: the other characters keep their order. */
  lemma {:induction false} CleanConcat(a: string, b: string)
    ensures Clean(a + b) == Clean(a) + Clean(b)
    decreases |a|
  {
    if a != [] {
      assert (a + b)[0] == a[0] && (a + b)[1..] == a[1..] + b;
      CleanConcat(a[1..], b);
    } else {
      assert a + b == b;
    }
  }

  /** Cleaning twice is cleaning once. */
  lemma CleanIdempotent(s: string)
    ensures Clean(Clean(s)) == Clean(s)
  {
    CleanRemovesExactly(s);
    CleanRemovesExactly(Clean(s));
  }

  /** `form` is one of the successors of `prev`. */
  predicate Expands(g: GrammarData, prev: string, form: string) {
    form in Successors(g, prev)
  }

  /** `form` is reached from `start` by `d` expansion steps. */
  ghost predicate Derives(g: GrammarData, start: string, form: string, d: nat)
    decreases d
  {
    if d == 0 then form == start
    else exists prev :: Expands(g, prev, form) && Derives(g, start, prev, d - 1)
  }

  /** A successor is one step further from the start symbol. */
  lemma DerivesStep(g: GrammarData, start: string, prev: string, d: nat, form: string)
    requires Derives(g, start, prev, d) && form in Successors(g, prev)
    ensures Derives(g, start, form, d + 1)
  {
    assert Expands(g, prev, form);
  }

  /**
   * The forms the loop over the right sides queues, in order: the successors
   * not yet visited, each once even when two right sides give the same form.
   */
  function Unvisited(ws: seq<string>, visited: set<string>): seq<string>
    decreases |ws|
  {
    if ws == [] then []
    else
      var before := Unvisited(ws[..|ws| - 1], visited);
      var w := ws[|ws| - 1];
      if w in visited || w in before then before else before + [w]
  }

  /** One more element of `ws`: it is queued when neither visited before nor queued already. */
  lemma UnvisitedStep(ws: seq<string>, j: nat, visited: set<string>, d: nat)
    requires j < |ws|
    ensures var u := Unvisited(ws[..j], visited);
      Unvisited(ws[..j + 1], visited) == (if ws[j] in visited + Elements(u) then u else u + [ws[j]]) &&
      AtDepth(u + [ws[j]], d) == AtDepth(u, d) + [(ws[j], d)] &&
      Elements(u + [ws[j]]) == Elements(u) + {ws[j]}
  {
    assert ws[..j + 1][..j] == ws[..j];
    var u := Unvisited(ws[..j], visited);
    assert AtDepth(u + [ws[j]], d) == AtDepth(u, d) + [(ws[j], d)];
  }

  /** Those forms are successors, new, pairwise distinct, and no more than the successors. */
  lemma {:induction false} UnvisitedFacts(ws: seq<string>, visited: set<string>)
    ensures forall k :: 0 <= k < |Unvisited(ws, visited)| ==>
      Unvisited(ws, visited)[k] in ws && Unvisited(ws, visited)[k] !in visited
    ensures Distinct(Unvisited(ws, visited))
    ensures |Unvisited(ws, visited)| <= |ws|
    ensures forall w :: w in ws && w !in visited ==> w in Unvisited(ws, visited)
    decreases |ws|
  {
    if ws != [] {
      var init := ws[..|ws| - 1];
      UnvisitedFacts(init, visited);
      assert forall w :: w in init ==> w in ws;
      assert ws == init + [ws[|ws| - 1]];
    }
  }

  function Elements(ws: seq<string>): set<string> {
    set w | w in ws
  }

  predicate Distinct(ws: seq<string>) {
    forall i, j :: 0 <= i < j < |ws| ==> ws[i] != ws[j]
  }

  /** Queue entries for `ws`, all at depth `d`. */
  function AtDepth(ws: seq<string>, d: nat): (r: seq<(string, nat)>)
    ensures |r| == |ws| && forall k :: 0 <= k < |ws| ==> r[k] == (ws[k], d)
  {
    seq(|ws|, k requires 0 <= k < |ws| => (ws[k], d))
  }

  /** The length of the longest list of right sides: a bound on the successors of any form. */
  ghost function MaxFanout(productions: map<string, seq<string>>): (m: nat)
    ensures forall x :: x in productions ==> |productions[x]| <= m
    decreases |productions.Keys|
  {
    if productions.Keys == {} then 0
    else
      var x :| x in productions.Keys;
      var rest := productions - {x};
      var m := MaxFanout(rest);
      assert forall y :: y in productions && y != x ==> y in rest && rest[y] == productions[y];
      if |productions[x]| > m then |productions[x]| else m
  }

  function Pow(b: nat, n: nat): (r: nat)
    ensures b >= 1 ==> r >= 1
  {
    if n == 0 then 1 else b * Pow(b, n - 1)
  }

  /**
   * The termination measure of the search: an entry at depth `d` weighs
   * `b^(MaxDepth + 1 - d)`. With `b` above the fanout, expanding an entry
   * queues successors lighter in total than the entry itself.
   */
  function Weight(queue: seq<(string, nat)>, b: nat): nat
    decreases |queue|
  {
    if queue == [] then 0
    else Pow(b, if queue[0].1 > MaxDepth then 0 else MaxDepth + 1 - queue[0].1) + Weight(queue[1..], b)
  }

  lemma {:induction false} WeightAppend(q: seq<(string, nat)>, ws: seq<string>, d: nat, b: nat)
    requires d <= MaxDepth + 1
    ensures Weight(q + AtDepth(ws, d), b) == Weight(q, b) + |ws| * Pow(b, MaxDepth + 1 - d)
    decreases |q|
  {
    if q == [] {
      assert q + AtDepth(ws, d) == AtDepth(ws, d);
      WeightAtDepth(ws, d, b);
    } else {
      assert (q + AtDepth(ws, d))[1..] == q[1..] + AtDepth(ws, d);
      WeightAppend(q[1..], ws, d, b);
    }
  }

  lemma {:induction false} WeightAtDepth(ws: seq<string>, d: nat, b: nat)
    requires d <= MaxDepth + 1
    ensures Weight(AtDepth(ws, d), b) == |ws| * Pow(b, MaxDepth + 1 - d)
    decreases |ws|
  {
    if ws != [] {
      assert AtDepth(ws, d)[1..] == AtDepth(ws[1..], d);
      WeightAtDepth(ws[1..], d, b);
    }
  }

  /** Replacing an entry by the unvisited successors of its form lowers the weight of the queue. */
  lemma ExpandLowersWeight(g: GrammarData, current: string, depth: nat, queue: seq<(string, nat)>, visited: set<string>, b: nat)
    requires depth <= MaxDepth && b == MaxFanout(g.productions) + 1
    ensures Weight(queue + AtDepth(Unvisited(Successors(g, current), visited), depth + 1), b) < Weight([(current, depth)] + queue, b)
  {
    var added := Unvisited(Successors(g, current), visited);
    UnvisitedFacts(Successors(g, current), visited);
    SuccessorsBounded(g, current);
    var before := [(current, depth)] + queue;
    assert before[1..] == queue;
    ExpansionLowersWeight(before, added, b, queue + AtDepth(added, depth + 1));
  }

  /** Expanding the head at depth `d` into at most `b - 1` entries one level deeper lowers the weight. */
  lemma ExpansionLowersWeight(queue: seq<(string, nat)>, ws: seq<string>, b: nat, queue': seq<(string, nat)>)
    requires queue != [] && queue[0].1 <= MaxDepth && b >= 1 && |ws| < b
    requires queue' == queue[1..] + AtDepth(ws, queue[0].1 + 1)
    ensures Weight(queue', b) < Weight(queue, b)
  {
    var d := queue[0].1;
    WeightAppend(queue[1..], ws, d + 1, b);
    var p := Pow(b, MaxDepth - d);
    assert MaxDepth + 1 - d == (MaxDepth - d) + 1;
    assert Pow(b, MaxDepth + 1 - d) == b * p;
    assert Weight(queue, b) == b * p + Weight(queue[1..], b);
    FewerIsLess(|ws|, b, p);
  }

  lemma {:induction false} FewerIsLess(x: nat, y: nat, p: nat)
    requires x < y && p >= 1
    ensures x * p < y * p
    decreases p
  {
    if p > 1 {
      FewerIsLess(x, y, p - 1);
      assert x * p == x * (p - 1) + x;
      assert y * p == y * (p - 1) + y;
    }
  }

  /** Dropping the head lowers the weight. */
  lemma PopLowersWeight(queue: seq<(string, nat)>, b: nat)
    requires queue != [] && b >= 1
    ensures Weight(queue[1..], b) < Weight(queue, b)
  {
  }

  /** The number of successors is at most the fanout. */
  lemma SuccessorsBounded(g: GrammarData, s: string)
    ensures |Successors(g, s)| <= MaxFanout(g.productions)
  {
  }

  /** Appending distinct new elements keeps a sequence free of duplicates. */
  lemma DistinctAppend(a: seq<string>, b: seq<string>)
    requires Distinct(a) && Distinct(b) && forall k :: 0 <= k < |b| ==> b[k] !in a
    ensures Distinct(a + b)
  {
    var c := a + b;
    forall i, j | 0 <= i < j < |c| ensures c[i] != c[j] {
      if j >= |a| {
        assert c[j] == b[j - |a|];
        if i < |a| { assert c[i] in a; } else { assert c[i] == b[i - |a|]; }
      }
    }
  }

  /** `generated[:max_count]`, a Python slice: a negative bound counts from the end. */
  function Prefix(xs: seq<string>, n: int): (r: seq<string>)
    ensures n >= |xs| ==> r == xs
    ensures 0 <= n <= |xs| ==> r == xs[..n]
    ensures n < 0 ==> r == xs[..if |xs| + n < 0 then 0 else |xs| + n]
  {
    if n >= |xs| then xs
    else if n >= 0 then xs[..n]
    else if |xs| + n < 0 then []
    else xs[..|xs| + n]
  }

  /**
   * What the search keeps true of its queue: every entry is a form reached
   * from the start symbol at its depth, at most one level past the ceiling
   * and already visited; depths are sorted and span at most two levels.
   */
  ghost predicate QueueOk(g: GrammarData, start: string, queue: seq<(string, nat)>, visited: set<string>, level: nat) {
    (forall k :: 0 <= k < |queue| ==>
      queue[k].1 <= MaxDepth + 1 && Derives(g, start, queue[k].0, queue[k].1) && queue[k].0 in visited) &&
    (forall k :: 0 <= k < |queue| ==> level <= queue[k].1 <= level + 1) &&
    (forall i, j :: 0 <= i < j < |queue| ==> queue[i].1 <= queue[j].1)
  }

  /**
   * What the search keeps true of its results: distinct strings, each the
   * cleaned text of an all-terminal form that was queued and is reached from
   * the start symbol within the ceiling, in order of depth.
   */
  ghost predicate ResultsOk(g: GrammarData, start: string, generated: seq<string>, forms: seq<string>, depths: seq<nat>,
                            enqueued: seq<string>, level: nat) {
    |forms| == |generated| && |depths| == |generated| && Distinct(generated) &&
    (forall k :: 0 <= k < |generated| ==>
      generated[k] == Clean(forms[k]) && AllTerminal(g, forms[k]) && forms[k] in enqueued &&
      depths[k] <= MaxDepth && depths[k] <= level && Derives(g, start, forms[k], depths[k])) &&
    (forall i, j :: 0 <= i < j < |depths| ==> depths[i] <= depths[j])
  }

  /** Taking the head off the queue: the rest is in order from the head's depth on. */
  lemma PopHead(g: GrammarData, start: string, queue: seq<(string, nat)>, visited: set<string>, level: nat)
    requires QueueOk(g, start, queue, visited, level) && queue != []
    ensures level <= queue[0].1 <= MaxDepth + 1 && Derives(g, start, queue[0].0, queue[0].1) && queue[0].0 in visited
    ensures QueueOk(g, start, queue[1..], visited, queue[0].1)
  {
    var rest := queue[1..];
    forall k | 0 <= k < |rest|
      ensures rest[k].1 <= MaxDepth + 1 && Derives(g, start, rest[k].0, rest[k].1) && rest[k].0 in visited
      ensures queue[0].1 <= rest[k].1 <= queue[0].1 + 1
    {
      assert rest[k] == queue[k + 1];
    }
    forall i, j | 0 <= i < j < |rest| ensures rest[i].1 <= rest[j].1 {
      assert rest[i] == queue[i + 1] && rest[j] == queue[j + 1];
    }
  }

  /** The results stay in order when the search moves on to a deeper level. */
  lemma RaiseLevel(g: GrammarData, start: string, generated: seq<string>, forms: seq<string>, depths: seq<nat>,
                   enqueued: seq<string>, level: nat, level': nat, more: seq<string>)
    requires ResultsOk(g, start, generated, forms, depths, enqueued, level) && level <= level'
    ensures ResultsOk(g, start, generated, forms, depths, enqueued + more, level')
  {
  }

  /** Collecting an all-terminal form at the current level. */
  lemma Collect(g: GrammarData, start: string, generated: seq<string>, forms: seq<string>, depths: seq<nat>,
                enqueued: seq<string>, level: nat, form: string, depth: nat)
    requires ResultsOk(g, start, generated, forms, depths, enqueued, level) && level <= depth <= MaxDepth
    requires AllTerminal(g, form) && Derives(g, start, form, depth) && form in enqueued && Clean(form) !in generated
    ensures ResultsOk(g, start, generated + [Clean(form)], forms + [form], depths + [depth], enqueued, depth)
  {
    DistinctAppend(generated, [Clean(form)]);
    var gs, fs, ds := generated + [Clean(form)], forms + [form], depths + [depth];
    forall k | 0 <= k < |gs|
      ensures gs[k] == Clean(fs[k]) && AllTerminal(g, fs[k]) && fs[k] in enqueued
      ensures ds[k] <= MaxDepth && ds[k] <= depth && Derives(g, start, fs[k], ds[k])
    {
      if k < |generated| {
        assert gs[k] == generated[k] && fs[k] == forms[k] && ds[k] == depths[k];
      }
    }
    forall i, j | 0 <= i < j < |ds| ensures ds[i] <= ds[j] {
      if j < |depths| { assert ds[i] == depths[i] && ds[j] == depths[j]; }
    }
  }

  /** Queuing the new successors of a form at `depth` one level deeper. */
  lemma Enqueue(g: GrammarData, start: string, queue: seq<(string, nat)>, visited: set<string>, enqueued: seq<string>,
                current: string, depth: nat)
    requires QueueOk(g, start, queue, visited, depth) && depth <= MaxDepth && Derives(g, start, current, depth)
    requires (forall w :: w in visited <==> w in enqueued) && Distinct(enqueued)
    ensures var added := Unvisited(Successors(g, current), visited);
      QueueOk(g, start, queue + AtDepth(added, depth + 1), visited + Elements(added), depth) &&
      (forall w :: w in visited + Elements(added) <==> w in enqueued + added) &&
      Distinct(enqueued + added)
  {
    var added := Unvisited(Successors(g, current), visited);
    UnvisitedFacts(Successors(g, current), visited);
    EnqueueRecord(visited, enqueued, added);
    EnqueueEntries(g, start, queue, visited, current, depth);
  }

  /** The record of queued forms grows with the visited set. */
  lemma EnqueueRecord(visited: set<string>, enqueued: seq<string>, added: seq<string>)
    requires (forall w :: w in visited <==> w in enqueued) && Distinct(enqueued)
    requires Distinct(added) && forall k :: 0 <= k < |added| ==> added[k] !in visited
    ensures forall w :: w in visited + Elements(added) <==> w in enqueued + added
    ensures Distinct(enqueued + added)
  {
    DistinctAppend(enqueued, added);
  }

  /** The queue keeps its shape when the new successors go to its end one level deeper. */
  lemma EnqueueEntries(g: GrammarData, start: string, queue: seq<(string, nat)>, visited: set<string>, current: string, depth: nat)
    requires QueueOk(g, start, queue, visited, depth) && depth <= MaxDepth && Derives(g, start, current, depth)
    ensures var added := Unvisited(Successors(g, current), visited);
      QueueOk(g, start, queue + AtDepth(added, depth + 1), visited + Elements(added), depth)
  {
    var added := Unvisited(Successors(g, current), visited);
    UnvisitedFacts(Successors(g, current), visited);
    forall k | 0 <= k < |added| ensures Derives(g, start, added[k], depth + 1) {
      DerivesStep(g, start, current, depth, added[k]);
    }
    AppendEntries(g, start, queue, visited, depth, added);
    AppendSorted(queue, depth, added);
  }

  lemma AppendEntries(g: GrammarData, start: string, queue: seq<(string, nat)>, visited: set<string>, depth: nat, added: seq<string>)
    requires QueueOk(g, start, queue, visited, depth) && depth <= MaxDepth
    requires forall k :: 0 <= k < |added| ==> Derives(g, start, added[k], depth + 1)
    ensures var q := queue + AtDepth(added, depth + 1);
      forall k :: 0 <= k < |q| ==>
        q[k].1 <= MaxDepth + 1 && Derives(g, start, q[k].0, q[k].1) && q[k].0 in visited + Elements(added) &&
        depth <= q[k].1 <= depth + 1
  {
    var q := queue + AtDepth(added, depth + 1);
    forall k | 0 <= k < |q|
      ensures q[k].1 <= MaxDepth + 1 && Derives(g, start, q[k].0, q[k].1) && q[k].0 in visited + Elements(added)
      ensures depth <= q[k].1 <= depth + 1
    {
      if k < |queue| {
        assert q[k] == queue[k];
      } else {
        assert q[k] == (added[k - |queue|], depth + 1);
      }
    }
  }

  lemma AppendSorted(queue: seq<(string, nat)>, depth: nat, added: seq<string>)
    requires forall k :: 0 <= k < |queue| ==> depth <= queue[k].1 <= depth + 1
    requires forall i, j :: 0 <= i < j < |queue| ==> queue[i].1 <= queue[j].1
    ensures var q := queue + AtDepth(added, depth + 1);
      forall i, j :: 0 <= i < j < |q| ==> q[i].1 <= q[j].1
  {
    var q := queue + AtDepth(added, depth + 1);
    forall i, j | 0 <= i < j < |q| ensures q[i].1 <= q[j].1 {
      if j < |queue| { assert q[i] == queue[i] && q[j] == queue[j]; }
      else if i < |queue| { assert q[i] == queue[i]; }
    }
  }

  /** The invariant of the search loop in `generate_strings`, over its state and the ghost record of it. */
  ghost predicate Searching(g: GrammarData, start: string, maxCount: int, queue: seq<(string, nat)>, visited: set<string>,
                            generated: seq<string>, forms: seq<string>, depths: seq<nat>, enqueued: seq<string>, level: nat) {
    QueueOk(g, start, queue, visited, level) &&
    (forall w :: w in visited <==> w in enqueued) &&
    enqueued != [] && enqueued[0] == start && Distinct(enqueued) &&
    ResultsOk(g, start, generated, forms, depths, enqueued, level) &&
    |generated| <= (if maxCount < 0 then 0 else maxCount)
  }

  /** Before the first iteration: the start symbol queued at depth 0, nothing generated. */
  lemma SearchStart(g: GrammarData, start: string, maxCount: int)
    ensures Searching(g, start, maxCount, [(start, 0)], {start}, [], [], [], [start], 0)
  {
  }

  /** Taking the head off the queue, which moves the search to the head's level. */
  lemma SearchPop(g: GrammarData, start: string, maxCount: int, queue: seq<(string, nat)>, visited: set<string>,
                  generated: seq<string>, forms: seq<string>, depths: seq<nat>, enqueued: seq<string>, level: nat)
    requires Searching(g, start, maxCount, queue, visited, generated, forms, depths, enqueued, level) && queue != []
    ensures Derives(g, start, queue[0].0, queue[0].1) && queue[0].0 in enqueued && level <= queue[0].1
    ensures Searching(g, start, maxCount, queue[1..], visited, generated, forms, depths, enqueued, queue[0].1)
  {
    PopHead(g, start, queue, visited, level);
    RaiseLevel(g, start, generated, forms, depths, enqueued, level, queue[0].1, []);
    assert enqueued + [] == enqueued;
  }

  /** Collecting the cleaned text of an all-terminal form that is not yet among the results. */
  lemma SearchCollect(g: GrammarData, start: string, maxCount: int, queue: seq<(string, nat)>, visited: set<string>,
                      generated: seq<string>, forms: seq<string>, depths: seq<nat>, enqueued: seq<string>, depth: nat, form: string)
    requires Searching(g, start, maxCount, queue, visited, generated, forms, depths, enqueued, depth)
    requires depth <= MaxDepth && AllTerminal(g, form) && Derives(g, start, form, depth) && form in enqueued
    requires Clean(form) !in generated && |generated| < maxCount
    ensures Searching(g, start, maxCount, queue, visited, generated + [Clean(form)], forms + [form], depths + [depth], enqueued, depth)
  {
    Collect(g, start, generated, forms, depths, enqueued, depth, form, depth);
  }

  /** Queuing the unvisited successors of a form taken at `depth`. */
  lemma SearchExpand(g: GrammarData, start: string, maxCount: int, queue: seq<(string, nat)>, visited: set<string>,
                     generated: seq<string>, forms: seq<string>, depths: seq<nat>, enqueued: seq<string>, depth: nat, current: string)
    requires Searching(g, start, maxCount, queue, visited, generated, forms, depths, enqueued, depth)
    requires depth <= MaxDepth && Derives(g, start, current, depth)
    ensures var added := Unvisited(Successors(g, current), visited);
      Searching(g, start, maxCount, queue + AtDepth(added, depth + 1), visited + Elements(added),
                generated, forms, depths, enqueued + added, depth)
  {
    var added := Unvisited(Successors(g, current), visited);
    Enqueue(g, start, queue, visited, enqueued, current, depth);
    RaiseLevel(g, start, generated, forms, depths, enqueued, depth, depth, added);
    assert (enqueued + added)[0] == enqueued[0];
  }

  /** What the search promises once its loop ends: the returned strings and the ghost record of them. */
  lemma SearchDone(g: GrammarData, start: string, maxCount: int, queue: seq<(string, nat)>, visited: set<string>,
                   generated: seq<string>, forms: seq<string>, depths: seq<nat>, enqueued: seq<string>, level: nat)
    requires Searching(g, start, maxCount, queue, visited, generated, forms, depths, enqueued, level)
    ensures Prefix(generated, maxCount) == generated
    ensures |generated| <= if maxCount < 0 then 0 else maxCount
    ensures Distinct(generated)
    ensures forall k :: 0 <= k < |generated| ==> Epsilon[0] !in generated[k] && ' ' !in generated[k]
    ensures |forms| == |generated| && |depths| == |generated|
    ensures forall k :: 0 <= k < |generated| ==>
      generated[k] == Clean(forms[k]) && AllTerminal(g, forms[k]) && depths[k] <= MaxDepth && Derives(g, start, forms[k], depths[k])
    ensures forall i, j :: 0 <= i < j < |depths| ==> depths[i] <= depths[j]
    ensures enqueued != [] && enqueued[0] == start && Distinct(enqueued)
    ensures forall k :: 0 <= k < |forms| ==> forms[k] in enqueued
  {
    forall k | 0 <= k < |generated| ensures Epsilon[0] !in generated[k] && ' ' !in generated[k] {
      CleanRemovesExactly(forms[k]);
    }
  }

  /** The generator object: the grammar it draws from. */
  class StringGenerator {
    const grammar: GrammarData

    constructor (g: GrammarData)
      ensures grammar == g
    {
      grammar := g;
    }

    /** `_is_terminal_string(string)` */
    method IsTerminalString(s: string) returns (b: bool)
      ensures b == AllTerminal(grammar, s)
    {
      for k := 0 to |s|
        invariant forall j :: 0 <= j < k ==> !IsNonTerminalChar(grammar, s[j])
      {
        if [s[k]] in grammar.nonTerminals {
          return false;
        }
      }
      return true;
    }

    /** `_clean_string(string)` */
    method CleanString(s: string) returns (c: string)
      ensures c == Clean(s)
      ensures Epsilon[0] !in c && ' ' !in c
    {
      c := Clean(s);
      CleanRemovesExactly(s);
    }

    /**
     * `generate_strings(max_count)`. Besides the strings it returns, the
     * method yields as ghost results the all-terminal form and the depth each
     * string came from, and every form ever queued, in queuing order.
     */
    method GenerateStrings(maxCount: int := 10) returns (result: seq<string>, ghost forms: seq<string>, ghost depths: seq<nat>, ghost enqueued: seq<string>)
      requires grammar.startSymbol.Some? || maxCount <= 0
      ensures grammar.startSymbol.None? ==> result == [] && forms == [] && depths == [] && enqueued == []
      ensures |result| <= if maxCount < 0 then 0 else maxCount
      ensures Distinct(result)
      ensures forall k :: 0 <= k < |result| ==> Epsilon[0] !in result[k] && ' ' !in result[k]
      ensures |forms| == |result| && |depths| == |result|
      ensures forall k :: 0 <= k < |result| ==>
        result[k] == Clean(forms[k]) && AllTerminal(grammar, forms[k]) && depths[k] <= MaxDepth &&
        grammar.startSymbol.Some? && Derives(grammar, grammar.startSymbol.value, forms[k], depths[k])
      ensures forall i, j :: 0 <= i < j < |depths| ==> depths[i] <= depths[j]
      ensures grammar.startSymbol.Some? ==> enqueued != [] && enqueued[0] == grammar.startSymbol.value && Distinct(enqueued)
      ensures forall k :: 0 <= k < |forms| ==> forms[k] in enqueued
    {
      if grammar.startSymbol.None? {
        // The loop is never entered, so the missing start symbol is never
        // examined and the result is the empty list.
        return [], [], [], [];
      }
      var start := grammar.startSymbol.value;
      var generated: seq<string> := [];
      var visited: set<string> := {start};
      var queue: seq<(string, nat)> := [(start, 0)];
      forms, depths, enqueued := [], [], [start];
      ghost var level: nat := 0;
      ghost var b := MaxFanout(grammar.productions) + 1;
      SearchStart(grammar, start, maxCount);
      while queue != [] && |generated| < maxCount
        invariant Searching(grammar, start, maxCount, queue, visited, generated, forms, depths, enqueued, level)
        decreases Weight(queue, b)
      {
        ghost var before := queue;
        SearchPop(grammar, start, maxCount, queue, visited, generated, forms, depths, enqueued, level);
        PopLowersWeight(queue, b);
        var current := queue[0].0;
        var depth := queue[0].1;
        queue := queue[1..];
        level := depth;
        if depth > MaxDepth {
          continue;
        }
        var isTerminal := IsTerminalString(current);
        if isTerminal {
          generated, forms, depths := CollectForm(maxCount, current, depth, queue, visited, generated, forms, depths, enqueued);
          continue;
        }
        queue, visited, enqueued := ExpandForm(maxCount, current, depth, before, queue, visited, generated, forms, depths, enqueued, b);
      }
      SearchDone(grammar, start, maxCount, queue, visited, generated, forms, depths, enqueued, level);
      result := Prefix(generated, maxCount);
    }

    /** The branch of the loop body for an all-terminal form: its cleaned text joins the results unless already there. */
    method CollectForm(maxCount: int, current: string, depth: nat, ghost queue: seq<(string, nat)>, ghost visited: set<string>,
                       generated: seq<string>, ghost forms: seq<string>, ghost depths: seq<nat>, ghost enqueued: seq<string>)
      returns (generated': seq<string>, ghost forms': seq<string>, ghost depths': seq<nat>)
      requires grammar.startSymbol.Some?
      requires Searching(grammar, grammar.startSymbol.value, maxCount, queue, visited, generated, forms, depths, enqueued, depth)
      requires depth <= MaxDepth && AllTerminal(grammar, current) && current in enqueued && |generated| < maxCount
      requires Derives(grammar, grammar.startSymbol.value, current, depth)
      ensures generated' == if Clean(current) in generated then generated else generated + [Clean(current)]
      ensures Searching(grammar, grammar.startSymbol.value, maxCount, queue, visited, generated', forms', depths', enqueued, depth)
    {
      var cleaned := CleanString(current);
      generated', forms', depths' := generated, forms, depths;
      if cleaned !in generated {
        SearchCollect(grammar, grammar.startSymbol.value, maxCount, queue, visited, generated, forms, depths, enqueued, depth, current);
        generated' := generated + [cleaned];
        forms' := forms + [current];
        depths' := depths + [depth];
      }
    }

    /** The branch of the loop body for a form with a non-terminal: its unvisited successors join the queue. */
    method ExpandForm(maxCount: int, current: string, depth: nat, ghost before: seq<(string, nat)>, queue: seq<(string, nat)>, visited: set<string>,
                      ghost generated: seq<string>, ghost forms: seq<string>, ghost depths: seq<nat>, ghost enqueued: seq<string>, ghost b: nat)
      returns (queue': seq<(string, nat)>, visited': set<string>, ghost enqueued': seq<string>)
      requires grammar.startSymbol.Some?
      requires Searching(grammar, grammar.startSymbol.value, maxCount, queue, visited, generated, forms, depths, enqueued, depth)
      requires depth <= MaxDepth && Derives(grammar, grammar.startSymbol.value, current, depth)
      requires before == [(current, depth)] + queue && b == MaxFanout(grammar.productions) + 1
      ensures queue' == queue + AtDepth(Unvisited(Successors(grammar, current), visited), depth + 1)
      ensures visited' == visited + Elements(Unvisited(Successors(grammar, current), visited))
      ensures Searching(grammar, grammar.startSymbol.value, maxCount, queue', visited', generated, forms, depths, enqueued', depth)
      ensures Weight(queue', b) < Weight(before, b)
    {
      ghost var added := Unvisited(Successors(grammar, current), visited);
      SearchExpand(grammar, grammar.startSymbol.value, maxCount, queue, visited, generated, forms, depths, enqueued, depth, current);
      ExpandLowersWeight(grammar, current, depth, queue, visited, b);
      queue', visited' := Expand(current, depth, queue, visited);
      enqueued' := enqueued + added;
    }

    /**
     * The expansion in the body of `generate_strings`: the loop over the
     * characters up to the first non-terminal one, and the loop over its
     * right sides queuing the forms not yet visited at depth `depth + 1`.
     */
    method Expand(current: string, depth: nat, queue: seq<(string, nat)>, visited: set<string>)
      returns (queue': seq<(string, nat)>, visited': set<string>)
      ensures queue' == queue + AtDepth(Unvisited(Successors(grammar, current), visited), depth + 1)
      ensures visited' == visited + Elements(Unvisited(Successors(grammar, current), visited))
    {
      queue', visited' := queue, visited;
      var i := 0;
      while i < |current| && [current[i]] !in grammar.nonTerminals
        invariant i <= |current|
        invariant forall k :: 0 <= k < i ==> !IsNonTerminalChar(grammar, current[k])
      {
        i := i + 1;
      }
      assert i == FirstNonTerminal(grammar, current);
      if i < |current| {
        var symbol := [current[i]];
        var rights := if symbol in grammar.productions then grammar.productions[symbol] else [];
        ghost var ws := Successors(grammar, current);
        assert |ws| == |rights|;
        for j := 0 to |rights|
          invariant queue' == queue + AtDepth(Unvisited(ws[..j], visited), depth + 1)
          invariant visited' == visited + Elements(Unvisited(ws[..j], visited))
        {
          var next := current[..i] + rights[j] + current[i + 1..];
          assert next == ws[j];
          UnvisitedStep(ws, j, visited, depth + 1);
          if next !in visited' {
            visited' := visited' + {next};
            queue' := queue' + [(next, depth + 1)];
          }
        }
        assert ws[..|rights|] == ws;
      }
    }
  }
}

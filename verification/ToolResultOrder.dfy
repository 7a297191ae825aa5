/** Reordering of tool results: within each run of user and tool messages, the results are put in the
    order in which the preceding assistant message made the calls.
 */
module ToolResultOrder {
  import opened Wrappers

  /** A conversation message. `calls` lists the ids of its tool calls, if it has a list of them. */
  datatype ChatMessage = ChatMessage(role: string, calls: Option<seq<string>>, toolCallId: string, content: string)

  type CallOrder = map<string, nat>

  predicate IsTool(m: ChatMessage) {
    m.role == "tool"
  }

  predicate InUserBlock(m: ChatMessage) {
    m.role == "user" || m.role == "tool"
  }

  predicate MakesCalls(m: ChatMessage) {
    m.role == "assistant" && m.calls.Some? && m.calls.value != []
  }

  /** Call positions by id; an empty id is not recorded, and a repeated id keeps its last position. */
  function OrderOf(ids: seq<string>): CallOrder {
    if ids == [] then map[]
    else
      var n := |ids| - 1;
      if ids[n] == "" then OrderOf(ids[..n]) else OrderOf(ids[..n])[ids[n] := n]
  }

  /** The call order in force after `m`. */
  function OrderAfter(m: ChatMessage, before: CallOrder): CallOrder {
    if MakesCalls(m) then OrderOf(m.calls.value) else before
  }

  function Key(m: ChatMessage, order: CallOrder): nat {
    if m.toolCallId in order then order[m.toolCallId] else 0
  }

  // ---------- stable sorting ----------

  function Insert(m: ChatMessage, sorted: seq<ChatMessage>, order: CallOrder): (r: seq<ChatMessage>)
    ensures multiset(r) == multiset(sorted) + multiset{m}
    ensures |r| == |sorted| + 1
  {
    if sorted == [] || Key(m, order) <= Key(sorted[0], order) then [m] + sorted
    else
      assert sorted == [sorted[0]] + sorted[1..];
      [sorted[0]] + Insert(m, sorted[1..], order)
  }

  /** The stable sort of the results by call position. */
  function StableSorted(s: seq<ChatMessage>, order: CallOrder): (r: seq<ChatMessage>)
    ensures multiset(r) == multiset(s)
    ensures |r| == |s|
  {
    if s == [] then []
    else
      assert s == [s[0]] + s[1..];
      Insert(s[0], StableSorted(s[1..], order), order)
  }

  predicate Sorted(s: seq<ChatMessage>, order: CallOrder) {
    forall i, j :: 0 <= i < j < |s| ==> Key(s[i], order) <= Key(s[j], order)
  }

  /** The messages of `s` with a given key, in their order. */
  function WithKey(s: seq<ChatMessage>, order: CallOrder, key: nat): seq<ChatMessage> {
    if s == [] then []
    else (if Key(s[0], order) == key then [s[0]] else []) + WithKey(s[1..], order, key)
  }

  lemma {:induction false} InsertSorted(m: ChatMessage, s: seq<ChatMessage>, order: CallOrder)
    requires Sorted(s, order)
    ensures Sorted(Insert(m, s, order), order)
    ensures forall i :: 0 <= i < |s| + 1 ==>
              Key(Insert(m, s, order)[i], order) >= Key(m, order)
              || (s != [] && Key(Insert(m, s, order)[i], order) >= Key(s[0], order))
  {
    if s != [] && Key(m, order) > Key(s[0], order) {
      InsertSorted(m, s[1..], order);
    }
  }

  lemma {:induction false} InsertKeepsKeys(m: ChatMessage, s: seq<ChatMessage>, order: CallOrder, key: nat)
    requires Sorted(s, order)
    ensures WithKey(Insert(m, s, order), order, key) == (if Key(m, order) == key then [m] else []) + WithKey(s, order, key)
  {
    hide Key, WithKey;
    if s == [] || Key(m, order) <= Key(s[0], order) {
      WithKeyCons(m, s, order, key);
    } else {
      var rest := Insert(m, s[1..], order);
      InsertKeepsKeys(m, s[1..], order, key);
      assert Insert(m, s, order) == [s[0]] + rest && s == [s[0]] + s[1..];
      WithKeyCons(s[0], rest, order, key);
      WithKeyCons(s[0], s[1..], order, key);
      OtherKey(m, s, order, key);
    }
  }

  lemma {:induction false} WithKeyCons(m: ChatMessage, s: seq<ChatMessage>, order: CallOrder, key: nat)
    ensures WithKey([m] + s, order, key) == (if Key(m, order) == key then [m] else []) + WithKey(s, order, key)
  {
    hide Key;
    assert ([m] + s)[1..] == s;
  }

  /** Only one of two messages with different keys is picked. */
  lemma OtherKey(m: ChatMessage, s: seq<ChatMessage>, order: CallOrder, key: nat)
    requires s != [] && Key(m, order) > Key(s[0], order)
    ensures var x, y, r := if Key(s[0], order) == key then [s[0]] else [], if Key(m, order) == key then [m] else [], WithKey(s[1..], order, key);
      x + (y + r) == y + (x + r)
  {
    hide Key, WithKey;
    var x, y, r := if Key(s[0], order) == key then [s[0]] else [], if Key(m, order) == key then [m] else [], WithKey(s[1..], order, key);
    assert x == [] || y == [];
    assert x == [] ==> x + (y + r) == y + r == y + (x + r);
    assert y == [] ==> x + (y + r) == x + r == y + (x + r);
  }

  /** Sorting orders the results and keeps the order of those with the same call position. */
  lemma {:induction false} StableSortedIs(s: seq<ChatMessage>, order: CallOrder)
    ensures Sorted(StableSorted(s, order), order)
    ensures forall key :: WithKey(StableSorted(s, order), order, key) == WithKey(s, order, key)
  {
    if s != [] {
      StableSortedIs(s[1..], order);
      var rest := StableSorted(s[1..], order);
      InsertSorted(s[0], rest, order);
      forall key ensures WithKey(StableSorted(s, order), order, key) == WithKey(s, order, key) {
        InsertKeepsKeys(s[0], rest, order, key);
      }
    }
  }

  /** There is only one sorted arrangement that keeps the order within each key. */
  lemma {:induction false} StableUnique(a: seq<ChatMessage>, b: seq<ChatMessage>, order: CallOrder)
    requires Sorted(a, order) && Sorted(b, order)
    requires forall key :: WithKey(a, order, key) == WithKey(b, order, key)
    ensures a == b
    decreases |a|
  {
    if a == [] {
      if b != [] {
        LeastFirst(b, a, order);
      }
    } else {
      var k := Key(a[0], order);
      assert WithKey(a, order, k) == [a[0]] + WithKey(a[1..], order, k);
      FirstWithKey(b, order, k);
      LeastFirst(a, b, order);
      assert a[0] == b[0] by {
        assert WithKey(b, order, k) == [b[0]] + WithKey(b[1..], order, k);
        assert WithKey(a, order, k)[0] == WithKey(b, order, k)[0];
      }
      forall key ensures WithKey(a[1..], order, key) == WithKey(b[1..], order, key) {
        TailWithKey(a, order, key);
        TailWithKey(b, order, key);
      }
      StableUnique(a[1..], b[1..], order);
      assert a == [a[0]] + a[1..] && b == [b[0]] + b[1..];
    }
  }

  lemma TailWithKey(s: seq<ChatMessage>, order: CallOrder, key: nat)
    requires s != []
    ensures WithKey(s[1..], order, key)
         == if Key(s[0], order) == key then WithKey(s, order, key)[1..] else WithKey(s, order, key)
  {
  }

  lemma {:induction false} FirstWithKey(s: seq<ChatMessage>, order: CallOrder, key: nat)
    requires WithKey(s, order, key) != []
    ensures exists i :: 0 <= i < |s| && Key(s[i], order) == key
  {
    if Key(s[0], order) != key {
      FirstWithKey(s[1..], order, key);
      var i :| 0 <= i < |s[1..]| && Key(s[1..][i], order) == key;
      assert Key(s[i + 1], order) == key;
    }
  }

  lemma LeastFirst(a: seq<ChatMessage>, b: seq<ChatMessage>, order: CallOrder)
    requires Sorted(a, order) && Sorted(b, order) && a != []
    requires forall key :: WithKey(a, order, key) == WithKey(b, order, key)
    ensures b != [] && Key(a[0], order) == Key(b[0], order)
  {
    hide Sorted, WithKey;
    HasOwnKey(a, order);
    KeyAtLeast(b, order, Key(a[0], order));
    HasOwnKey(b, order);
    KeyAtLeast(a, order, Key(b[0], order));
  }

  lemma HasOwnKey(s: seq<ChatMessage>, order: CallOrder)
    requires s != []
    ensures WithKey(s, order, Key(s[0], order)) != []
  {
  }

  lemma KeyAtLeast(s: seq<ChatMessage>, order: CallOrder, key: nat)
    requires Sorted(s, order) && WithKey(s, order, key) != []
    ensures s != [] && Key(s[0], order) <= key
  {
    FirstWithKey(s, order, key);
  }

  // ---------- one run ----------

  function Results(run: seq<ChatMessage>): (r: seq<ChatMessage>)
    ensures |r| <= |run| && forall i :: 0 <= i < |r| ==> IsTool(r[i])
  {
    if run == [] then []
    else (if IsTool(run[0]) then [run[0]] else []) + Results(run[1..])
  }

  /** Writes the results, in order, over the tool messages of the run. */
  function Placed(run: seq<ChatMessage>, results: seq<ChatMessage>): (r: seq<ChatMessage>)
    requires |results| == |Results(run)|
    ensures |r| == |run|
  {
    if run == [] then []
    else if IsTool(run[0]) then [results[0]] + Placed(run[1..], results[1..])
    else [run[0]] + Placed(run[1..], results)
  }

  /** A run is left alone if it has fewer than two results or no call position is known. */
  function SortedRun(run: seq<ChatMessage>, order: CallOrder): (r: seq<ChatMessage>)
    ensures |r| == |run|
  {
    if |Results(run)| > 1 && order != map[] then Placed(run, StableSorted(Results(run), order)) else run
  }

  function RunLength(msgs: seq<ChatMessage>): (n: nat)
    ensures n <= |msgs|
    ensures forall i :: 0 <= i < n ==> InUserBlock(msgs[i])
    ensures n < |msgs| ==> !InUserBlock(msgs[n])
  {
    if msgs == [] || !InUserBlock(msgs[0]) then 0 else 1 + RunLength(msgs[1..])
  }

  /** The whole pass, with the call order known so far. */
  function Reordered(msgs: seq<ChatMessage>, order: CallOrder): (r: seq<ChatMessage>)
    ensures |r| == |msgs|
    decreases |msgs|
  {
    if msgs == [] then []
    else if !InUserBlock(msgs[0]) then [msgs[0]] + Reordered(msgs[1..], OrderAfter(msgs[0], order))
    else
      var n := RunLength(msgs);
      SortedRun(msgs[..n], order) + Reordered(msgs[n..], order)
  }

  // ---------- the loops ----------

  method CallPositions(ids: seq<string>) returns (order: CallOrder)
    ensures order == OrderOf(ids)
  {
    order := map[];
    for idx := 0 to |ids|
      invariant order == OrderOf(ids[..idx])
    {
      assert ids[..idx + 1][..idx] == ids[..idx];
      if ids[idx] != "" {
        order := order[ids[idx] := idx];
      }
    }
    assert ids[..|ids|] == ids;
  }

  /** The positions of the tool messages of `run`, counted from `base`. */
  function Positions(run: seq<ChatMessage>, base: nat): (r: seq<nat>)
    ensures |r| == |Results(run)|
  {
    if run == [] then []
    else (if IsTool(run[0]) then [base] else []) + Positions(run[1..], base + 1)
  }

  ghost predicate Points(ps: seq<nat>, run: seq<ChatMessage>, base: nat) {
    && |ps| == |Results(run)|
    && (forall k :: 0 <= k < |ps| ==> PointAt(ps[k], Results(run)[k], run, base))
    && (forall j, k :: 0 <= j < k < |ps| ==> ps[j] < ps[k])
  }

  lemma PositionsStep(run: seq<ChatMessage>, base: nat)
    requires run != []
    ensures Positions(run, base) == if IsTool(run[0]) then [base] + Positions(run[1..], base + 1) else Positions(run[1..], base + 1)
    ensures Results(run) == if IsTool(run[0]) then [run[0]] + Results(run[1..]) else Results(run[1..])
  {
  }

  ghost predicate PointAt(p: nat, m: ChatMessage, run: seq<ChatMessage>, base: nat) {
    base <= p < base + |run| && run[p - base] == m
  }

  lemma PointsShift(ps: seq<nat>, run: seq<ChatMessage>, base: nat)
    requires run != [] && Points(ps, run[1..], base + 1)
    ensures Points(if IsTool(run[0]) then [base] + ps else ps, run, base)
  {
    hide Results, PointAt;
    PositionsStep(run, base);
    var rest := Results(run[1..]);
    forall k | 0 <= k < |ps| ensures PointAt(ps[k], rest[k], run, base) && base < ps[k] {
      PointHigher(ps[k], rest[k], run, base);
    }
    PointFirst(run, base);
  }

  lemma PointFirst(run: seq<ChatMessage>, base: nat)
    requires run != []
    ensures PointAt(base, run[0], run, base)
  {
  }

  lemma PointHigher(p: nat, m: ChatMessage, run: seq<ChatMessage>, base: nat)
    requires run != [] && PointAt(p, m, run[1..], base + 1)
    ensures PointAt(p, m, run, base) && base < p
  {
  }

  lemma {:induction false} PositionsAre(run: seq<ChatMessage>, base: nat)
    ensures Points(Positions(run, base), run, base)
  {
    hide Points, Results, Positions;
    if run == [] {
      NoPositions(base);
    } else {
      PositionsAre(run[1..], base + 1);
      PositionsStep(run, base);
      PointsShift(Positions(run[1..], base + 1), run, base);
    }
  }

  lemma NoPositions(base: nat)
    ensures Positions([], base) == [] && Results([]) == [] && Points([], [], base)
  {
  }

  lemma {:induction false} PositionsSnoc(run: seq<ChatMessage>, m: ChatMessage, base: nat)
    ensures Positions(run + [m], base) == Positions(run, base) + (if IsTool(m) then [base + |run|] else [])
  {
    hide Results, Positions;
    NoPositions(base);
    PositionsStep(run + [m], base);
    if run == [] {
      NoPositions(base + 1);
      assert run + [m] == [m] && [m][1..] == [];
    } else {
      assert (run + [m])[1..] == run[1..] + [m];
      PositionsStep(run, base);
      PositionsSnoc(run[1..], m, base + 1);
    }
  }

  /** Finds the end of the run starting at `i` and the positions of the tool messages in it. */
  method CollectRun(a: array<ChatMessage>, i: nat) returns (runEnd: nat, positions: seq<nat>)
    requires i < a.Length
    ensures i <= runEnd <= a.Length && runEnd == i + RunLength(a[i..])
    ensures positions == Positions(a[i..runEnd], i)
  {
    hide Positions, Results, RunLength, InUserBlock;
    NoPositions(i);
    runEnd, positions := i, [];
    assert a[i..i] == [];
    while runEnd < a.Length && InUserBlock(a[runEnd])
      invariant i <= runEnd <= a.Length
      invariant runEnd - i + RunLength(a[runEnd..]) == RunLength(a[i..])
      invariant positions == Positions(a[i..runEnd], i)
    {
      RunLengthStep(a[runEnd..]);
      PositionsSnoc(a[i..runEnd], a[runEnd], i);
      assert a[i..runEnd + 1] == a[i..runEnd] + [a[runEnd]];
      assert a[runEnd..][1..] == a[runEnd + 1..];
      if IsTool(a[runEnd]) {
        positions := positions + [runEnd];
      }
      runEnd := runEnd + 1;
    }
    RunLengthStep(a[runEnd..]);
  }

  lemma RunLengthStep(msgs: seq<ChatMessage>)
    ensures RunLength(msgs) == if msgs == [] || !InUserBlock(msgs[0]) then 0 else 1 + RunLength(msgs[1..])
  {
    hide InUserBlock;
  }

  /** `out` has the results at those positions. */
  ghost predicate ResultsAt(ps: seq<nat>, rs: seq<ChatMessage>, out: seq<ChatMessage>, base: nat) {
    |rs| == |ps| && forall k :: 0 <= k < |ps| ==> base <= ps[k] < base + |out| && out[ps[k] - base] == rs[k]
  }

  ghost predicate OthersKept(run: seq<ChatMessage>, out: seq<ChatMessage>) {
    |out| == |run| && forall j :: 0 <= j < |run| ==> !IsTool(run[j]) ==> out[j] == run[j]
  }

  /** `out` has the results at the tool positions and the run's own messages elsewhere. */
  ghost predicate Overwritten(run: seq<ChatMessage>, rs: seq<ChatMessage>, out: seq<ChatMessage>, base: nat) {
    var ps := Positions(run, base);
    Points(ps, run, base) && ResultsAt(ps, rs, out, base) && OthersKept(run, out)
  }

  lemma ResultsShift(ps: seq<nat>, rs: seq<ChatMessage>, out: seq<ChatMessage>, base: nat)
    requires out != [] && ResultsAt(ps, rs, out, base) && forall k :: 0 <= k < |ps| ==> base < ps[k]
    ensures ResultsAt(ps, rs, out[1..], base + 1)
  {
    forall k | 0 <= k < |ps| ensures out[1..][ps[k] - (base + 1)] == rs[k] {
      assert out[ps[k] - base] == rs[k];
    }
  }

  lemma ResultsTail(ps: seq<nat>, rs: seq<ChatMessage>, out: seq<ChatMessage>, base: nat)
    requires ResultsAt([base] + ps, rs, out, base)
    ensures rs != [] && out != [] && out[0] == rs[0] && ResultsAt(ps, rs[1..], out, base)
  {
    var all := [base] + ps;
    assert all[0] == base && out[all[0] - base] == rs[0];
    forall k | 0 <= k < |ps| ensures base <= ps[k] < base + |out| && out[ps[k] - base] == rs[1..][k] {
      assert all[k + 1] == ps[k] && out[all[k + 1] - base] == rs[k + 1];
    }
  }

  lemma OthersTail(run: seq<ChatMessage>, out: seq<ChatMessage>)
    requires run != [] && OthersKept(run, out)
    ensures OthersKept(run[1..], out[1..]) && (!IsTool(run[0]) ==> out[0] == run[0])
  {
  }

  lemma OverwrittenTool(run: seq<ChatMessage>, rs: seq<ChatMessage>, out: seq<ChatMessage>, base: nat)
    requires run != [] && IsTool(run[0]) && Overwritten(run, rs, out, base)
    ensures rs != [] && |out| == |run| && out[0] == rs[0] && Overwritten(run[1..], rs[1..], out[1..], base + 1)
  {
    hide Results, Points, Positions, ResultsAt;
    var qs := Positions(run[1..], base + 1);
    PositionsAre(run[1..], base + 1);
    PositionsStep(run, base);
    PointsAbove(qs, run[1..], base + 1);
    ResultsTail(qs, rs, out, base);
    ResultsShift(qs, rs[1..], out, base);
    OthersTail(run, out);
  }

  lemma OverwrittenOther(run: seq<ChatMessage>, rs: seq<ChatMessage>, out: seq<ChatMessage>, base: nat)
    requires run != [] && !IsTool(run[0]) && Overwritten(run, rs, out, base)
    ensures |out| == |run| && out[0] == run[0] && Overwritten(run[1..], rs, out[1..], base + 1)
  {
    hide Results, Points, Positions, ResultsAt;
    var qs := Positions(run[1..], base + 1);
    PositionsAre(run[1..], base + 1);
    PositionsStep(run, base);
    PointsAbove(qs, run[1..], base + 1);
    ResultsShift(qs, rs, out, base);
    OthersTail(run, out);
  }

  lemma PointsAbove(ps: seq<nat>, run: seq<ChatMessage>, base: nat)
    requires Points(ps, run, base)
    ensures forall k :: 0 <= k < |ps| ==> base <= ps[k] < base + |run|
  {
  }

  /** Overwriting the tool positions one by one places the results. */
  lemma {:induction false} PlacedByPosition(run: seq<ChatMessage>, rs: seq<ChatMessage>, out: seq<ChatMessage>, base: nat)
    requires |rs| == |Results(run)| && Overwritten(run, rs, out, base)
    ensures out == Placed(run, rs)
    decreases run
  {
    hide Overwritten;
    OverwrittenLength(run, rs, out, base);
    if run != [] {
      if IsTool(run[0]) {
        OverwrittenTool(run, rs, out, base);
      } else {
        OverwrittenOther(run, rs, out, base);
      }
      PlacedByPosition(run[1..], if IsTool(run[0]) then rs[1..] else rs, out[1..], base + 1);
      assert out == [out[0]] + out[1..];
    }
  }

  lemma OverwrittenLength(run: seq<ChatMessage>, rs: seq<ChatMessage>, out: seq<ChatMessage>, base: nat)
    requires Overwritten(run, rs, out, base)
    ensures |out| == |run|
  {
  }

  /** Stable sorting is a library routine; its result is the function `StableSorted`. */
  method StableSort(results: array<ChatMessage>, order: CallOrder)
    modifies results
    ensures results[..] == StableSorted(old(results[..]), order)
  {
    var sorted := StableSorted(results[..], order);
    for k := 0 to results.Length
      invariant results[..k] == sorted[..k]
    {
      results[k] := sorted[k];
    }
    assert results[..results.Length] == results[..] && sorted[..results.Length] == sorted;
  }

  /** Writes the results back to their positions. */
  method PlaceResults(a: array<ChatMessage>, positions: seq<nat>, results: seq<ChatMessage>)
    requires |positions| == |results|
    requires forall k :: 0 <= k < |positions| ==> positions[k] < a.Length
    requires forall j, k :: 0 <= j < k < |positions| ==> positions[j] < positions[k]
    modifies a
    ensures forall k :: 0 <= k < |positions| ==> a[positions[k]] == results[k]
    ensures forall j :: 0 <= j < a.Length && j !in positions ==> a[j] == old(a[j])
  {
    for k := 0 to |positions|
      invariant forall j :: 0 <= j < k ==> a[positions[j]] == results[j]
      invariant forall j :: 0 <= j < a.Length && j !in positions ==> a[j] == old(a[j])
    {
      a[positions[k]] := results[k];
    }
  }

  /** Sorts the results of the run `a[i..runEnd]` in place. */
  method SortRun(a: array<ChatMessage>, i: nat, runEnd: nat, positions: seq<nat>, order: CallOrder)
    requires i <= runEnd <= a.Length && positions == Positions(a[i..runEnd], i)
    modifies a
    ensures a[..] == old(a[..i]) + SortedRun(old(a[i..runEnd]), order) + old(a[runEnd..])
  {
    hide Positions, Placed, StableSorted, Results;
    ghost var run, all := a[i..runEnd], a[..];
    if |positions| > 1 && order != map[] {
      PositionsAre(run, i);
      var results := new ChatMessage[|positions|](k requires 0 <= k < |positions| && positions[k] < a.Length reads a => a[positions[k]]);
      assert results[..] == Results(run);
      StableSort(results, order);
      PlaceResults(a, positions, results[..]);
      RunRewritten(a[..], all, i, runEnd, StableSorted(Results(run), order));
    } else {
      assert all == all[..i] + run + all[runEnd..];
    }
  }

  lemma NotPointed(run: seq<ChatMessage>, i: nat, j: nat)
    requires j < |run| && !IsTool(run[j])
    ensures i + j !in Positions(run, i)
  {
    PositionsAre(run, i);
    var ps := Positions(run, i);
    forall k | 0 <= k < |ps| ensures ps[k] != i + j {
      assert IsTool(Results(run)[k]);
    }
  }

  lemma RunOverwritten(now: seq<ChatMessage>, all: seq<ChatMessage>, i: nat, runEnd: nat, rs: seq<ChatMessage>)
    requires i <= runEnd <= |all| == |now| && |rs| == |Results(all[i..runEnd])|
    requires forall k :: 0 <= k < |rs| ==>
               var p := Positions(all[i..runEnd], i)[k]; p < |now| && now[p] == rs[k]
    requires forall j :: 0 <= j < |now| && j !in Positions(all[i..runEnd], i) ==> now[j] == all[j]
    ensures Overwritten(all[i..runEnd], rs, now[i..runEnd], i)
  {
    hide Positions, Results, Points;
    var run, out, ps := all[i..runEnd], now[i..runEnd], Positions(all[i..runEnd], i);
    PositionsAre(run, i);
    PointsAbove(ps, run, i);
    forall j | 0 <= j < |run| && !IsTool(run[j]) ensures out[j] == run[j] {
      NotPointed(run, i, j);
    }
    forall k | 0 <= k < |ps| ensures out[ps[k] - i] == rs[k] {
      assert now[ps[k]] == rs[k];
    }
  }

  lemma RunRewritten(now: seq<ChatMessage>, all: seq<ChatMessage>, i: nat, runEnd: nat, rs: seq<ChatMessage>)
    requires i <= runEnd <= |all| == |now| && |rs| == |Results(all[i..runEnd])|
    requires forall k :: 0 <= k < |rs| ==>
               var p := Positions(all[i..runEnd], i)[k]; p < |now| && now[p] == rs[k]
    requires forall j :: 0 <= j < |now| && j !in Positions(all[i..runEnd], i) ==> now[j] == all[j]
    ensures now == all[..i] + Placed(all[i..runEnd], rs) + all[runEnd..]
  {
    hide Positions, Placed, Results, Overwritten;
    RunOverwritten(now, all, i, runEnd, rs);
    PlacedByPosition(all[i..runEnd], rs, now[i..runEnd], i);
    OutsideRun(now, all, i, runEnd);
    assert now == now[..i] + now[i..runEnd] + now[runEnd..];
  }

  lemma OutsideRun(now: seq<ChatMessage>, all: seq<ChatMessage>, i: nat, runEnd: nat)
    requires i <= runEnd <= |all| == |now|
    requires forall j :: 0 <= j < |now| && j !in Positions(all[i..runEnd], i) ==> now[j] == all[j]
    ensures now[..i] == all[..i] && now[runEnd..] == all[runEnd..]
  {
    PositionsAre(all[i..runEnd], i);
  }

  lemma {:induction false} NextMessage(done: seq<ChatMessage>, rest: seq<ChatMessage>, order: CallOrder)
    requires rest != [] && !InUserBlock(rest[0])
    ensures var order' := OrderAfter(rest[0], order);
            done + Reordered(rest, order) == done + [rest[0]] + Reordered(rest[1..], order')
  {
    hide Reordered, OrderAfter;
    MessageFirst(rest, order);
    Regrouped(done, [rest[0]], Reordered(rest[1..], OrderAfter(rest[0], order)));
  }

  lemma {:induction false} MessageFirst(rest: seq<ChatMessage>, order: CallOrder)
    requires rest != [] && !InUserBlock(rest[0])
    ensures Reordered(rest, order) == [rest[0]] + Reordered(rest[1..], OrderAfter(rest[0], order))
  {
    hide SortedRun, RunLength, OrderAfter;
  }

  lemma Regrouped(a: seq<ChatMessage>, b: seq<ChatMessage>, c: seq<ChatMessage>)
    ensures a + (b + c) == a + b + c
  {
  }

  lemma {:induction false} NextRun(done: seq<ChatMessage>, rest: seq<ChatMessage>, order: CallOrder)
    requires rest != [] && InUserBlock(rest[0])
    ensures var n := RunLength(rest);
            done + Reordered(rest, order) == done + SortedRun(rest[..n], order) + Reordered(rest[n..], order)
  {
    hide SortedRun, RunLength;
    var n := RunLength(rest);
    assert Reordered(rest, order) == SortedRun(rest[..n], order) + Reordered(rest[n..], order);
    Regrouped(done, SortedRun(rest[..n], order), Reordered(rest[n..], order));
  }

  method SortToolResults(messages: seq<ChatMessage>) returns (adjusted: array<ChatMessage>)
    ensures fresh(adjusted) && adjusted[..] == Reordered(messages, map[])
  {
    hide Reordered, SortedRun, RunLength;
    adjusted := new ChatMessage[|messages|](k requires 0 <= k < |messages| => messages[k]);
    assert adjusted[..] == messages;
    var order: CallOrder := map[];
    var i := 0;
    while i < adjusted.Length
      invariant 0 <= i <= adjusted.Length && fresh(adjusted)
      invariant adjusted[..i] + Reordered(adjusted[i..], order) == Reordered(messages, map[])
    {
      ghost var done, rest := adjusted[..i], adjusted[i..];
      if !InUserBlock(adjusted[i]) {
        NextMessage(done, rest, order);
        assert rest[1..] == adjusted[i + 1..] && adjusted[..i + 1] == done + [rest[0]];
        if MakesCalls(adjusted[i]) {
          order := CallPositions(adjusted[i].calls.value);
        }
        i := i + 1;
      } else {
        NextRun(done, rest, order);
        i := SortNextRun(adjusted, i, order);
      }
    }
    assert adjusted[..i] == adjusted[..] && adjusted[i..] == [];
    NothingLeft(order);
  }

  lemma NothingLeft(order: CallOrder)
    ensures Reordered([], order) == []
  {
  }

  method SortNextRun(adjusted: array<ChatMessage>, i: nat, order: CallOrder) returns (runEnd: nat)
    requires i < adjusted.Length && InUserBlock(adjusted[i])
    modifies adjusted
    ensures i < runEnd <= adjusted.Length && runEnd == i + RunLength(old(adjusted[i..]))
    ensures var rest := old(adjusted[i..]);
            && adjusted[..runEnd] == old(adjusted[..i]) + SortedRun(rest[..runEnd - i], order)
            && adjusted[runEnd..] == rest[runEnd - i..]
  {
    hide SortedRun;
    var positions;
    runEnd, positions := CollectRun(adjusted, i);
    ghost var rest := adjusted[i..];
    assert rest[..runEnd - i] == adjusted[i..runEnd] && rest[runEnd - i..] == adjusted[runEnd..];
    ghost var head, tail := adjusted[..i] + SortedRun(adjusted[i..runEnd], order), adjusted[runEnd..];
    SortRun(adjusted, i, runEnd, positions, order);
    assert adjusted[..] == head + tail && |head| == runEnd;
    assert (head + tail)[..runEnd] == head && (head + tail)[runEnd..] == tail;
    assert adjusted[..runEnd] == adjusted[..][..runEnd] && adjusted[runEnd..] == adjusted[..][runEnd..];
  }

  // ---------- what the pass keeps ----------

  /** Same roles everywhere, same messages wherever the role is not `tool`. */
  ghost predicate SameButResults(a: seq<ChatMessage>, b: seq<ChatMessage>) {
    && |a| == |b|
    && forall i :: 0 <= i < |a| ==> a[i].role == b[i].role && (!IsTool(b[i]) ==> a[i] == b[i])
  }

  lemma {:induction false} PlacedKeeps(run: seq<ChatMessage>, rs: seq<ChatMessage>)
    requires |rs| == |Results(run)| && (forall i :: 0 <= i < |rs| ==> IsTool(rs[i]))
    ensures SameButResults(Placed(run, rs), run)
    ensures Results(Placed(run, rs)) == rs
    decreases run
  {
    if run != [] {
      var p := Placed(run, rs);
      if IsTool(run[0]) {
        PlacedKeeps(run[1..], rs[1..]);
        assert p[1..] == Placed(run[1..], rs[1..]);
        assert rs == [rs[0]] + rs[1..];
      } else {
        PlacedKeeps(run[1..], rs);
        assert p[1..] == Placed(run[1..], rs);
      }
    }
  }

  lemma {:induction false} PlacedPermutes(run: seq<ChatMessage>, rs: seq<ChatMessage>)
    requires |rs| == |Results(run)|
    ensures multiset(Placed(run, rs)) + multiset(Results(run)) == multiset(run) + multiset(rs)
    decreases run
  {
    hide *;
    if run == [] {
      NoPositions(0);
      NothingPlaced();
    } else {
      PositionsStep(run, 0);
      var x, rest := run[0], run[1..];
      assert run == [x] + rest;
      MultisetCons(x, rest);
      if IsTool(x) {
        PlacedTool(run, rs);
        var y, ys := rs[0], rs[1..];
        assert rs == [y] + ys;
        PlacedPermutes(rest, ys);
        MultisetCons(x, Results(rest));
        MultisetCons(y, ys);
        MultisetCons(y, Placed(rest, ys));
        AddTwo(multiset{x}, multiset{y}, multiset(Placed(rest, ys)), multiset(Results(rest)), multiset(rest), multiset(ys));
      } else {
        PlacedOther(run, rs);
        PlacedPermutes(rest, rs);
        MultisetCons(x, Placed(rest, rs));
        AddOne(multiset{x}, multiset(Placed(rest, rs)), multiset(Results(rest)), multiset(rest), multiset(rs));
      }
    }
  }

  lemma AddOne(x: multiset<ChatMessage>, p: multiset<ChatMessage>, r: multiset<ChatMessage>,
               q: multiset<ChatMessage>, s: multiset<ChatMessage>)
    requires p + r == q + s
    ensures (x + p) + r == (x + q) + s
  {
    assert (x + p) + r == x + (p + r) && (x + q) + s == x + (q + s);
  }

  lemma AddTwo(x: multiset<ChatMessage>, y: multiset<ChatMessage>, p: multiset<ChatMessage>, r: multiset<ChatMessage>,
               q: multiset<ChatMessage>, s: multiset<ChatMessage>)
    requires p + r == q + s
    ensures (y + p) + (x + r) == (x + q) + (y + s)
  {
    assert (y + p) + (x + r) == (x + y) + (p + r) && (x + q) + (y + s) == (x + y) + (q + s);
  }

  lemma MultisetCons(m: ChatMessage, s: seq<ChatMessage>)
    ensures multiset([m] + s) == multiset{m} + multiset(s)
  {
  }

  lemma NothingPlaced()
    ensures Results([]) == [] && Placed([], []) == []
  {
  }

  lemma PlacedTool(run: seq<ChatMessage>, rs: seq<ChatMessage>)
    requires run != [] && IsTool(run[0]) && |rs| == |Results(run)|
    ensures |rs| == 1 + |Results(run[1..])| && Placed(run, rs) == [rs[0]] + Placed(run[1..], rs[1..])
  {
  }

  lemma PlacedOther(run: seq<ChatMessage>, rs: seq<ChatMessage>)
    requires run != [] && !IsTool(run[0]) && |rs| == |Results(run)|
    ensures |rs| == |Results(run[1..])| && Placed(run, rs) == [run[0]] + Placed(run[1..], rs)
  {
  }

  lemma {:induction false} SameMembers(a: seq<ChatMessage>, b: seq<ChatMessage>)
    requires multiset(a) == multiset(b) && forall i :: 0 <= i < |b| ==> IsTool(b[i])
    ensures forall i :: 0 <= i < |a| ==> IsTool(a[i])
  {
    forall i | 0 <= i < |a| ensures IsTool(a[i]) {
      assert a[i] in multiset(a);
      assert a[i] in multiset(b);
      assert a[i] in b;
    }
  }

  /** A run keeps its members and all but its results; its results come out sorted and stable. */
  lemma RunIsSorted(run: seq<ChatMessage>, order: CallOrder)
    ensures var r := SortedRun(run, order);
            && SameButResults(r, run) && multiset(r) == multiset(run)
            && (order != map[] ==> Results(r) == StableSorted(Results(run), order))
            && (order == map[] ==> r == run)
  {
    hide Placed, Results, SameButResults;
    if |Results(run)| > 1 && order != map[] {
      var rs := StableSorted(Results(run), order);
      SameMembers(rs, Results(run));
      PlacedKeeps(run, rs);
      PlacedPermutes(run, rs);
      Cancel(multiset(Placed(run, rs)), multiset(run), multiset(rs));
    } else {
      SameAsItself(run);
      SortedShort(Results(run), order);
    }
  }

  lemma Cancel(a: multiset<ChatMessage>, b: multiset<ChatMessage>, c: multiset<ChatMessage>)
    requires a + c == b + c
    ensures a == b
  {
    assert a == (a + c) - c && b == (b + c) - c;
  }

  lemma SameAsItself(s: seq<ChatMessage>)
    ensures SameButResults(s, s)
  {
  }

  lemma SortedShort(s: seq<ChatMessage>, order: CallOrder)
    ensures |s| <= 1 ==> StableSorted(s, order) == s
  {
    if |s| == 1 {
      assert s[1..] == [] && Insert(s[0], [], order) == [s[0]] + [];
    }
  }

  lemma SameConcat(a: seq<ChatMessage>, b: seq<ChatMessage>, c: seq<ChatMessage>, d: seq<ChatMessage>)
    requires SameButResults(a, c) && SameButResults(b, d)
    ensures SameButResults(a + b, c + d)
    ensures multiset(a) == multiset(c) && multiset(b) == multiset(d) ==> multiset(a + b) == multiset(c + d)
  {
  }

  /** The pass permutes the conversation, and only tool results move, among tool positions. */
  lemma {:induction false} ReorderedKeeps(msgs: seq<ChatMessage>, order: CallOrder)
    ensures SameButResults(Reordered(msgs, order), msgs)
    ensures multiset(Reordered(msgs, order)) == multiset(msgs)
    decreases |msgs|
  {
    hide SameButResults, SortedRun, RunLength, OrderAfter, Reordered;
    SameAsItself([]);
    if msgs == [] {
      NothingLeft(order);
    } else if InUserBlock(msgs[0]) {
      FirstRun(msgs);
      var run, rest := msgs[..RunLength(msgs)], msgs[RunLength(msgs)..];
      assert msgs == run + rest;
      RunIsSorted(run, order);
      ReorderedKeeps(rest, order);
      RunComesFirst(run, rest, order);
      SameConcat(SortedRun(run, order), Reordered(rest, order), run, rest);
    } else {
      var m, rest, order' := msgs[0], msgs[1..], OrderAfter(msgs[0], order);
      assert msgs == [m] + rest;
      ReorderedKeeps(rest, order');
      MessageComesFirst(m, rest, order);
      SameAsItself([m]);
      SameConcat([m], Reordered(rest, order'), [m], rest);
    }
  }

  lemma FirstRun(msgs: seq<ChatMessage>)
    requires msgs != [] && InUserBlock(msgs[0])
    ensures RunLength(msgs) > 0 && !MakesCalls(msgs[0])
  {
  }

  // ---------- which order applies to which run ----------

  /** The call order in force after `msgs`: that of the last assistant message with tool calls. */
  function LatestOrder(msgs: seq<ChatMessage>, before: CallOrder): CallOrder {
    if msgs == [] then before
    else OrderAfter(msgs[|msgs| - 1], LatestOrder(msgs[..|msgs| - 1], before))
  }

  lemma {:induction false} LatestOrderFrom(m: ChatMessage, rest: seq<ChatMessage>, before: CallOrder)
    ensures LatestOrder([m] + rest, before)
         == LatestOrder(rest, OrderAfter(m, before))
    decreases |rest|
  {
    hide OrderOf, MakesCalls;
    if rest == [] {
      assert [m] + rest == [m] && [m][..0] == [];
    } else {
      var all := [m] + rest;
      assert all[..|all| - 1] == [m] + rest[..|rest| - 1] && all[|all| - 1] == rest[|rest| - 1];
      LatestOrderFrom(m, rest[..|rest| - 1], before);
    }
  }

  lemma {:induction false} LatestOrderSkips(run: seq<ChatMessage>, rest: seq<ChatMessage>, before: CallOrder)
    requires forall i :: 0 <= i < |run| ==> InUserBlock(run[i])
    ensures LatestOrder(run + rest, before) == LatestOrder(rest, before)
    decreases run
  {
    if run == [] {
      assert run + rest == rest;
    } else {
      LatestOrderFrom(run[0], run[1..] + rest, before);
      assert run + rest == [run[0]] + (run[1..] + rest);
      LatestOrderSkips(run[1..], rest, before);
    }
  }

  /** A run with nothing of a user block right before or right after it. */
  ghost predicate MaximalRun(pre: seq<ChatMessage>, run: seq<ChatMessage>, post: seq<ChatMessage>) {
    && run != [] && (forall i :: 0 <= i < |run| ==> InUserBlock(run[i]))
    && (pre != [] ==> !InUserBlock(pre[|pre| - 1]))
    && (post != [] ==> !InUserBlock(post[0]))
  }

  /** Each maximal run comes out sorted by the calls of the latest assistant message before it. */
  lemma {:induction false} EachRunSorted(pre: seq<ChatMessage>, run: seq<ChatMessage>, post: seq<ChatMessage>, order: CallOrder)
    requires MaximalRun(pre, run, post)
    ensures Reordered(pre + run + post, order)[|pre|..|pre| + |run|] == SortedRun(run, LatestOrder(pre, order))
    decreases |pre|
  {
    hide SortedRun, OrderAfter, LatestOrder, Reordered, RunLength;
    NoOrder(order);
    if pre == [] {
      assert [] + run + post == run + post;
      RunLengthIs(run, post);
      RunComesFirst(run, post, order);
    } else if !InUserBlock(pre[0]) {
      var order', rest := OrderAfter(pre[0], order), pre[1..];
      EachRunSorted(rest, run, post, order');
      LatestOrderFrom(pre[0], rest, order);
      assert [pre[0]] + rest == pre;
      MessageComesFirst(pre[0], rest + run + post, order);
      assert pre + run + post == [pre[0]] + (rest + run + post);
      ShiftSlice([pre[0]], Reordered(rest + run + post, order'), |rest|, |run|);
    } else {
      var first, rest := EarlierRun(pre);
      EachRunSorted(rest, run, post, order);
      LatestOrderSkips(first, rest, order);
      RunLengthIs(first, rest + run + post);
      RunComesFirst(first, rest + run + post, order);
      assert pre + run + post == first + (rest + run + post);
      ShiftSlice(SortedRun(first, order), Reordered(rest + run + post, order), |rest|, |run|);
    }
  }

  lemma NoOrder(order: CallOrder)
    ensures LatestOrder([], order) == order
  {
  }

  lemma MessageComesFirst(m: ChatMessage, rest: seq<ChatMessage>, order: CallOrder)
    requires !InUserBlock(m)
    ensures Reordered([m] + rest, order) == [m] + Reordered(rest, OrderAfter(m, order))
  {
    assert ([m] + rest)[1..] == rest;
  }

  lemma RunComesFirst(run: seq<ChatMessage>, rest: seq<ChatMessage>, order: CallOrder)
    requires run != [] && InUserBlock(run[0]) && RunLength(run + rest) == |run|
    ensures Reordered(run + rest, order) == SortedRun(run, order) + Reordered(rest, order)
  {
    hide SortedRun, RunLength;
    assert (run + rest)[..|run|] == run && (run + rest)[|run|..] == rest;
  }

  lemma ShiftSlice(head: seq<ChatMessage>, tail: seq<ChatMessage>, from: nat, n: nat)
    requires from + n <= |tail|
    ensures (head + tail)[|head| + from..|head| + from + n] == tail[from..from + n]
  {
  }

  /** Splits off the run at the start of `pre`, which ends before `pre` does. */
  lemma EarlierRun(pre: seq<ChatMessage>) returns (first: seq<ChatMessage>, rest: seq<ChatMessage>)
    requires pre != [] && InUserBlock(pre[0]) && !InUserBlock(pre[|pre| - 1])
    ensures first + rest == pre && first != [] && rest != [] && !InUserBlock(rest[0])
    ensures forall i :: 0 <= i < |first| ==> InUserBlock(first[i])
    ensures rest[|rest| - 1] == pre[|pre| - 1]
  {
    var n := RunLength(pre);
    first, rest := pre[..n], pre[n..];
  }

  lemma {:induction false} RunLengthIs(run: seq<ChatMessage>, rest: seq<ChatMessage>)
    requires (forall i :: 0 <= i < |run| ==> InUserBlock(run[i])) && (rest != [] ==> !InUserBlock(rest[0]))
    ensures RunLength(run + rest) == |run|
    decreases run
  {
    if run == [] {
      assert run + rest == rest;
    } else {
      assert (run + rest)[1..] == run[1..] + rest;
      RunLengthIs(run[1..], rest);
    }
  }

  // ---------- idempotence ----------

  lemma SortedTwice(s: seq<ChatMessage>, order: CallOrder)
    ensures StableSorted(StableSorted(s, order), order) == StableSorted(s, order)
  {
    hide StableSorted;
    var once := StableSorted(s, order);
    StableSortedIs(s, order);
    StableSortedIs(once, order);
    StableUnique(StableSorted(once, order), once, order);
  }

  lemma {:induction false} PlacedOwn(run: seq<ChatMessage>)
    ensures Placed(run, Results(run)) == run
  {
    if run != [] {
      PlacedOwn(run[1..]);
      assert Results(run) == (if IsTool(run[0]) then [run[0]] else []) + Results(run[1..]);
      assert run == [run[0]] + run[1..];
      if IsTool(run[0]) {
        assert Results(run)[1..] == Results(run[1..]);
      } else {
        assert Results(run) == Results(run[1..]);
      }
    }
  }

  lemma RunSortedTwice(run: seq<ChatMessage>, order: CallOrder)
    ensures SortedRun(SortedRun(run, order), order) == SortedRun(run, order)
  {
    hide Placed, Results, StableSorted;
    var once := SortedRun(run, order);
    RunIsSorted(run, order);
    if order != map[] {
      SortedTwice(Results(run), order);
      PlacedOwn(once);
    }
  }

  lemma {:induction false} RolesDecideRun(a: seq<ChatMessage>, b: seq<ChatMessage>)
    requires SameButResults(a, b)
    ensures RunLength(a) == RunLength(b)
    decreases |a|
  {
    if a != [] {
      RolesDecideRun(a[1..], b[1..]);
    }
  }

  /** A second pass changes nothing. */
  lemma {:induction false} ReorderedTwice(msgs: seq<ChatMessage>, order: CallOrder)
    ensures Reordered(Reordered(msgs, order), order) == Reordered(msgs, order)
    decreases |msgs|
  {
    hide SortedRun, OrderOf;
    if msgs != [] {
      var once := Reordered(msgs, order);
      if InUserBlock(msgs[0]) {
        var n := RunLength(msgs);
        FirstRun(msgs);
        var head, tail := SortedRun(msgs[..n], order), Reordered(msgs[n..], order);
        assert once == head + tail && once[..n] == head && once[n..] == tail;
        ReorderedKeeps(msgs, order);
        RolesDecideRun(once, msgs);
        RunSortedTwice(msgs[..n], order);
        ReorderedTwice(msgs[n..], order);
      } else {
        var order' := OrderAfter(msgs[0], order);
        assert once[0] == msgs[0] && once[1..] == Reordered(msgs[1..], order');
        ReorderedTwice(msgs[1..], order');
      }
    }
  }
}

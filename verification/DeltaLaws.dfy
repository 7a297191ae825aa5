/** What the deltas of a step say, one by one: nothing twice, nothing unchanged, and names held back as long as
    they have to be and no longer.
 */
module DeltaLaws {
  import opened FilteredStream
  import opened MessageDiff
  import opened ResponseStream
  import opened Wrappers

  // ---------- the deltas of one step ----------

  /** The place of a delta: reasoning, then content, then the calls. */
  function Rank(d: Delta): nat {
    match d.index
    case Some(i) => 2 + i
    case None => if d.content != "" then 1 else 0
  }

  /** Nothing is said about the calls by a text delta, and a text delta is about one text. */
  predicate TextDelta(d: Delta, prv: Message, cur: Message) {
    && d.index.None? && d.toolCall == NO_CALL
    && (d.content == "" ==> prv.reasoning != cur.reasoning && (d.reasoning != "" ==> prv.reasoning + d.reasoning == cur.reasoning))
    && (d.content != "" ==> d.reasoning == "" && prv.content + d.content == cur.content)
  }

  /** About the last known call: what its arguments gained, and its name and id only if one of them is new. */
  predicate KnownDelta(d: Delta, pref: ToolCall, newf: ToolCall) {
    && d.reasoning == "" && d.content == ""
    && (if pref.name == newf.name && pref.id == newf.id then d.toolCall.name == "" && d.toolCall.id == "" && d.toolCall.arguments != ""
        else d.toolCall.name == newf.name && d.toolCall.id == newf.id)
    && (d.toolCall.arguments != "" ==> pref.arguments + d.toolCall.arguments == newf.arguments)
  }

  predicate NewDelta(d: Delta, call: ToolCall) {
    d.reasoning == "" && d.content == "" && d.toolCall == call
  }

  predicate ProperDelta(d: Delta, prv: Message, cur: Message)
    requires |prv.toolCalls| <= |cur.toolCalls|
  {
    match d.index
    case None => TextDelta(d, prv, cur) || (d == Delta("", "", None, NO_CALL) && prv.content != cur.content)
    case Some(i) =>
      && i < |cur.toolCalls| && i + 1 >= |prv.toolCalls|
      && if i < |prv.toolCalls| then KnownDelta(d, prv.toolCalls[i], cur.toolCalls[i]) else NewDelta(d, cur.toolCalls[i])
  }

  /** A text that did not shrink. */
  predicate NotShrunk(prv: Message, cur: Message) {
    prv.reasoning <= cur.reasoning && prv.content <= cur.content
  }

  /** Each delta of an accepted step is about one thing that changed, and says what was added; there is one at most
      for each thing, the texts come before the calls and the calls in their order.
   */
  lemma DeltasProper(prv: Message, cur: Message)
    requires Diffs(prv, cur).Ok?
    ensures |prv.toolCalls| <= |cur.toolCalls|
    ensures forall d :: d in Diffs(prv, cur).value ==> ProperDelta(d, prv, cur)
    ensures NotShrunk(prv, cur) ==>
              var ds := Diffs(prv, cur).value; forall a, b :: 0 <= a < b < |ds| ==> Rank(ds[a]) < Rank(ds[b])
    ensures var n := |prv.toolCalls|; forall i :: n <= i < |cur.toolCalls| ==> Delta("", "", Some(i), cur.toolCalls[i]) in Diffs(prv, cur).value
  {
    hide NewCallDeltas, ReasoningDeltas, ContentDeltas, LastDeltas, ProperDelta, Rank, NotShrunk;
    var n := |prv.toolCalls|;
    var r, c, l := ReasoningDeltas(prv, cur).value, ContentDeltas(prv, cur).value, LastDeltas(prv, cur).value;
    var added := NewCallDeltas(cur.toolCalls, n);
    TextsProper(prv, cur);
    LastProper(prv, cur);
    NewProper(prv, cur);
    var ds := r + c + l + added;
    assert ds == Diffs(prv, cur).value;
    forall i | n <= i < |cur.toolCalls| ensures Delta("", "", Some(i), cur.toolCalls[i]) in ds {
      assert added[i - n] in ds;
    }
    if NotShrunk(prv, cur) {
      forall a, b | 0 <= a < b < |ds| ensures Rank(ds[a]) < Rank(ds[b]) {
        RanksAscend(r, c, l, added, n, a, b);
      }
    }
  }

  lemma RanksAscend(r: seq<Delta>, c: seq<Delta>, l: seq<Delta>, added: seq<Delta>, n: nat, a: nat, b: nat)
    requires |r| <= 1 && |c| <= 1 && |l| <= 1 && a < b < |r + c + l + added|
    requires (r != [] ==> Rank(r[0]) == 0) && (c != [] ==> Rank(c[0]) == 1) && (l != [] ==> n > 0 && Rank(l[0]) == n + 1)
    requires forall k :: 0 <= k < |added| ==> Rank(added[k]) == 2 + n + k
    ensures Rank((r + c + l + added)[a]) < Rank((r + c + l + added)[b])
  {
    hide Rank;
  }

  lemma TextsProper(prv: Message, cur: Message)
    requires Diffs(prv, cur).Ok?
    ensures |prv.toolCalls| <= |cur.toolCalls| && ReasoningDeltas(prv, cur).Ok? && ContentDeltas(prv, cur).Ok?
    ensures var r, c := ReasoningDeltas(prv, cur).value, ContentDeltas(prv, cur).value;
      && |r| <= 1 && |c| <= 1 && (forall d :: d in r || d in c ==> ProperDelta(d, prv, cur))
      && (NotShrunk(prv, cur) ==> (r != [] ==> Rank(r[0]) == 0) && (c != [] ==> Rank(c[0]) == 1))
  {
    hide NewCallDeltas, StringDiff;
    Added(prv.reasoning, cur.reasoning);
    Added(prv.content, cur.content);
  }

  lemma LastProper(prv: Message, cur: Message)
    requires Diffs(prv, cur).Ok?
    ensures |prv.toolCalls| <= |cur.toolCalls| && LastDeltas(prv, cur).Ok?
    ensures var n, l := |prv.toolCalls|, LastDeltas(prv, cur).value;
      |l| <= 1 && (forall d :: d in l ==> ProperDelta(d, prv, cur)) && (l != [] ==> n > 0 && Rank(l[0]) == n + 1)
  {
    hide NewCallDeltas, StringDiff;
    var n := |prv.toolCalls|;
    if n > 0 {
      Added(prv.toolCalls[n - 1].arguments, cur.toolCalls[n - 1].arguments);
    }
  }

  lemma NewProper(prv: Message, cur: Message)
    requires |prv.toolCalls| <= |cur.toolCalls|
    ensures var n, added := |prv.toolCalls|, NewCallDeltas(cur.toolCalls, |prv.toolCalls|);
      && |added| == |cur.toolCalls| - n && (forall d :: d in added ==> ProperDelta(d, prv, cur))
      && (forall k :: 0 <= k < |added| ==> Rank(added[k]) == 2 + n + k && added[k] == Delta("", "", Some(n + k), cur.toolCalls[n + k]))
  {
    hide NewCallDeltas;
    NewCallsAre(cur.toolCalls, |prv.toolCalls|);
  }

  lemma Added(a: string, b: string)
    ensures StringDiff(a, b).Ok? && StringDiff(a, b).value != "" ==> a + StringDiff(a, b).value == b
    ensures a <= b ==> StringDiff(a, b).Ok? && StringDiff(a, b).value == b[|a|..] && (a != b ==> StringDiff(a, b).value != "")
  {
  }

  lemma {:induction false} NewCallsAre(calls: seq<ToolCall>, from: nat)
    requires from <= |calls|
    ensures |NewCallDeltas(calls, from)| == |calls| - from
    ensures forall k :: 0 <= k < |calls| - from ==> NewCallDeltas(calls, from)[k] == Delta("", "", Some(from + k), calls[from + k])
    decreases |calls| - from
  {
    if from < |calls| {
      NewCallsAre(calls, from + 1);
    }
  }

  /** A message that is parsed again as it was sends nothing. */
  lemma NothingNew(m: Message)
    ensures Diffs(m, m) == Ok([])
  {
    var n := |m.toolCalls|;
    assert NewCallDeltas(m.toolCalls, n) == [] && ReasoningDeltas(m, m) == Ok([]) && ContentDeltas(m, m) == Ok([]);
    if n > 0 {
      Added(m.toolCalls[n - 1].arguments, m.toolCalls[n - 1].arguments);
    }
    assert LastDeltas(m, m) == Ok([]);
    assert |Diffs(m, m).value| == 0;
  }

  /** Which error a refused step gives: a text that does not continue comes first, then a lost call, then another
      name for the last call, then its arguments.
   */
  lemma DiffsRefused(prv: Message, cur: Message)
    ensures Diffs(prv, cur).Err? ==>
              var k := |prv.toolCalls| - 1;
              var texts := Comparable(prv.reasoning, cur.reasoning) && Comparable(prv.content, cur.content);
              Diffs(prv, cur).error ==
              if !texts then TextNotExtended
              else if |cur.toolCalls| <= k then FewerToolCalls
              else if cur.toolCalls[k].name != "" && !(prv.toolCalls[k].name <= cur.toolCalls[k].name) then ToolCallMismatch
              else TextNotExtended
  {
    if |prv.toolCalls| == 0 {
      assert Diffs(prv, cur).Err? ==> !(Comparable(prv.reasoning, cur.reasoning) && Comparable(prv.content, cur.content));
    }
  }

  // ---------- names in the unfiltered stream ----------

  /** A call's name is in a step's deltas once if the call is new or its name or id has changed, and else not. */
  lemma NamesInStep(prv: Message, cur: Message, i: nat)
    requires Diffs(prv, cur).Ok? && AllNamed(cur)
    ensures NamesOf(Diffs(prv, cur).value, i) ==
            if i >= |cur.toolCalls| || i + 1 < |prv.toolCalls| then 0
            else if i >= |prv.toolCalls| then 1
            else if prv.toolCalls[i].name == cur.toolCalls[i].name && prv.toolCalls[i].id == cur.toolCalls[i].id then 0
            else 1
  {
    hide NewCallDeltas, StringDiff, NamesOf;
    var n := |prv.toolCalls|;
    var r, c, l := ReasoningDeltas(prv, cur).value, ContentDeltas(prv, cur).value, LastDeltas(prv, cur).value;
    var added := NewCallDeltas(cur.toolCalls, n);
    NamesConcat(r + c + l, added, i);
    NamesConcat(r + c, l, i);
    NamesConcat(r, c, i);
    NamesShort(r, i);
    NamesShort(c, i);
    NamesShort(l, i);
    NamesOfNew(cur.toolCalls, n, i);
  }

  lemma NamesShort(ds: seq<Delta>, i: nat)
    requires |ds| <= 1
    ensures NamesOf(ds, i) == if ds != [] && ds[0].index == Some(i) && ds[0].toolCall.name != "" then 1 else 0
  {
  }

  lemma {:induction false} NamesOfNew(calls: seq<ToolCall>, from: nat, i: nat)
    requires from <= |calls| && forall k :: 0 <= k < |calls| ==> calls[k].name != ""
    ensures NamesOf(NewCallDeltas(calls, from), i) == if from <= i < |calls| then 1 else 0
    decreases |calls| - from
  {
    if from < |calls| {
      NamesOfNew(calls, from + 1, i);
      assert ([Delta("", "", Some(from), calls[from])] + NewCallDeltas(calls, from + 1))[1..] == NewCallDeltas(calls, from + 1);
    }
  }

  predicate NamesKept(prv: Message, cur: Message) {
    && |prv.toolCalls| <= |cur.toolCalls|
    && forall i :: 0 <= i < |prv.toolCalls| ==> prv.toolCalls[i].name == cur.toolCalls[i].name
  }

  /** Successive parses whose text only grows, with every call named and no name growing later. */
  ghost predicate StableChain(prv: Message, raws: seq<Message>)
    decreases raws
  {
    raws != [] ==>
      TextGrows(prv, raws[0]) && AllNamed(raws[0]) && NamesKept(prv, raws[0]) && StableChain(raws[0], raws[1..])
  }

  /** Over such a run each call's name goes out exactly once. */
  lemma {:induction false} NamesGoOnce(s: State, prv: Message, raws: seq<Message>, gen: nat -> string, i: nat)
    requires Consistent(s) && SameText(s.shown, prv) && StableChain(prv, raws)
    ensures var (s', r) := Run(s, raws, gen);
      && r.Ok? && |s.shown.toolCalls| <= |s'.shown.toolCalls|
      && NamesOf(r.value, i) == if |s.shown.toolCalls| <= i < |s'.shown.toolCalls| then 1 else 0
    decreases raws
  {
    hide Step, Consistent, SameText, TextGrows, AllNamed, NamesOf, NamesKept;
    if raws == [] {
      NoNamesAtAll(i);
    } else {
      var (s1, r1) := Step(s, raws[0], gen);
      StepExtends(s, prv, raws[0], gen);
      StepNames(s, prv, raws[0], gen, i);
      NamesGoOnce(s1, raws[0], raws[1..], gen, i);
      NamesConcat(r1.value, Run(s1, raws[1..], gen).1.value, i);
    }
  }

  lemma NoNamesAtAll(i: nat)
    ensures NamesOf([], i) == 0
  {
  }

  lemma StepNames(s: State, prv: Message, raw: Message, gen: nat -> string, i: nat)
    requires Consistent(s) && SameText(s.shown, prv) && TextGrows(prv, raw) && AllNamed(raw) && NamesKept(prv, raw)
    ensures var (s', r) := Step(s, raw, gen);
      && r.Ok? && |s.shown.toolCalls| <= |s'.shown.toolCalls|
      && NamesOf(r.value, i) == if |s.shown.toolCalls| <= i < |s'.shown.toolCalls| then 1 else 0
  {
    hide Consistent, SameText, TextGrows, NamesOf, Step, Diffs, CallsKept;
    StepExtends(s, prv, raw, gen);
    StepKeepsCalls(s, prv, raw, gen);
    var s' := Step(s, raw, gen).0;
    NamesStay(s.shown, s'.shown, prv, raw);
    if raw.IsEmpty() {
      EmptyStep(s, raw, gen);
      NoNamesAtAll(i);
    } else {
      StepDiffs(s, raw, gen);
      NamesInStep(s.shown, s'.shown, i);
    }
  }

  lemma NamesStay(a: Message, b: Message, prv: Message, raw: Message)
    requires SameText(a, prv) && SameText(b, raw) && NamesKept(prv, raw) && CallsKept(a, b)
    ensures |a.toolCalls| <= |b.toolCalls|
    ensures forall k :: 0 <= k < |a.toolCalls| ==> a.toolCalls[k].name == b.toolCalls[k].name && a.toolCalls[k].id == b.toolCalls[k].id
  {
    forall k | 0 <= k < |a.toolCalls| ensures a.toolCalls[k].name == b.toolCalls[k].name {
      assert a.toolCalls[k].(id := "") == prv.toolCalls[k].(id := "");
      assert b.toolCalls[k].(id := "") == raw.toolCalls[k].(id := "");
    }
  }

  // ---------- the ids ----------

  /** The id each call had when it first appeared, with those seen before. */
  function Seen(ids: seq<string>, calls: seq<ToolCall>): seq<string>
    decreases |calls| - |ids|
  {
    if |ids| >= |calls| then ids else Seen(ids + [calls[|ids|].id], calls)
  }

  function AllSeen(ids: seq<string>, raws: seq<Message>): seq<string>
    decreases raws
  {
    if raws == [] then ids else AllSeen(Seen(ids, raws[0].toolCalls), raws[1..])
  }

  function Blanks(ids: seq<string>): nat {
    if ids == [] then 0 else Blanks(ids[..|ids| - 1]) + (if ids[|ids| - 1] == "" then 1 else 0)
  }

  /** A missing id is the next of the generator. */
  function Given(ids: seq<string>, gen: nat -> string): (r: seq<string>)
    ensures |r| == |ids|
  {
    seq(|ids|, i requires 0 <= i < |ids| => if ids[i] != "" then ids[i] else gen(Blanks(ids[..i])))
  }

  lemma GivenSnoc(ids: seq<string>, id: string, gen: nat -> string)
    ensures Given(ids + [id], gen) == Given(ids, gen) + [if id != "" then id else gen(Blanks(ids))]
    ensures Blanks(ids + [id]) == Blanks(ids) + (if id == "" then 1 else 0)
  {
    assert (ids + [id])[..|ids|] == ids;
    forall i | 0 <= i < |ids| ensures (ids + [id])[..i] == ids[..i] {
    }
  }

  lemma {:induction false} ExtendedGiven(seen: seq<string>, calls: seq<ToolCall>, gen: nat -> string)
    ensures Extended(Ids(Given(seen, gen), Blanks(seen)), calls, gen)
         == Ids(Given(Seen(seen, calls), gen), Blanks(Seen(seen, calls)))
    decreases |calls| - |seen|
  {
    hide Given, Blanks;
    if |seen| < |calls| {
      var id := calls[|seen|].id;
      ExtendedOnce(Ids(Given(seen, gen), Blanks(seen)), calls, gen);
      GivenSnoc(seen, id, gen);
      ExtendedGiven(seen + [id], calls, gen);
    }
  }

  /** Whatever the parses, each call has the id it had when it first appeared, or the next generated one if it had
      none then.
   */
  lemma {:induction false} IdsGiven(shown: Message, seen: seq<string>, raws: seq<Message>, gen: nat -> string)
    ensures var s := State(shown, Ids(Given(seen, gen), Blanks(seen)));
            var ids := AllSeen(seen, raws);
      Run(s, raws, gen).0.ids == Ids(Given(ids, gen), Blanks(ids))
    decreases raws
  {
    hide Given, Blanks, Extended, Seen, Diffs;
    if raws != [] {
      var s := State(shown, Ids(Given(seen, gen), Blanks(seen)));
      ExtendedGiven(seen, raws[0].toolCalls, gen);
      if raws[0].IsEmpty() {
        NoneSeen(seen);
        IdsGiven(shown, seen, raws[1..], gen);
      } else {
        var s1 := Step(s, raws[0], gen).0;
        IdsGiven(s1.shown, Seen(seen, raws[0].toolCalls), raws[1..], gen);
      }
    }
  }

  lemma NoneSeen(seen: seq<string>)
    ensures Seen(seen, []) == seen
  {
  }

  /** The calls shown have those ids, and an empty parse is as good as none. */
  lemma StepShows(s: State, raw: Message, gen: nat -> string)
    ensures var s' := Step(s, raw, gen).0;
      raw != EMPTY_MESSAGE ==>
        |s'.shown.toolCalls| == |raw.toolCalls| <= |s'.ids.cache|
        && forall i :: 0 <= i < |raw.toolCalls| ==> s'.shown.toolCalls[i] == raw.toolCalls[i].(id := s'.ids.cache[i])
    ensures Step(s, EMPTY_MESSAGE, gen) == (s, Ok([]))
  {
  }
}

/** The per-request state that turns raw parses into client deltas.

    Raw parses carry whatever tool-call ids the model wrote, if any. Ids are pinned per index by a
    cache that only grows, and missing ids are drawn from a generator, modelled as the infinite
    supply `gen` of which the first `drawn` ids have been used.
 */
module ResponseStream {
  import opened MessageDiff
  import opened Wrappers

  datatype Ids = Ids(cache: seq<string>, drawn: nat)

  /** The cache after a message with these calls has been seen. */
  function Extended(ids: Ids, calls: seq<ToolCall>, gen: nat -> string): (r: Ids)
    ensures ids.cache <= r.cache && |r.cache| >= |calls| && ids.drawn <= r.drawn
    ensures |ids.cache| >= |calls| ==> r == ids
    decreases |calls| - |ids.cache|
  {
    var i := |ids.cache|;
    if i >= |calls| then ids
    else if calls[i].id == "" then Extended(Ids(ids.cache + [gen(ids.drawn)], ids.drawn + 1), calls, gen)
    else Extended(ids.(cache := ids.cache + [calls[i].id]), calls, gen)
  }

  lemma {:induction false} ExtendedOnce(ids: Ids, calls: seq<ToolCall>, gen: nat -> string)
    requires |ids.cache| < |calls|
    ensures var id := calls[|ids.cache|].id;
      Extended(ids, calls, gen) ==
      if id == "" then Extended(Ids(ids.cache + [gen(ids.drawn)], ids.drawn + 1), calls, gen)
      else Extended(ids.(cache := ids.cache + [id]), calls, gen)
  {
  }

  function Pinned(calls: seq<ToolCall>, cache: seq<string>): (r: seq<ToolCall>)
    requires |calls| <= |cache|
    ensures |r| == |calls|
    ensures forall i :: 0 <= i < |r| ==> r[i] == calls[i].(id := cache[i])
  {
    seq(|calls|, i requires 0 <= i < |calls| => calls[i].(id := cache[i]))
  }

  function WithIds(m: Message, ids: Ids): Message
    requires |m.toolCalls| <= |ids.cache|
  {
    m.(toolCalls := Pinned(m.toolCalls, ids.cache))
  }

  datatype State = State(shown: Message, ids: Ids)

  /** One parse: an empty message is ignored, any other is given ids, becomes the shown message, and
      is diffed against the one shown before. */
  function Step(s: State, raw: Message, gen: nat -> string): (State, Result<seq<Delta>, DiffError>) {
    if raw.IsEmpty() then
      (s, Ok([]))
    else
      var ids := Extended(s.ids, raw.toolCalls, gen);
      var m := WithIds(raw, ids);
      (State(m, ids), Diffs(s.shown, m))
  }

  // ---------- holding names back ----------

  /** Announces a call: its name and id, and no arguments. */
  function Header(m: Message, i: nat): Delta
    requires i < |m.toolCalls|
  {
    Delta("", "", Some(i), ToolCall(m.toolCalls[i].name, "", m.toolCalls[i].id))
  }

  /** A name may go out before a delta that is not about the call, or brings arguments; at the end any may. */
  predicate Due(d: Option<Delta>, i: nat) {
    d.None? || d.value.index != Some(i) || d.value.toolCall.arguments != ""
  }

  /** The headers of the calls from `i` on that have a name not sent yet and are due, and what is sent then. */
  function DueHeaders(m: Message, sent: set<nat>, d: Option<Delta>, i: nat): (seq<Delta>, set<nat>)
    requires i <= |m.toolCalls|
    decreases |m.toolCalls| - i
  {
    if i == |m.toolCalls| then ([], sent)
    else if i in sent || m.toolCalls[i].name == "" || !Due(d, i) then DueHeaders(m, sent, d, i + 1)
    else
      var (ds, sent') := DueHeaders(m, sent + {i}, d, i + 1);
      ([Header(m, i)] + ds, sent')
  }

  /** What becomes of a delta itself. */
  function Passed(m: Message, sent: set<nat>, d: Delta, partial: bool): (seq<Delta>, set<nat>)
    requires d.index.Some? ==> d.index.value < |m.toolCalls|
  {
    if d.index.None? then ([d], sent)
    else
      var i, args := d.index.value, d.toolCall.arguments;
      if i in sent then
        (if args != "" then [d.(toolCall := d.toolCall.(name := "", id := ""))] else [], sent)
      else if args != "" || !partial then
        ([d.(toolCall := d.toolCall.(name := m.toolCalls[i].name, id := m.toolCalls[i].id))], sent + {i})
      else ([], sent)
  }

  function FilteredDelta(m: Message, sent: set<nat>, d: Delta, partial: bool): (seq<Delta>, set<nat>)
    requires d.index.Some? ==> d.index.value < |m.toolCalls|
  {
    var (headers, sent1) := DueHeaders(m, sent, Some(d), 0);
    var (passed, sent2) := Passed(m, sent1, d, partial);
    (headers + passed, sent2)
  }

  predicate Indexed(m: Message, ds: seq<Delta>) {
    forall k :: 0 <= k < |ds| && ds[k].index.Some? ==> ds[k].index.value < |m.toolCalls|
  }

  function FilteredDeltas(m: Message, sent: set<nat>, ds: seq<Delta>, partial: bool): (seq<Delta>, set<nat>)
    requires Indexed(m, ds)
    decreases ds
  {
    if ds == [] then (if partial then ([], sent) else DueHeaders(m, sent, None, 0))
    else
      var (first, sent1) := FilteredDelta(m, sent, ds[0], partial);
      var (rest, sent2) := FilteredDeltas(m, sent1, ds[1..], partial);
      (first + rest, sent2)
  }

  lemma {:induction false} NewCallsIndexed(calls: seq<ToolCall>, from: nat)
    requires from <= |calls|
    ensures forall k :: 0 <= k < |NewCallDeltas(calls, from)| ==>
              var d := NewCallDeltas(calls, from)[k];
              d.index.Some? && d.index.value < |calls| && d.reasoning == "" && d.content == ""
    decreases |calls| - from
  {
    if from < |calls| {
      NewCallsIndexed(calls, from + 1);
    }
  }

  /** The deltas of a step are about calls of the new message, and bring either text or something of a call. */
  lemma DiffsIndexed(prv: Message, cur: Message)
    requires Diffs(prv, cur).Ok?
    ensures Indexed(cur, Diffs(prv, cur).value)
    ensures forall d :: d in Diffs(prv, cur).value ==> d.index.Some? ==> d.reasoning == "" && d.content == ""
  {
    hide NewCallDeltas;
    NewCallsIndexed(cur.toolCalls, |prv.toolCalls|);
    var text := ReasoningDeltas(prv, cur).value + ContentDeltas(prv, cur).value + LastDeltas(prv, cur).value;
    var added := NewCallDeltas(cur.toolCalls, |prv.toolCalls|);
    forall d: Delta | d in text + added
      ensures d.index.Some? ==> d.index.value < |cur.toolCalls| && d.reasoning == "" && d.content == ""
    {
      if d in added {
        var k :| 0 <= k < |added| && added[k] == d;
      }
    }
    forall k | 0 <= k < |text + added| && (text + added)[k].index.Some? ensures (text + added)[k].index.value < |cur.toolCalls| {
      assert (text + added)[k] in text + added;
    }
  }

  /** One parse with names held back. */
  function FilteredStep(s: State, sent: set<nat>, raw: Message, partial: bool, gen: nat -> string)
    : (State, set<nat>, Result<seq<Delta>, DiffError>)
  {
    if raw.IsEmpty() then (s, sent, Ok([]))
    else
      var (s', r) := Step(s, raw, gen);
      if r.Err? then (s', sent, r)
      else
        DiffsIndexed(s.shown, s'.shown);
        var (ds, sent') := FilteredDeltas(s'.shown, sent, r.value, partial);
        (s', sent', Ok(ds))
  }

  class ResultState {
    var shown: Message
    var idsCache: seq<string>
    var drawn: nat
    var sentNames: set<nat>
    const gen: nat -> string

    ghost function Abs(): State
      reads this
    {
      State(shown, Ids(idsCache, drawn))
    }

    constructor (gen: nat -> string)
      ensures Abs() == State(EMPTY_MESSAGE, Ids([], 0)) && sentNames == {} && this.gen == gen
    {
      shown, idsCache, drawn, sentNames := EMPTY_MESSAGE, [], 0, {};
      this.gen := gen;
    }

    /** Fills the cache up to the number of calls and overwrites every call's id with the cached one. */
    method SetToolCallIds(m: Message) returns (r: Message)
      modifies this`idsCache, this`drawn
      ensures Ids(idsCache, drawn) == Extended(old(Ids(idsCache, drawn)), m.toolCalls, gen)
      ensures |m.toolCalls| <= |idsCache| && r == WithIds(m, Ids(idsCache, drawn))
    {
      hide Extended;
      var calls := m.toolCalls;
      for i := 0 to |calls|
        invariant |calls| == |m.toolCalls|
        invariant i <= |idsCache|
        invariant forall j :: i <= j < |calls| ==> calls[j] == m.toolCalls[j]
        invariant Extended(Ids(idsCache, drawn), m.toolCalls, gen) == Extended(old(Ids(idsCache, drawn)), m.toolCalls, gen)
        invariant forall j :: 0 <= j < i ==> calls[j] == m.toolCalls[j].(id := idsCache[j])
      {
        if |idsCache| <= i {
          assert |idsCache| == i && calls[i] == m.toolCalls[i];
          ExtendedOnce(Ids(idsCache, drawn), m.toolCalls, gen);
          var id := calls[i].id;
          if id == "" {
            id := gen(drawn);
            drawn := drawn + 1;
          }
          idsCache := idsCache + [id];
        }
        calls := calls[i := calls[i].(id := idsCache[i])];
      }
      r := m.(toolCalls := calls);
      assert calls == Pinned(m.toolCalls, idsCache);
    }

    method UpdateChatMsg(raw: Message) returns (r: Result<seq<Delta>, DiffError>)
      modifies this`shown, this`idsCache, this`drawn
      ensures (Abs(), r) == Step(old(Abs()), raw, gen)
    {
      if raw.IsEmpty() {
        return Ok([]);
      }
      var previous := shown;
      var m := SetToolCallIds(raw);
      shown := m;
      r := ComputeDiffs(previous, m);
    }

    /** The same update with the deltas filtered. */
    method UpdateFiltered(raw: Message, isPartial: bool) returns (r: Result<seq<Delta>, DiffError>)
      modifies this
      ensures (Abs(), sentNames, r) == FilteredStep(old(Abs()), old(sentNames), raw, isPartial, gen)
    {
      hide FilteredDeltas, Diffs, Extended;
      if raw.IsEmpty() {
        return Ok([]);
      }
      ghost var previous := shown;
      var all :- UpdateChatMsg(raw);
      DiffsIndexed(previous, shown);
      var diffs := FilterDiffs(all, isPartial);
      r := Ok(diffs);
    }

    method FilterDiffs(all: seq<Delta>, isPartial: bool) returns (diffs: seq<Delta>)
      requires Indexed(shown, all)
      modifies this`sentNames
      ensures (diffs, sentNames) == FilteredDeltas(shown, old(sentNames), all, isPartial)
    {
      hide FilteredDeltas, DueHeaders, Passed;
      diffs := [];
      NothingBefore(FilteredDeltas(shown, sentNames, all, isPartial).0);
      assert all[0..] == all;
      for k := 0 to |all|
        invariant Behind(diffs, FilteredDeltas(shown, sentNames, all[k..], isPartial))
               == FilteredDeltas(shown, old(sentNames), all, isPartial)
      {
        assert all[k..][0] == all[k] && all[k..][1..] == all[k + 1..];
        FilteredStepOn(diffs, shown, sentNames, all[k..], isPartial);
        var headers := SendNames(Some(all[k]));
        var passed := Pass(all[k], isPartial);
        diffs := diffs + (headers + passed);
      }
      assert all[|all|..] == [];
      FilteredEnd(diffs, shown, sentNames, isPartial);
      if !isPartial {
        var headers := SendNames(None);
        diffs := diffs + headers;
      }
    }

    /** The loop over the calls of the message shown. */
    method SendNames(d: Option<Delta>) returns (headers: seq<Delta>)
      modifies this`sentNames
      ensures (headers, sentNames) == DueHeaders(shown, old(sentNames), d, 0)
    {
      hide Due;
      headers := [];
      NothingBefore(DueHeaders(shown, sentNames, d, 0).0);
      for i := 0 to |shown.toolCalls|
        invariant Behind(headers, DueHeaders(shown, sentNames, d, i)) == DueHeaders(shown, old(sentNames), d, 0)
      {
        if i in sentNames || shown.toolCalls[i].name == "" || !Due(d, i) {
          continue;
        }
        ghost var rest := DueHeaders(shown, sentNames + {i}, d, i + 1).0;
        assert headers + ([Header(shown, i)] + rest) == headers + [Header(shown, i)] + rest;
        headers := headers + [Header(shown, i)];
        sentNames := sentNames + {i};
      }
      assert headers + [] == headers;
    }

    method Pass(d: Delta, isPartial: bool) returns (passed: seq<Delta>)
      requires d.index.Some? ==> d.index.value < |shown.toolCalls|
      modifies this`sentNames
      ensures (passed, sentNames) == Passed(shown, old(sentNames), d, isPartial)
    {
      passed := [];
      if d.index.None? {
        passed := [d];
      } else {
        var i := d.index.value;
        if i in sentNames {
          if d.toolCall.arguments != "" {
            passed := [d.(toolCall := d.toolCall.(name := "", id := ""))];
          }
        } else if d.toolCall.arguments != "" || !isPartial {
          passed := [d.(toolCall := d.toolCall.(name := shown.toolCalls[i].name, id := shown.toolCalls[i].id))];
          sentNames := sentNames + {i};
        }
      }
    }
  }

  function Behind(done: seq<Delta>, r: (seq<Delta>, set<nat>)): (seq<Delta>, set<nat>) {
    (done + r.0, r.1)
  }

  lemma NothingBefore(ds: seq<Delta>)
    ensures [] + ds == ds
  {
  }

  lemma FilteredStepOn(done: seq<Delta>, m: Message, sent: set<nat>, ds: seq<Delta>, partial: bool)
    requires ds != [] && Indexed(m, ds)
    ensures var (headers, sent1) := DueHeaders(m, sent, Some(ds[0]), 0);
            var (passed, sent2) := Passed(m, sent1, ds[0], partial);
      Behind(done, FilteredDeltas(m, sent, ds, partial)) ==
      Behind(done + (headers + passed), FilteredDeltas(m, sent2, ds[1..], partial))
  {
    hide DueHeaders, Passed;
    var (headers, sent1) := DueHeaders(m, sent, Some(ds[0]), 0);
    var (passed, sent2) := Passed(m, sent1, ds[0], partial);
    var rest := FilteredDeltas(m, sent2, ds[1..], partial).0;
    assert done + ((headers + passed) + rest) == done + (headers + passed) + rest;
  }

  lemma FilteredEnd(done: seq<Delta>, m: Message, sent: set<nat>, partial: bool)
    ensures FilteredDeltas(m, sent, [], partial) == if partial then ([], sent) else DueHeaders(m, sent, None, 0)
    ensures done + [] == done
  {
  }

  // ---------- whole runs ----------

  ghost predicate Consistent(s: State) {
    && |s.shown.toolCalls| <= |s.ids.cache|
    && s.shown == WithIds(s.shown, s.ids)
  }

  /** Successive raw parses whose text only grows; nothing at all is asked of their ids. */
  ghost predicate RawChain(prv: Message, raws: seq<Message>)
    decreases raws
  {
    raws != [] ==> TextGrows(prv, raws[0]) && RawChain(raws[0], raws[1..])
  }

  function Run(s: State, raws: seq<Message>, gen: nat -> string): (State, Result<seq<Delta>, DiffError>)
    decreases raws
  {
    if raws == [] then (s, Ok([])) else
    var (s1, r1) := Step(s, raws[0], gen);
    var (s2, r2) := Run(s1, raws[1..], gen);
    (s2, if r1.Err? then r1 else if r2.Err? then r2 else Ok(r1.value + r2.value))
  }

  /** Equal but for ids. */
  predicate SameText(a: Message, b: Message) {
    && a.reasoning == b.reasoning && a.content == b.content && |a.toolCalls| == |b.toolCalls|
    && forall i :: 0 <= i < |a.toolCalls| ==> a.toolCalls[i].(id := "") == b.toolCalls[i].(id := "")
  }

  lemma StepExtends(s: State, prv: Message, raw: Message, gen: nat -> string)
    requires Consistent(s) && SameText(s.shown, prv) && TextGrows(prv, raw)
    ensures var (s', r) := Step(s, raw, gen);
            && Consistent(s') && SameText(s'.shown, raw) && s.ids.cache <= s'.ids.cache
            && r.Ok? && ApplyAll(s.shown, r.value) == s'.shown
  {
    var s' := Step(s, raw, gen).0;
    if !raw.IsEmpty() {
      var a, b := s.shown.toolCalls, s'.shown.toolCalls;
      forall i | 0 <= i < |a| ensures a[i].id == b[i].id {
        assert a[i] == Pinned(a, s.ids.cache)[i];
      }
      forall i | 0 <= i < |a| ensures a[i].name == prv.toolCalls[i].name && a[i].arguments == prv.toolCalls[i].arguments {
        assert a[i].(id := "") == prv.toolCalls[i].(id := "");
      }
      assert Extends(s.shown, s'.shown);
      StepFaithful(s.shown, s'.shown);
    }
  }

  /** The server never rejects such a run, the deltas rebuild the final message, the final message
      is the last parse up to ids, and an id once given to an index is never replaced. */
  lemma {:induction false} RunRebuilds(s: State, prv: Message, raws: seq<Message>, gen: nat -> string)
    requires Consistent(s) && SameText(s.shown, prv) && RawChain(prv, raws)
    ensures var (s', r) := Run(s, raws, gen);
            && r.Ok? && ApplyAll(s.shown, r.value) == s'.shown
            && SameText(s'.shown, if raws == [] then prv else raws[|raws| - 1])
            && |s.shown.toolCalls| <= |s'.shown.toolCalls|
            && (forall i :: 0 <= i < |s.shown.toolCalls| ==> s.shown.toolCalls[i].id == s'.shown.toolCalls[i].id)
    decreases raws
  {
    if raws != [] {
      var (s1, r1) := Step(s, raws[0], gen);
      StepExtends(s, prv, raws[0], gen);
      RunRebuilds(s1, raws[0], raws[1..], gen);
      var (s2, r2) := Run(s1, raws[1..], gen);
      ApplyAllConcat(s.shown, r1.value, r2.value);
      IdsStay(s, s1);
    }
  }

  lemma IdsStay(s: State, s': State)
    requires Consistent(s) && Consistent(s') && s.ids.cache <= s'.ids.cache
    requires |s.shown.toolCalls| <= |s'.shown.toolCalls|
    ensures forall i :: 0 <= i < |s.shown.toolCalls| ==> s.shown.toolCalls[i].id == s'.shown.toolCalls[i].id
  {
    forall i | 0 <= i < |s.shown.toolCalls| ensures s.shown.toolCalls[i].id == s'.shown.toolCalls[i].id {
      assert s.shown.toolCalls[i] == Pinned(s.shown.toolCalls, s.ids.cache)[i];
      assert s'.shown.toolCalls[i] == Pinned(s'.shown.toolCalls, s'.ids.cache)[i];
    }
  }

  /** The same, for a whole response from the fresh state. */
  lemma ResponseRebuilds(raws: seq<Message>, gen: nat -> string)
    requires raws != [] && RawChain(EMPTY_MESSAGE, raws)
    ensures var (s', r) := Run(State(EMPTY_MESSAGE, Ids([], 0)), raws, gen);
            && r.Ok? && ApplyAll(EMPTY_MESSAGE, r.value) == s'.shown && SameText(s'.shown, raws[|raws| - 1])
  {
    var s := State(EMPTY_MESSAGE, Ids([], 0));
    assert s.shown.toolCalls == Pinned(s.shown.toolCalls, []);
    RunRebuilds(s, EMPTY_MESSAGE, raws, gen);
  }
}

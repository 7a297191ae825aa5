/** What the client of a filtered stream holds: names are sent once, and late growth of a name is lost. */
module FilteredStream {
  import opened MessageDiff
  import opened ResponseStream
  import opened Wrappers

  // ---------- the filtered client against the unfiltered one ----------

  predicate AllNamed(m: Message) {
    forall i :: 0 <= i < |m.toolCalls| ==> m.toolCalls[i].name != ""
  }

  function ArgumentsAt(m: Message, i: nat): string {
    if i < |m.toolCalls| then m.toolCalls[i].arguments else ""
  }

  /** A call that has been sent has the arguments so far, its id, and the name it was sent with; one that has not
      been sent has no arguments yet and is unknown to the client.
   */
  predicate CallInStep(i: nat, c: Message, u: Message, cur: Message, sent: set<nat>)
    requires i < |cur.toolCalls|
  {
    if i in sent then
      && i < |c.toolCalls| && c.toolCalls[i].arguments == ArgumentsAt(u, i) && c.toolCalls[i].id == cur.toolCalls[i].id
      && c.toolCalls[i].name <= cur.toolCalls[i].name
    else ArgumentsAt(u, i) == "" && (i < |c.toolCalls| ==> c.toolCalls[i] == NO_CALL)
  }

  /** While the deltas of a step towards `cur` are passed on: the filtered client `c` against the unfiltered `u`. */
  ghost predicate InStep(c: Message, u: Message, cur: Message, sent: set<nat>) {
    && c.reasoning == u.reasoning && c.content == u.content
    && |c.toolCalls| <= |cur.toolCalls| && |u.toolCalls| <= |cur.toolCalls|
    && (forall i :: i in sent ==> i < |cur.toolCalls|)
    && forall i: nat :: i < |cur.toolCalls| ==> CallInStep(i, c, u, cur, sent)
  }

  /** What is sent on changes no name the client knows, and announces each call newly sent once, by its present
      name.
   */
  ghost predicate Announces(c: Message, c': Message, out: seq<Delta>, cur: Message, sent: set<nat>, sent': set<nat>) {
    && sent <= sent'
    && (forall i :: i in sent && i < |c.toolCalls| ==> i < |c'.toolCalls| && c'.toolCalls[i].name == c.toolCalls[i].name)
    && (forall i :: i in sent' && i !in sent ==>
          i < |cur.toolCalls| && i < |c'.toolCalls| && c'.toolCalls[i].name == cur.toolCalls[i].name)
    && forall i: nat :: NamesOf(out, i) == if i in sent' && i !in sent then 1 else 0
  }

  /** How many of the deltas carry a name for a call. */
  function NamesOf(ds: seq<Delta>, i: nat): nat {
    if ds == [] then 0 else (if ds[0].index == Some(i) && ds[0].toolCall.name != "" then 1 else 0) + NamesOf(ds[1..], i)
  }

  lemma {:induction false} NamesConcat(a: seq<Delta>, b: seq<Delta>, i: nat)
    ensures NamesOf(a + b, i) == NamesOf(a, i) + NamesOf(b, i)
    decreases a
  {
    if a == [] {
      assert a + b == b;
    } else {
      assert (a + b)[1..] == a[1..] + b;
      NamesConcat(a[1..], b, i);
    }
  }

  lemma NamesOne(d: Delta, i: nat)
    ensures NamesOf([d], i) == if d.index == Some(i) && d.toolCall.name != "" then 1 else 0
  {
    assert [d][1..] == [];
  }

  lemma AnnouncesNothing(c: Message, cur: Message, sent: set<nat>)
    ensures ApplyAll(c, []) == c && Announces(c, c, [], cur, sent, sent)
  {
  }

  /** One batch after another. */
  lemma AnnouncesBoth(c: Message, a: seq<Delta>, b: seq<Delta>, cur: Message, s0: set<nat>, s1: set<nat>, s2: set<nat>)
    requires Announces(c, ApplyAll(c, a), a, cur, s0, s1)
    requires Announces(ApplyAll(c, a), ApplyAll(ApplyAll(c, a), b), b, cur, s1, s2)
    ensures Announces(c, ApplyAll(c, a + b), a + b, cur, s0, s2)
    ensures ApplyAll(c, a + b) == ApplyAll(ApplyAll(c, a), b)
  {
    hide ApplyAll, NamesOf;
    ApplyAllConcat(c, a, b);
    forall i: nat ensures NamesOf(a + b, i) == if i in s2 && i !in s0 then 1 else 0 {
      NamesConcat(a, b, i);
    }
  }

  lemma ApplyToCall(c: Message, i: nat, call: ToolCall, n: nat)
    requires i < n && |c.toolCalls| <= n
    ensures var c' := Apply(c, Delta("", "", Some(i), call));
      && c'.reasoning == c.reasoning && c'.content == c.content && |c.toolCalls| <= |c'.toolCalls| <= n && i < |c'.toolCalls|
      && c'.toolCalls[i] == Merge(if i < |c.toolCalls| then c.toolCalls[i] else NO_CALL, call)
      && forall k :: 0 <= k < |c'.toolCalls| && k != i ==>
           c'.toolCalls[k] == if k < |c.toolCalls| then c.toolCalls[k] else NO_CALL
  {
    PadIs(c.toolCalls, i + 1);
    assert c.reasoning + "" == c.reasoning && c.content + "" == c.content;
  }

  lemma {:induction false} PadIs(calls: seq<ToolCall>, n: nat)
    ensures |Pad(calls, n)| == if |calls| < n then n else |calls|
    ensures forall k :: 0 <= k < |Pad(calls, n)| ==> Pad(calls, n)[k] == if k < |calls| then calls[k] else NO_CALL
    decreases n - |calls|
  {
    if |calls| < n {
      PadIs(calls + [NO_CALL], n);
    }
  }

  /** Announcing a call that has not been sent. */
  lemma HeaderInStep(c: Message, u: Message, cur: Message, sent: set<nat>, i: nat)
    requires InStep(c, u, cur, sent) && AllNamed(cur) && i < |cur.toolCalls| && i !in sent
    ensures var c', out := Apply(c, Header(cur, i)), [Header(cur, i)];
      && ApplyAll(c, out) == c' && InStep(c', u, cur, sent + {i}) && Announces(c, c', out, cur, sent, sent + {i})
  {
    hide Apply, NamesOf, ApplyAll, Merge;
    var c', d := Apply(c, Header(cur, i)), Header(cur, i);
    ApplyOne(c, [d]);
    ApplyToCall(c, i, d.toolCall, |cur.toolCalls|);
    MergeNew(d.toolCall);
    assert CallInStep(i, c, u, cur, sent);
    forall k: nat | k < |cur.toolCalls| ensures CallInStep(k, c', u, cur, sent + {i}) {
      assert CallInStep(k, c, u, cur, sent);
    }
    forall k: nat ensures NamesOf([d], k) == if k in sent + {i} && k !in sent then 1 else 0 {
      NamesOne(d, k);
    }
    forall k | k in sent && k < |c.toolCalls| ensures k < |c'.toolCalls| && c'.toolCalls[k].name == c.toolCalls[k].name {
    }
  }

  lemma MergeNew(call: ToolCall)
    ensures Merge(NO_CALL, call) == call
  {
  }

  lemma {:induction false} DueInStep(c: Message, u: Message, cur: Message, sent: set<nat>, d: Option<Delta>, i: nat)
    requires InStep(c, u, cur, sent) && AllNamed(cur) && i <= |cur.toolCalls|
    ensures var (out, sent') := DueHeaders(cur, sent, d, i);
      && InStep(ApplyAll(c, out), u, cur, sent') && Announces(c, ApplyAll(c, out), out, cur, sent, sent')
      && forall k: nat :: i <= k < |cur.toolCalls| && Due(d, k) ==> k in sent'
    decreases |cur.toolCalls| - i
  {
    hide InStep, Announces, ApplyAll, Apply, Due;
    if i == |cur.toolCalls| {
      AnnouncesNothing(c, cur, sent);
    } else if i in sent || !Due(d, i) {
      DueInStep(c, u, cur, sent, d, i + 1);
      SentStays(c, cur, sent, d, i + 1);
    } else {
      HeaderInStep(c, u, cur, sent, i);
      var c1 := Apply(c, Header(cur, i));
      DueInStep(c1, u, cur, sent + {i}, d, i + 1);
      SentStays(c, cur, sent + {i}, d, i + 1);
      AnnouncesBoth(c, [Header(cur, i)], DueHeaders(cur, sent + {i}, d, i + 1).0, cur, sent, sent + {i},
                    DueHeaders(cur, sent + {i}, d, i + 1).1);
    }
  }

  lemma {:induction false} SentStays(c: Message, cur: Message, sent: set<nat>, d: Option<Delta>, i: nat)
    requires i <= |cur.toolCalls|
    ensures sent <= DueHeaders(cur, sent, d, i).1
    decreases |cur.toolCalls| - i
  {
    hide Due;
    if i < |cur.toolCalls| {
      SentStays(c, cur, sent, d, i + 1);
      SentStays(c, cur, sent + {i}, d, i + 1);
    }
  }

  predicate DeltaOk(d: Delta, cur: Message) {
    d.index.Some? ==> d.index.value < |cur.toolCalls| && d.reasoning == "" && d.content == ""
  }

  lemma TextInStep(c: Message, u: Message, cur: Message, sent: set<nat>, d: Delta)
    requires InStep(c, u, cur, sent) && d.index.None?
    ensures InStep(Apply(c, d), Apply(u, d), cur, sent) && Announces(c, Apply(c, d), [d], cur, sent, sent)
  {
    hide NamesOf;
    forall k: nat ensures NamesOf([d], k) == 0 {
      NamesOne(d, k);
    }
    forall k: nat | k < |cur.toolCalls| ensures CallInStep(k, Apply(c, d), Apply(u, d), cur, sent) {
      assert CallInStep(k, c, u, cur, sent);
    }
  }

  /** What the unfiltered client makes of a delta about a call. */
  lemma ArgumentsAfter(u: Message, d: Delta, cur: Message)
    requires DeltaOk(d, cur) && d.index.Some? && |u.toolCalls| <= |cur.toolCalls|
    ensures var u' := Apply(u, d);
      && u'.reasoning == u.reasoning && u'.content == u.content && |u'.toolCalls| <= |cur.toolCalls|
      && forall k: nat :: ArgumentsAt(u', k) == ArgumentsAt(u, k) + if k == d.index.value then d.toolCall.arguments else ""
  {
    hide Apply;
    ApplyToCall(u, d.index.value, d.toolCall, |cur.toolCalls|);
    assert d == Delta("", "", d.index, d.toolCall);
    forall k: nat
      ensures ArgumentsAt(Apply(u, d), k) == ArgumentsAt(u, k) + if k == d.index.value then d.toolCall.arguments else ""
    {
      assert ArgumentsAt(u, k) + "" == ArgumentsAt(u, k) && "" + d.toolCall.arguments == d.toolCall.arguments;
    }
  }

  /** A delta about a call that has been sent: only its arguments go on. */
  lemma SentInStep(c: Message, u: Message, cur: Message, sent: set<nat>, d: Delta, partial: bool)
    requires InStep(c, u, cur, sent) && DeltaOk(d, cur) && d.index.Some? && d.index.value in sent
    ensures var (out, sent') := Passed(cur, sent, d, partial);
      InStep(ApplyAll(c, out), Apply(u, d), cur, sent') && Announces(c, ApplyAll(c, out), out, cur, sent, sent')
  {
    hide Apply, ApplyAll, NamesOf, Merge;
    var i := d.index.value;
    var out := Passed(cur, sent, d, partial).0;
    ArgumentsAfter(u, d, cur);
    ApplyOne(c, out);
    var c' := ApplyAll(c, out);
    assert CallInStep(i, c, u, cur, sent);
    if out == [] {
      AnnouncesNothing(c, cur, sent);
    } else {
      var call := ToolCall("", d.toolCall.arguments, "");
      assert out == [Delta("", "", Some(i), call)];
      ApplyToCall(c, i, call, |cur.toolCalls|);
      MergeArguments(c.toolCalls[i], call);
      forall k: nat ensures NamesOf(out, k) == 0 {
        NamesOne(out[0], k);
      }
    }
    forall k: nat | k < |cur.toolCalls| ensures CallInStep(k, c', Apply(u, d), cur, sent) {
      assert CallInStep(k, c, u, cur, sent);
    }
  }

  lemma MergeArguments(call: ToolCall, d: ToolCall)
    requires d.name == "" && d.id == ""
    ensures Merge(call, d) == call.(arguments := call.arguments + d.arguments)
  {
  }

  /** A delta about a call that has not been sent brings no arguments: it is suppressed, or announces the call. */
  lemma UnsentInStep(c: Message, u: Message, cur: Message, sent: set<nat>, d: Delta, partial: bool)
    requires InStep(c, u, cur, sent) && AllNamed(cur) && DeltaOk(d, cur)
    requires d.index.Some? && d.index.value !in sent && d.toolCall.arguments == ""
    ensures var (out, sent') := Passed(cur, sent, d, partial);
      InStep(ApplyAll(c, out), Apply(u, d), cur, sent') && Announces(c, ApplyAll(c, out), out, cur, sent, sent')
  {
    hide Apply, ApplyAll, NamesOf;
    var i := d.index.value;
    var (out, sent') := Passed(cur, sent, d, partial);
    ArgumentsAfter(u, d, cur);
    if partial {
      AnnouncesNothing(c, cur, sent);
    } else {
      assert out == [Header(cur, i)];
      HeaderInStep(c, u, cur, sent, i);
    }
    var c' := ApplyAll(c, out);
    forall k: nat | k < |cur.toolCalls| ensures CallInStep(k, c', Apply(u, d), cur, sent') {
      assert CallInStep(k, c', u, cur, sent');
      assert ArgumentsAt(u, k) + "" == ArgumentsAt(u, k);
    }
  }

  lemma DeltaInStep(c: Message, u: Message, cur: Message, sent: set<nat>, d: Delta, partial: bool)
    requires InStep(c, u, cur, sent) && AllNamed(cur) && DeltaOk(d, cur)
    ensures var (out, sent') := FilteredDelta(cur, sent, d, partial);
      InStep(ApplyAll(c, out), Apply(u, d), cur, sent') && Announces(c, ApplyAll(c, out), out, cur, sent, sent')
  {
    hide InStep, Announces, Apply, ApplyAll, DueHeaders, Passed, AllNamed;
    var (headers, sent1) := DueHeaders(cur, sent, Some(d), 0);
    var (passed, sent2) := Passed(cur, sent1, d, partial);
    var c1 := ApplyAll(c, headers);
    DueInStep(c, u, cur, sent, Some(d), 0);
    if d.index.None? {
      TextInStep(c1, u, cur, sent1, d);
      PassedText(cur, sent1, d, partial);
      ApplyOne(c1, [d]);
    } else if d.index.value in sent1 {
      SentInStep(c1, u, cur, sent1, d, partial);
    } else {
      UnsentInStep(c1, u, cur, sent1, d, partial);
    }
    AnnouncesBoth(c, headers, passed, cur, sent, sent1, sent2);
  }

  lemma PassedText(m: Message, sent: set<nat>, d: Delta, partial: bool)
    requires d.index.None?
    ensures Passed(m, sent, d, partial) == ([d], sent)
  {
  }

  lemma {:induction false} DeltasInStep(c: Message, u: Message, cur: Message, sent: set<nat>, ds: seq<Delta>, partial: bool)
    requires InStep(c, u, cur, sent) && AllNamed(cur) && forall k :: 0 <= k < |ds| ==> DeltaOk(ds[k], cur)
    requires Indexed(cur, ds)
    ensures var (out, sent') := FilteredDeltas(cur, sent, ds, partial);
      && InStep(ApplyAll(c, out), ApplyAll(u, ds), cur, sent') && Announces(c, ApplyAll(c, out), out, cur, sent, sent')
      && (!partial ==> forall k: nat :: k < |cur.toolCalls| ==> k in sent')
    decreases ds
  {
    hide InStep, Announces, Apply, DueHeaders, FilteredDelta, AllNamed, DeltaOk;
    if ds == [] {
      AnnouncesNothing(c, cur, sent);
      DueInStep(c, u, cur, sent, None, 0);
      AllDue();
    } else {
      var (first, sent1) := FilteredDelta(cur, sent, ds[0], partial);
      var (rest, sent2) := FilteredDeltas(cur, sent1, ds[1..], partial);
      DeltaInStep(c, u, cur, sent, ds[0], partial);
      DeltasInStep(ApplyAll(c, first), Apply(u, ds[0]), cur, sent1, ds[1..], partial);
      AnnouncesBoth(c, first, rest, cur, sent, sent1, sent2);
    }
  }

  lemma AllDue()
    ensures forall k: nat :: Due(None, k)
  {
  }

  // ---------- one parse ----------

  /** Each call sent is known to the client by its present name. */
  ghost predicate Exact(c: Message, m: Message, sent: set<nat>) {
    forall i :: i in sent && i < |c.toolCalls| && i < |m.toolCalls| ==> c.toolCalls[i].name == m.toolCalls[i].name
  }

  /** A call has got another name after it was sent. */
  ghost predicate Renamed(prv: Message, cur: Message, sent: set<nat>) {
    exists i :: i in sent && i < |prv.toolCalls| && i < |cur.toolCalls| && prv.toolCalls[i].name != cur.toolCalls[i].name
  }

  /** Calls keep their ids, and their names grow at most. */
  predicate CallsKept(prv: Message, cur: Message) {
    && |prv.toolCalls| <= |cur.toolCalls|
    && forall i :: 0 <= i < |prv.toolCalls| ==>
         prv.toolCalls[i].id == cur.toolCalls[i].id && prv.toolCalls[i].name <= cur.toolCalls[i].name
  }

  lemma Rebase(c: Message, prv: Message, cur: Message, sent: set<nat>)
    requires InStep(c, prv, prv, sent) && CallsKept(prv, cur)
    ensures InStep(c, prv, cur, sent)
  {
    forall i: nat | i < |cur.toolCalls| ensures CallInStep(i, c, prv, cur, sent) {
      assert i < |prv.toolCalls| ==> CallInStep(i, c, prv, prv, sent);
    }
  }

  lemma ExactAfter(c: Message, c': Message, out: seq<Delta>, prv: Message, cur: Message, sent: set<nat>, sent': set<nat>)
    requires InStep(c, prv, prv, sent) && CallsKept(prv, cur) && Announces(c, c', out, cur, sent, sent')
    ensures Exact(c', cur, sent') <==> Exact(c, prv, sent) && !Renamed(prv, cur, sent)
  {
    hide NamesOf;
    forall i | i in sent
      ensures i < |prv.toolCalls| && i < |c.toolCalls| && i < |c'.toolCalls| && c'.toolCalls[i].name == c.toolCalls[i].name
      ensures c.toolCalls[i].name <= prv.toolCalls[i].name <= cur.toolCalls[i].name
    {
      assert CallInStep(i, c, prv, prv, sent);
    }
    forall i | i in sent
      ensures c'.toolCalls[i].name == cur.toolCalls[i].name
         <==> c.toolCalls[i].name == prv.toolCalls[i].name && prv.toolCalls[i].name == cur.toolCalls[i].name
    {
      Between(c.toolCalls[i].name, prv.toolCalls[i].name, cur.toolCalls[i].name);
    }
    if Exact(c', cur, sent') {
      assert forall i :: i in sent ==> c'.toolCalls[i].name == cur.toolCalls[i].name;
    }
    if Exact(c, prv, sent) && !Renamed(prv, cur, sent) {
      assert forall i :: i in sent ==> prv.toolCalls[i].name == cur.toolCalls[i].name;
    }
  }

  lemma Between(a: string, b: string, c: string)
    requires a <= b <= c
    ensures a == c <==> a == b && b == c
  {
  }

  lemma StepKeepsCalls(s: State, prv: Message, raw: Message, gen: nat -> string)
    requires Consistent(s) && SameText(s.shown, prv) && TextGrows(prv, raw)
    ensures CallsKept(s.shown, Step(s, raw, gen).0.shown)
    ensures AllNamed(raw) ==> AllNamed(Step(s, raw, gen).0.shown)
  {
    hide Step, Consistent, SameText, TextGrows, CallsKept, AllNamed;
    StepExtends(s, prv, raw, gen);
    var s' := Step(s, raw, gen).0;
    KeptLengths(s.shown, s'.shown, prv, raw);
    IdsStay(s, s');
    KeptNames(s.shown, s'.shown, prv, raw);
  }

  lemma KeptLengths(a: Message, b: Message, prv: Message, raw: Message)
    requires SameText(a, prv) && SameText(b, raw) && TextGrows(prv, raw)
    ensures |a.toolCalls| <= |b.toolCalls|
  {
  }

  lemma KeptNames(a: Message, b: Message, prv: Message, raw: Message)
    requires SameText(a, prv) && SameText(b, raw) && TextGrows(prv, raw) && |a.toolCalls| <= |b.toolCalls|
    requires forall i :: 0 <= i < |a.toolCalls| ==> a.toolCalls[i].id == b.toolCalls[i].id
    ensures CallsKept(a, b) && (AllNamed(raw) ==> AllNamed(b))
  {
    forall i | 0 <= i < |a.toolCalls| ensures a.toolCalls[i].name <= b.toolCalls[i].name {
      assert a.toolCalls[i].(id := "") == prv.toolCalls[i].(id := "");
      assert b.toolCalls[i].(id := "") == raw.toolCalls[i].(id := "");
    }
    forall i | 0 <= i < |b.toolCalls| && AllNamed(raw) ensures b.toolCalls[i].name != "" {
      assert b.toolCalls[i].(id := "") == raw.toolCalls[i].(id := "");
    }
  }

  lemma StepInStep(c: Message, s: State, sent: set<nat>, prv: Message, raw: Message, partial: bool, gen: nat -> string)
    requires Consistent(s) && SameText(s.shown, prv) && TextGrows(prv, raw) && AllNamed(raw)
    requires InStep(c, s.shown, s.shown, sent)
    ensures var (s', sent', r) := FilteredStep(s, sent, raw, partial, gen);
      && Consistent(s') && SameText(s'.shown, raw) && r.Ok?
      && var c' := ApplyAll(c, r.value);
         && InStep(c', s'.shown, s'.shown, sent') && Announces(c, c', r.value, s'.shown, sent, sent')
         && (Exact(c', s'.shown, sent') <==> Exact(c, s.shown, sent) && !Renamed(s.shown, s'.shown, sent))
         && (!partial ==> forall k: nat :: k < |s'.shown.toolCalls| ==> k in sent')
  {
    hide InStep, Announces, Exact, Renamed, ApplyAll, Diffs, FilteredDeltas, Consistent, SameText, TextGrows, CallsKept, AllNamed, Step;
    StepExtends(s, prv, raw, gen);
    StepKeepsCalls(s, prv, raw, gen);
    if raw.IsEmpty() {
      AnnouncesNothing(c, s.shown, sent);
      EmptyStep(s, raw, gen);
      ExactAfter(c, c, [], s.shown, s.shown, sent, sent);
      NoCalls(s.shown, raw);
    } else {
      var (s', r) := Step(s, raw, gen);
      StepDiffs(s, raw, gen);
      DiffsIndexed(s.shown, s'.shown);
      Rebase(c, s.shown, s'.shown, sent);
      DeltasInStep(c, s.shown, s'.shown, sent, r.value, partial);
      var (out, sent') := FilteredDeltas(s'.shown, sent, r.value, partial);
      ExactAfter(c, ApplyAll(c, out), out, s.shown, s'.shown, sent, sent');
    }
  }

  lemma EmptyStep(s: State, raw: Message, gen: nat -> string)
    requires raw.IsEmpty()
    ensures Step(s, raw, gen) == (s, Ok([])) && CallsKept(s.shown, s.shown)
  {
  }

  lemma StepDiffs(s: State, raw: Message, gen: nat -> string)
    requires !raw.IsEmpty()
    ensures Step(s, raw, gen).1 == Diffs(s.shown, Step(s, raw, gen).0.shown)
  {
  }

  lemma NoCalls(m: Message, raw: Message)
    requires SameText(m, raw) && raw.IsEmpty()
    ensures |m.toolCalls| == 0
  {
  }

  // ---------- whole responses ----------

  datatype Parse = Parse(raw: Message, partial: bool)

  function FilteredRun(s: State, sent: set<nat>, ps: seq<Parse>, gen: nat -> string)
    : (State, set<nat>, Result<seq<Delta>, DiffError>)
    decreases ps
  {
    if ps == [] then (s, sent, Ok([]))
    else
      var (s1, sent1, r1) := FilteredStep(s, sent, ps[0].raw, ps[0].partial, gen);
      var (s2, sent2, r2) := FilteredRun(s1, sent1, ps[1..], gen);
      (s2, sent2, if r1.Err? then r1 else if r2.Err? then r2 else Ok(r1.value + r2.value))
  }

  /** Successive parses whose text only grows, with every call named. */
  ghost predicate NamedChain(prv: Message, ps: seq<Parse>)
    decreases ps
  {
    ps != [] ==> TextGrows(prv, ps[0].raw) && AllNamed(ps[0].raw) && NamedChain(ps[0].raw, ps[1..])
  }

  /** Somewhere in the run a call gets another name after it was sent. */
  ghost predicate RenamedLate(s: State, sent: set<nat>, ps: seq<Parse>, gen: nat -> string)
    decreases ps
  {
    ps != [] &&
      var (s1, sent1, _) := FilteredStep(s, sent, ps[0].raw, ps[0].partial, gen);
      Renamed(s.shown, s1.shown, sent) || RenamedLate(s1, sent1, ps[1..], gen)
  }

  ghost predicate NamesOnce(out: seq<Delta>, sent: set<nat>, sent': set<nat>) {
    sent <= sent' && forall i: nat :: NamesOf(out, i) == if i in sent' && i !in sent then 1 else 0
  }

  lemma AnnouncedOnce(c: Message, c': Message, out: seq<Delta>, cur: Message, sent: set<nat>, sent': set<nat>)
    requires Announces(c, c', out, cur, sent, sent')
    ensures NamesOnce(out, sent, sent')
  {
  }

  lemma OnceBoth(a: seq<Delta>, b: seq<Delta>, s0: set<nat>, s1: set<nat>, s2: set<nat>)
    requires NamesOnce(a, s0, s1) && NamesOnce(b, s1, s2)
    ensures NamesOnce(a + b, s0, s2)
  {
    hide NamesOf;
    forall i: nat ensures NamesOf(a + b, i) == if i in s2 && i !in s0 then 1 else 0 {
      NamesConcat(a, b, i);
    }
  }

  lemma NoNames(sent: set<nat>)
    ensures NamesOnce([], sent, sent)
  {
  }

  lemma {:induction false} RunInStep(c: Message, s: State, sent: set<nat>, prv: Message, ps: seq<Parse>, gen: nat -> string)
    requires Consistent(s) && SameText(s.shown, prv) && NamedChain(prv, ps) && InStep(c, s.shown, s.shown, sent)
    ensures var (s', sent', r) := FilteredRun(s, sent, ps, gen);
      && r.Ok? && SameText(s'.shown, if ps == [] then prv else ps[|ps| - 1].raw)
      && var c' := ApplyAll(c, r.value);
         && InStep(c', s'.shown, s'.shown, sent') && NamesOnce(r.value, sent, sent')
         && (Exact(c', s'.shown, sent') <==> Exact(c, s.shown, sent) && !RenamedLate(s, sent, ps, gen))
         && (ps != [] && !ps[|ps| - 1].partial ==> forall k: nat :: k < |s'.shown.toolCalls| ==> k in sent')
    decreases ps
  {
    hide InStep, Announces, Exact, Renamed, ApplyAll, FilteredStep, Consistent, SameText, TextGrows, AllNamed, NamesOnce;
    if ps == [] {
      NoNames(sent);
      AnnouncesNothing(c, s.shown, sent);
    } else {
      var (s1, sent1, r1) := FilteredStep(s, sent, ps[0].raw, ps[0].partial, gen);
      StepInStep(c, s, sent, prv, ps[0].raw, ps[0].partial, gen);
      var c1 := ApplyAll(c, r1.value);
      AnnouncedOnce(c, c1, r1.value, s1.shown, sent, sent1);
      RunInStep(c1, s1, sent1, ps[0].raw, ps[1..], gen);
      var (s2, sent2, r2) := FilteredRun(s1, sent1, ps[1..], gen);
      OnceBoth(r1.value, r2.value, sent, sent1, sent2);
      ApplyAllConcat(c, r1.value, r2.value);
      if |ps| == 1 {
        NothingLeft(s1, sent1, gen);
      }
    }
  }

  lemma NothingLeft(s: State, sent: set<nat>, gen: nat -> string)
    ensures FilteredRun(s, sent, [], gen) == (s, sent, Ok([]))
  {
  }

  /** Equal but for names, which the first has in part. */
  predicate NamesInPart(c: Message, m: Message) {
    && c.reasoning == m.reasoning && c.content == m.content && |c.toolCalls| == |m.toolCalls|
    && forall i :: 0 <= i < |c.toolCalls| ==>
         c.toolCalls[i].(name := "") == m.toolCalls[i].(name := "") && c.toolCalls[i].name <= m.toolCalls[i].name
  }

  lemma AllSent(c: Message, m: Message, sent: set<nat>)
    requires InStep(c, m, m, sent) && forall k: nat :: k < |m.toolCalls| ==> k in sent
    ensures NamesInPart(c, m) && (c == m <==> Exact(c, m, sent))
  {
    forall i | 0 <= i < |m.toolCalls|
      ensures i < |c.toolCalls| && c.toolCalls[i].(name := "") == m.toolCalls[i].(name := "") && c.toolCalls[i].name <= m.toolCalls[i].name
    {
      assert CallInStep(i, c, m, m, sent);
    }
    if |m.toolCalls| > 0 {
      var k: nat := |m.toolCalls| - 1;
      assert k in sent && CallInStep(k, c, m, m, sent);
    }
    if Exact(c, m, sent) {
      forall i | 0 <= i < |m.toolCalls| ensures c.toolCalls[i] == m.toolCalls[i] {
        assert i in sent;
      }
      assert c.toolCalls == m.toolCalls;
    }
  }

  /** However a response is parsed, if the last parse is of the whole: nothing is rejected, each call is named
      once, and the client ends with the final message, but for names that grew after they were sent; with
      exactly that message if and only if none did.
   */
  lemma FilteredRebuilds(ps: seq<Parse>, gen: nat -> string)
    requires ps != [] && !ps[|ps| - 1].partial && NamedChain(EMPTY_MESSAGE, ps)
    ensures var start := State(EMPTY_MESSAGE, Ids([], 0));
            var (s, sent, r) := FilteredRun(start, {}, ps, gen);
      && r.Ok? && SameText(s.shown, ps[|ps| - 1].raw)
      && (forall i: nat :: NamesOf(r.value, i) == if i < |s.shown.toolCalls| then 1 else 0)
      && var c := ApplyAll(EMPTY_MESSAGE, r.value);
         NamesInPart(c, s.shown) && (c == s.shown <==> !RenamedLate(start, {}, ps, gen))
  {
    hide FilteredRun, RenamedLate, NamedChain, ApplyAll, SameText, NamesOf;
    var start := State(EMPTY_MESSAGE, Ids([], 0));
    FreshInStep(start);
    RunInStep(EMPTY_MESSAGE, start, {}, EMPTY_MESSAGE, ps, gen);
    var (s, sent, r) := FilteredRun(start, {}, ps, gen);
    AllSent(ApplyAll(EMPTY_MESSAGE, r.value), s.shown, sent);
  }

  lemma FreshInStep(s: State)
    requires s == State(EMPTY_MESSAGE, Ids([], 0))
    ensures Consistent(s) && SameText(s.shown, EMPTY_MESSAGE) && InStep(EMPTY_MESSAGE, s.shown, s.shown, {})
    ensures Exact(EMPTY_MESSAGE, s.shown, {})
  {
    assert s.shown.toolCalls == Pinned(s.shown.toolCalls, []);
  }

  function NameThenMore(): seq<Parse> {
    [Parse(Message("", "", [ToolCall("get", "{", "")]), true), Parse(Message("", "", [ToolCall("get_all", "{", "")]), false)]
  }

  /** A name that grows after its call has arguments is sent too early. */
  lemma LateName(gen: nat -> string)
    ensures NamedChain(EMPTY_MESSAGE, NameThenMore())
    ensures RenamedLate(State(EMPTY_MESSAGE, Ids([], 0)), {}, NameThenMore(), gen)
  {
    hide ApplyAll, FilteredStep, InStep, Announces, Exact, Consistent;
    var ps, start := NameThenMore(), State(EMPTY_MESSAGE, Ids([], 0));
    LateChain();
    var (s1, sent1, r1) := FilteredStep(start, {}, ps[0].raw, true, gen);
    var (s2, sent2, r2) := FilteredStep(s1, sent1, ps[1].raw, false, gen);
    FirstSent(gen);
    FreshInStep(start);
    StepInStep(EMPTY_MESSAGE, start, {}, EMPTY_MESSAGE, ps[0].raw, true, gen);
    StepInStep(ApplyAll(EMPTY_MESSAGE, r1.value), s1, sent1, ps[0].raw, ps[1].raw, false, gen);
    OtherName(s1.shown, s2.shown, sent1);
    assert ps[1..][0] == ps[1];
  }

  lemma LateChain()
    ensures var ps := NameThenMore();
      && NamedChain(EMPTY_MESSAGE, ps) && AllNamed(ps[0].raw) && AllNamed(ps[1].raw)
      && TextGrows(EMPTY_MESSAGE, ps[0].raw) && TextGrows(ps[0].raw, ps[1].raw)
  {
    var ps := NameThenMore();
    assert ps[1..] == [ps[1]] && ps[1..][1..] == [];
    assert "get_all"[..3] == "get";
  }

  lemma OtherName(a: Message, b: Message, sent: set<nat>)
    requires SameText(a, NameThenMore()[0].raw) && SameText(b, NameThenMore()[1].raw) && 0 in sent
    ensures Renamed(a, b, sent)
  {
    assert a.toolCalls[0].(id := "") == NameThenMore()[0].raw.toolCalls[0].(id := "");
    assert b.toolCalls[0].(id := "") == NameThenMore()[1].raw.toolCalls[0].(id := "");
    assert a.toolCalls[0].name == "get" && b.toolCalls[0].name == "get_all" && |"get"| != |"get_all"|;
  }

  lemma FirstSent(gen: nat -> string)
    ensures var (s1, sent1, r1) := FilteredStep(State(EMPTY_MESSAGE, Ids([], 0)), {}, NameThenMore()[0].raw, true, gen);
      r1.Ok? && 0 in sent1
  {
    hide ApplyAll;
    var start, raw := State(EMPTY_MESSAGE, Ids([], 0)), NameThenMore()[0].raw;
    var (s1, r) := Step(start, raw, gen);
    FreshInStep(start);
    StepExtends(start, EMPTY_MESSAGE, raw, gen);
    assert s1.shown.toolCalls[0].(id := "") == raw.toolCalls[0].(id := "");
    var ds := r.value;
    assert NewCallDeltas(s1.shown.toolCalls, 0) == [Delta("", "", Some(0), s1.shown.toolCalls[0])];
    assert ds == [Delta("", "", Some(0), s1.shown.toolCalls[0])];
    DiffsIndexed(start.shown, s1.shown);
    var none: set<nat> := {};
    assert |s1.shown.toolCalls| == 1 && s1.shown.toolCalls[0].name == "get" && Due(Some(ds[0]), 0);
    assert DueHeaders(s1.shown, none + {0}, Some(ds[0]), 1) == ([], none + {0});
    var (headers, sent) := DueHeaders(s1.shown, none, Some(ds[0]), 0);
    assert 0 in sent && Passed(s1.shown, sent, ds[0], true).1 == sent;
    var rest := FilteredDeltas(s1.shown, sent, ds[1..], true);
    assert rest == ([], sent);
  }
}

/** Streaming deltas between successive parses of one assistant message.

    A message is re-parsed from scratch whenever more text has been generated; `Diffs` is what is
    sent to the client for one step, and `Apply` is how a client folds a delta into what it holds.
 */
module MessageDiff {

  import opened Wrappers

  datatype DiffError = TextNotExtended | FewerToolCalls | ToolCallMismatch

  datatype ToolCall = ToolCall(name: string, arguments: string, id: string)

  datatype Message = Message(reasoning: string, content: string, toolCalls: seq<ToolCall>) {
    predicate IsEmpty() {
      content == "" && toolCalls == [] && reasoning == ""
    }
  }

  datatype Delta = Delta(reasoning: string, content: string, index: Option<nat>, toolCall: ToolCall)

  const NO_CALL := ToolCall("", "", "")
  const EMPTY_MESSAGE := Message("", "", [])

  // ---------- one step ----------

  /** What must be appended to `last` to reach `current`. A `current` that has shrunk to a proper
      prefix of `last` (an erased stop word) yields nothing at all. */
  function StringDiff(last: string, current: string): Result<string, DiffError> {
    if last == "" then
      Ok(current)
    else if !(last <= current) then
      if current <= last then Ok("") else Err(TextNotExtended)
    else
      Ok(current[|last|..])
  }

  function ReasoningDeltas(prv: Message, cur: Message): Result<seq<Delta>, DiffError> {
    if prv.reasoning == cur.reasoning then
      Ok([])
    else
      var d :- StringDiff(prv.reasoning, cur.reasoning);
      Ok([Delta(d, "", None, NO_CALL)])
  }

  function ContentDeltas(prv: Message, cur: Message): Result<seq<Delta>, DiffError> {
    if prv.content == cur.content then
      Ok([])
    else
      var d :- StringDiff(prv.content, cur.content);
      Ok([Delta("", d, None, NO_CALL)])
  }

  /** The delta for the call that was last in the previous message. */
  function LastCallDeltas(idx: nat, pref: ToolCall, newf: ToolCall): Result<seq<Delta>, DiffError> {
    if pref.name != newf.name && pref.name != "" && newf.name != "" && !(pref.name <= newf.name) then
      Err(ToolCallMismatch)
    else
      var args :- StringDiff(pref.arguments, newf.arguments);
      var renamed := pref.id != newf.id || pref.name != newf.name;
      if args != "" || renamed then
        Ok([Delta("", "", Some(idx), ToolCall(if renamed then newf.name else "", args, if renamed then newf.id else ""))])
      else
        Ok([])
  }

  function LastDeltas(prv: Message, cur: Message): Result<seq<Delta>, DiffError>
    requires |prv.toolCalls| <= |cur.toolCalls|
  {
    if prv.toolCalls == [] then
      Ok([])
    else
      var idx := |prv.toolCalls| - 1;
      LastCallDeltas(idx, prv.toolCalls[idx], cur.toolCalls[idx])
  }

  function NewCallDeltas(calls: seq<ToolCall>, from: nat): seq<Delta>
    requires from <= |calls|
    decreases |calls| - from
  {
    if from == |calls| then []
    else [Delta("", "", Some(from), calls[from])] + NewCallDeltas(calls, from + 1)
  }

  function Diffs(prv: Message, cur: Message): Result<seq<Delta>, DiffError> {
    var reasoning :- ReasoningDeltas(prv, cur);
    var content :- ContentDeltas(prv, cur);
    if |cur.toolCalls| < |prv.toolCalls| then
      Err(FewerToolCalls)
    else
      var last :- LastDeltas(prv, cur);
      Ok(reasoning + content + last + NewCallDeltas(cur.toolCalls, |prv.toolCalls|))
  }

  /** The appending loop of the original, proved against `Diffs`. */
  method ComputeDiffs(prv: Message, cur: Message) returns (r: Result<seq<Delta>, DiffError>)
    ensures r == Diffs(prv, cur)
  {
    var diffs: seq<Delta> := [];
    if prv.reasoning != cur.reasoning {
      var d :- StringDiff(prv.reasoning, cur.reasoning);
      diffs := diffs + [Delta(d, "", None, NO_CALL)];
    }
    if prv.content != cur.content {
      var d :- StringDiff(prv.content, cur.content);
      diffs := diffs + [Delta("", d, None, NO_CALL)];
    }
    if |cur.toolCalls| < |prv.toolCalls| {
      return Err(FewerToolCalls);
    }
    if prv.toolCalls != [] {
      var idx := |prv.toolCalls| - 1;
      var pref, newf := prv.toolCalls[idx], cur.toolCalls[idx];
      if pref.name != newf.name && pref.name != "" && newf.name != "" {
        if !(pref.name <= newf.name) {
          return Err(ToolCallMismatch);
        }
      }
      var args :- StringDiff(pref.arguments, newf.arguments);
      if args != "" || pref.id != newf.id || pref.name != newf.name {
        var call := NO_CALL;
        if pref.id != newf.id || pref.name != newf.name {
          call := call.(id := newf.id, name := newf.name);
        }
        diffs := diffs + [Delta("", "", Some(idx), call.(arguments := args))];
      }
    }
    assert diffs == ReasoningDeltas(prv, cur).value + ContentDeltas(prv, cur).value + LastDeltas(prv, cur).value;
    diffs := AppendNewCalls(diffs, cur.toolCalls, |prv.toolCalls|);
    r := Ok(diffs);
  }

  /** The last loop of the original: each new call as it is. */
  method AppendNewCalls(before: seq<Delta>, calls: seq<ToolCall>, from: nat) returns (diffs: seq<Delta>)
    requires from <= |calls|
    ensures diffs == before + NewCallDeltas(calls, from)
  {
    diffs := before;
    for idx := from to |calls|
      invariant diffs + NewCallDeltas(calls, idx) == before + NewCallDeltas(calls, from)
    {
      diffs := diffs + [Delta("", "", Some(idx), calls[idx])];
    }
    assert diffs + [] == diffs;
  }

  // ---------- the client ----------

  function Pad(calls: seq<ToolCall>, n: nat): (r: seq<ToolCall>)
    ensures |r| >= n && calls <= r
    ensures |calls| >= n ==> r == calls
    ensures |calls| + 1 == n ==> r == calls + [NO_CALL]
    decreases n - |calls|
  {
    if |calls| >= n then calls else Pad(calls + [NO_CALL], n)
  }

  /** Text is appended; a name or id replaces the old one only when the delta carries it. */
  function Merge(call: ToolCall, d: ToolCall): ToolCall {
    ToolCall(if d.name != "" then d.name else call.name,
             call.arguments + d.arguments,
             if d.id != "" then d.id else call.id)
  }

  function Apply(m: Message, d: Delta): Message {
    var calls := match d.index
      case None => m.toolCalls
      case Some(i) => var padded := Pad(m.toolCalls, i + 1); padded[i := Merge(padded[i], d.toolCall)];
    Message(m.reasoning + d.reasoning, m.content + d.content, calls)
  }

  function ApplyAll(m: Message, ds: seq<Delta>): Message
    decreases ds
  {
    if ds == [] then m else ApplyAll(Apply(m, ds[0]), ds[1..])
  }

  lemma {:induction false} ApplyAllConcat(m: Message, a: seq<Delta>, b: seq<Delta>)
    ensures ApplyAll(m, a + b) == ApplyAll(ApplyAll(m, a), b)
    decreases a
  {
    if a == [] {
      assert a + b == b;
    } else {
      assert (a + b)[1..] == a[1..] + b;
      ApplyAllConcat(Apply(m, a[0]), a[1..], b);
    }
  }

  // ---------- when one step is accepted, and when it is faithful ----------

  /** Everything `cur` says about a call that `prv` already had is an extension of what `prv` said. */
  predicate CallsGrow(prv: seq<ToolCall>, cur: seq<ToolCall>) {
    && |prv| <= |cur|
    && (forall i :: 0 <= i < |prv| - 1 ==> prv[i].name == cur[i].name && prv[i].arguments == cur[i].arguments)
    && (prv != [] ==> var k := |prv| - 1; prv[k].name <= cur[k].name && prv[k].arguments <= cur[k].arguments)
  }

  predicate IdsKept(prv: seq<ToolCall>, cur: seq<ToolCall>)
    requires |prv| <= |cur|
  {
    && (forall i :: 0 <= i < |prv| - 1 ==> prv[i].id == cur[i].id)
    && (prv != [] ==> var k := |prv| - 1; prv[k].id == cur[k].id || cur[k].id != "")
  }

  predicate TextGrows(prv: Message, cur: Message) {
    && prv.reasoning <= cur.reasoning
    && prv.content <= cur.content
    && CallsGrow(prv.toolCalls, cur.toolCalls)
  }

  lemma TextGrowsTransitive(a: Message, b: Message, c: Message)
    requires TextGrows(a, b) && TextGrows(b, c)
    ensures TextGrows(a, c)
  {
  }

  predicate Extends(prv: Message, cur: Message) {
    TextGrows(prv, cur) && IdsKept(prv.toolCalls, cur.toolCalls)
  }

  predicate Comparable(a: string, b: string) {
    a <= b || b <= a
  }

  /** No exception exactly when every compared text is comparable with its predecessor, no call has
      vanished, and a known name was dropped or lengthened. */
  lemma DiffsAccepted(prv: Message, cur: Message)
    ensures Diffs(prv, cur).Ok? <==>
              && Comparable(prv.reasoning, cur.reasoning)
              && Comparable(prv.content, cur.content)
              && |prv.toolCalls| <= |cur.toolCalls|
              && (prv.toolCalls != [] ==>
                    var k := |prv.toolCalls| - 1;
                    && Comparable(prv.toolCalls[k].arguments, cur.toolCalls[k].arguments)
                    && (cur.toolCalls[k].name == "" || prv.toolCalls[k].name <= cur.toolCalls[k].name))
  {
  }

  lemma {:induction false} NewCallsAppended(m: Message, calls: seq<ToolCall>)
    requires |m.toolCalls| <= |calls|
    ensures ApplyAll(m, NewCallDeltas(calls, |m.toolCalls|))
         == m.(toolCalls := m.toolCalls + calls[|m.toolCalls|..])
    decreases |calls| - |m.toolCalls|
  {
    hide Apply;
    var from := |m.toolCalls|;
    if from < |calls| {
      var ds := NewCallDeltas(calls, from);
      var m' := Apply(m, ds[0]);
      NewCallAppended(m, calls[from]);
      assert ds[1..] == NewCallDeltas(calls, from + 1);
      NewCallsAppended(m', calls);
      assert m'.toolCalls + calls[from + 1..] == m.toolCalls + calls[from..];
    } else {
      assert m.toolCalls + calls[from..] == m.toolCalls;
    }
  }

  lemma NewCallAppended(m: Message, call: ToolCall)
    ensures Apply(m, Delta("", "", Some(|m.toolCalls|), call)) == m.(toolCalls := m.toolCalls + [call])
  {
    assert m.reasoning + "" == m.reasoning && m.content + "" == m.content;
    assert Merge(NO_CALL, call) == call;
  }

  /** What the client holds after an accepted step, for any two messages at all. */
  function ClientAfter(prv: Message, cur: Message): Message
    requires |prv.toolCalls| <= |cur.toolCalls|
  {
    Message(Longer(prv.reasoning, cur.reasoning), Longer(prv.content, cur.content),
            KeptCalls(prv.toolCalls, cur.toolCalls) + cur.toolCalls[|prv.toolCalls|..])
  }

  function KeptCalls(prv: seq<ToolCall>, cur: seq<ToolCall>): (r: seq<ToolCall>)
    requires |prv| <= |cur|
    ensures |r| == |prv|
  {
    var n := |prv|;
    if n == 0 then [] else prv[n - 1 := LastCallAfter(prv[n - 1], cur[n - 1])]
  }

  function Longer(a: string, b: string): string {
    if a <= b then b else a
  }

  function LastCallAfter(pref: ToolCall, newf: ToolCall): ToolCall {
    ToolCall(if newf.name != "" then newf.name else pref.name,
             Longer(pref.arguments, newf.arguments),
             if newf.id != "" then newf.id else pref.id)
  }

  lemma ClientAfterText(prv: Message, cur: Message)
    requires ReasoningDeltas(prv, cur).Ok? && ContentDeltas(prv, cur).Ok?
    ensures ApplyAll(prv, ReasoningDeltas(prv, cur).value + ContentDeltas(prv, cur).value)
         == Message(Longer(prv.reasoning, cur.reasoning), Longer(prv.content, cur.content), prv.toolCalls)
  {
    hide ApplyAll, ReasoningDeltas, ContentDeltas, Longer;
    var r, c := ReasoningDeltas(prv, cur).value, ContentDeltas(prv, cur).value;
    ApplyAllConcat(prv, r, c);
    ClientAfterReasoning(prv, cur);
    ClientAfterContent(ApplyAll(prv, r), prv, cur);
  }

  lemma ClientAfterReasoning(prv: Message, cur: Message)
    requires ReasoningDeltas(prv, cur).Ok?
    ensures ApplyAll(prv, ReasoningDeltas(prv, cur).value) == prv.(reasoning := Longer(prv.reasoning, cur.reasoning))
  {
    hide ApplyAll;
    ApplyOne(prv, ReasoningDeltas(prv, cur).value);
    assert prv.content + "" == prv.content;
  }

  lemma ClientAfterContent(m: Message, prv: Message, cur: Message)
    requires ContentDeltas(prv, cur).Ok? && m.content == prv.content
    ensures ApplyAll(m, ContentDeltas(prv, cur).value) == m.(content := Longer(prv.content, cur.content))
  {
    hide ApplyAll;
    ApplyOne(m, ContentDeltas(prv, cur).value);
    assert m.reasoning + "" == m.reasoning;
  }

  lemma LastCallMerged(idx: nat, pref: ToolCall, newf: ToolCall)
    requires LastCallDeltas(idx, pref, newf).Ok?
    ensures var l := LastCallDeltas(idx, pref, newf).value;
            if l == [] then LastCallAfter(pref, newf) == pref
            else l == [Delta("", "", Some(idx), l[0].toolCall)] && Merge(pref, l[0].toolCall) == LastCallAfter(pref, newf)
  {
  }

  lemma ClientAfterLast(m: Message, prv: Message, cur: Message)
    requires |prv.toolCalls| <= |cur.toolCalls| && LastDeltas(prv, cur).Ok?
    requires m.toolCalls == prv.toolCalls
    ensures ApplyAll(m, LastDeltas(prv, cur).value) == m.(toolCalls := KeptCalls(prv.toolCalls, cur.toolCalls))
  {
    var n := |prv.toolCalls|;
    if n > 0 {
      LastCallMerged(n - 1, prv.toolCalls[n - 1], cur.toolCalls[n - 1]);
      var l := LastDeltas(prv, cur).value;
      ApplyOne(m, l);
      assert m.reasoning + "" == m.reasoning && m.content + "" == m.content;
    }
  }

  lemma ClientAfterStep(prv: Message, cur: Message)
    requires Diffs(prv, cur).Ok?
    ensures |prv.toolCalls| <= |cur.toolCalls|
    ensures ApplyAll(prv, Diffs(prv, cur).value) == ClientAfter(prv, cur)
  {
    var n := |prv.toolCalls|;
    var text := ReasoningDeltas(prv, cur).value + ContentDeltas(prv, cur).value;
    var l := LastDeltas(prv, cur).value;
    var added := NewCallDeltas(cur.toolCalls, n);
    ApplyAllConcat(prv, text + l, added);
    ApplyAllConcat(prv, text, l);
    ClientAfterText(prv, cur);
    ClientAfterLast(ApplyAll(prv, text), prv, cur);
    NewCallsAppended(ApplyAll(prv, text + l), cur.toolCalls);
  }

  lemma ApplyOne(m: Message, ds: seq<Delta>)
    requires |ds| <= 1
    ensures ApplyAll(m, ds) == if ds == [] then m else Apply(m, ds[0])
  {
  }

  /** The exact condition: a step is accepted and leaves the client with precisely the new message
      if and only if the new message extends the old one. */
  lemma StepFaithful(prv: Message, cur: Message)
    ensures Diffs(prv, cur).Ok? && ApplyAll(prv, Diffs(prv, cur).value) == cur <==> Extends(prv, cur)
  {
    hide Diffs, ApplyAll, KeptCalls;
    DiffsAccepted(prv, cur);
    if Diffs(prv, cur).Ok? {
      ClientAfterStep(prv, cur);
      SameCalls(prv.toolCalls, cur.toolCalls);
    }
  }

  function TwoCalls(name: string): Message {
    Message("", "", [ToolCall(name, "{}", "1"), ToolCall("last", "", "2")])
  }

  /** A changed name on an earlier call is accepted without a word to the client. */
  lemma RenamedEarlierCall()
    ensures Diffs(TwoCalls("old"), TwoCalls("new")) == Ok([])
    ensures ApplyAll(TwoCalls("old"), []) == TwoCalls("old") != TwoCalls("new")
  {
    var prv, cur := TwoCalls("old"), TwoCalls("new");
    assert prv.toolCalls[0].name[0] != cur.toolCalls[0].name[0];
    assert LastDeltas(prv, cur) == Ok([]) && NewCallDeltas(cur.toolCalls, 2) == [];
    assert ReasoningDeltas(prv, cur) == Ok([]) && ContentDeltas(prv, cur) == Ok([]);
    assert |Diffs(prv, cur).value| == 0;
  }

  lemma SameCalls(prv: seq<ToolCall>, cur: seq<ToolCall>)
    requires |prv| <= |cur|
    ensures KeptCalls(prv, cur) + cur[|prv|..] == cur
       <==> && (forall i :: 0 <= i < |prv| - 1 ==> prv[i] == cur[i])
            && (prv != [] ==>
                  var k := |prv| - 1;
                  && (cur[k].name != "" || prv[k].name == "")
                  && prv[k].arguments <= cur[k].arguments
                  && (cur[k].id != "" || prv[k].id == ""))
  {
    var n := |prv|;
    var all := KeptCalls(prv, cur) + cur[n..];
    if all == cur && n > 0 {
      assert all[n - 1] == cur[n - 1];
      forall i | 0 <= i < n - 1 ensures prv[i] == cur[i] {
        assert all[i] == prv[i];
      }
    }
  }

  // ---------- whole runs ----------

  ghost predicate Chain(prv: Message, run: seq<Message>)
    decreases run
  {
    run != [] ==> Extends(prv, run[0]) && Chain(run[0], run[1..])
  }

  /** After every message of the run the client, fed with the deltas alone, holds that message. */
  ghost predicate ClientInStep(prv: Message, client: Message, run: seq<Message>)
    decreases run
  {
    run != [] ==>
      && Diffs(prv, run[0]).Ok?
      && var client' := ApplyAll(client, Diffs(prv, run[0]).value);
         client' == run[0] && ClientInStep(run[0], client', run[1..])
  }

  lemma {:induction false} RunFaithful(prv: Message, run: seq<Message>)
    ensures ClientInStep(prv, prv, run) <==> Chain(prv, run)
    decreases run
  {
    if run != [] {
      StepFaithful(prv, run[0]);
      RunFaithful(run[0], run[1..]);
    }
  }
}

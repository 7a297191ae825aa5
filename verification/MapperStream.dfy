/** Streaming through the event-driven mapper: messages of successive cuts of one list of events. */
module MapperStream {
  import opened JsonText
  import opened MessageDiff
  import opened ToolMapper
  import Q = QuoteTranslator
  import R = ResponseStream

  // ---------- runs that only add ----------

  /** The current call is the pending one, which has no name yet, or a named one that nothing is pending behind. */
  predicate Settling(s: State) {
    && s.Valid()
    && (s.pending.Some? ==> s.current.PendingTool? && s.pending.value.name == "")
    && (s.current.LastCall? ==> s.calls[|s.calls| - 1].name != "")
  }

  /** What the grammars see to: a name is not blank and comes once per opening, and an argument object does not
      come over arguments it does not begin with.
   */
  predicate OrderlyEvent(s: State, e: Event)
    requires s.Valid()
  {
    && (e.ToolName? && !s.current.NoTool? ==> s.current.PendingTool? && TrimTrailing(e.text) != "")
    && (e.ToolArgs? && s.current.LastCall? ==>
          var t := TrimTrailing(e.text); t != "" && t[0] == '{' ==> s.Target() <= t)
  }

  predicate Orderly(s: State, es: seq<Event>)
    requires s.Valid()
    decreases es
  {
    es != [] ==> OrderlyEvent(s, es[0]) && Orderly(Step(s, es[0]), es[1..])
  }

  /** The last call of the message has gained text. */
  lemma LastCallGrows(s: State, args: string)
    requires Settling(s) && s.current.LastCall? && s.Tool().arguments <= args
    ensures var s' := s.WithTool(s.Tool().(arguments := args)); Settling(s') && TextGrows(MessageOf(s), MessageOf(s'))
  {
  }

  lemma TargetGrows(s: State, more: string)
    requires Settling(s)
    ensures var s' := s.WithTarget(s.Target() + more); Settling(s') && TextGrows(MessageOf(s), MessageOf(s'))
  {
    if s.current.LastCall? {
      LastCallGrows(s, s.Target() + more);
    }
  }

  function StringAdded(open: bool, text: string): string {
    if text == "" then "\"" else (if open then "" else "\"") + Escape(text)
  }

  /** What an argument event adds to the text received. */
  function Added(s: State, e: Event): string
    requires s.Valid()
  {
    match e
    case ArgName(text) => (if s.Target() == "" then "{" else "") + ((if s.argCount > 0 then "," else "") + Quoted(Trim(text)) + ":")
    case ArgValue(text) => Q.Translation(text)
    case ArgString(text) => StringAdded(s.quotePending, text)
    case ArgClose => if s.quotePending then "\"" else ""
    case _ => ""
  }

  predicate Adds(e: Event) {
    e.ArgName? || e.ArgValue? || e.ArgString? || e.ArgClose?
  }

  /** The same but for the two counters that messages do not show. */
  predicate SameShown(s: State, s': State) {
    s' == s.(argCount := s'.argCount, quotePending := s'.quotePending)
  }

  lemma ArgStep(s: State, e: Event)
    requires s.Valid() && !s.current.NoTool? && Adds(e)
    ensures SameShown(s.WithTarget(s.Target() + Added(s, e)), Step(s, e))
  {
    hide Q.Translation, Escape, Quoted, Trim, State.Target, State.WithTarget;
    match e
    case ArgName(text) =>
      var more := (if s.argCount > 0 then "," else "") + Quoted(Trim(text)) + ":";
      assert s.Target() + ((if s.Target() == "" then "{" else "") + more) == (if s.Target() == "" then "{" else s.Target()) + more;
    case ArgValue(text) =>
    case ArgString(text) =>
    case ArgClose =>
      if !s.quotePending {
        assert s.Target() + "" == s.Target();
        SameTarget(s);
      }
  }

  lemma SameTarget(s: State)
    requires s.Valid()
    ensures s.WithTarget(s.Target()) == s
  {
  }

  lemma ShownAlike(s: State, s': State)
    requires SameShown(s, s')
    ensures MessageOf(s) == MessageOf(s') && (Settling(s) ==> Settling(s'))
  {
  }

  lemma ArgEventGrows(s: State, e: Event)
    requires Settling(s) && !s.current.NoTool? && Adds(e)
    ensures Settling(Step(s, e)) && TextGrows(MessageOf(s), MessageOf(Step(s, e)))
  {
    hide Added, TextGrows, State.WithTarget, State.Target, MessageOf, Step, SameShown;
    ArgStep(s, e);
    TargetGrows(s, Added(s, e));
    ShownAlike(s.WithTarget(s.Target() + Added(s, e)), Step(s, e));
  }

  lemma CloseGrows(s: State)
    requires Settling(s) && !s.current.NoTool?
    ensures Settling(OnClose(s)) && TextGrows(MessageOf(s), MessageOf(OnClose(s)))
  {
    hide BraceDepth, Repeat;
    if s.current.LastCall? {
      var args := s.Tool().arguments + (if s.quotePending then "\"" else "");
      LastCallGrows(s, args + Repeat('}', BraceDepth(args)));
    }
  }

  lemma NameGrows(s: State, name: string)
    requires Settling(s) && s.current.PendingTool? && name != ""
    ensures Settling(OnName(s, name)) && TextGrows(MessageOf(s), MessageOf(OnName(s, name)))
  {
  }

  /** An orderly event only adds to the message. */
  lemma StepGrows(s: State, e: Event)
    requires Settling(s) && OrderlyEvent(s, e)
    ensures Settling(Step(s, e)) && TextGrows(MessageOf(s), MessageOf(Step(s, e)))
  {
    hide TrimTrailing, OnName, OnClose, Unquoted;
    if Adds(e) && !s.current.NoTool? {
      ArgEventGrows(s, e);
    } else if e.ToolClose? && !s.current.NoTool? {
      CloseGrows(s);
    } else if e.ToolName? && !s.current.NoTool? {
      NameGrows(s, TrimTrailing(e.text));
    } else if e.ToolArgs? && s.current.LastCall? {
      var t := TrimTrailing(e.text);
      if t != "" && t[0] == '{' {
        LastCallGrows(s, t);
      }
    }
  }

  lemma {:induction false} RunGrows(s: State, es: seq<Event>)
    requires Settling(s) && Orderly(s, es)
    ensures Settling(Run(s, es)) && TextGrows(MessageOf(s), MessageOf(Run(s, es)))
    decreases es
  {
    hide TextGrows, MessageOf, Step, OrderlyEvent;
    if es == [] {
      GrowsItself(MessageOf(s));
    } else {
      StepGrows(s, es[0]);
      RunGrows(Step(s, es[0]), es[1..]);
      TextGrowsTransitive(MessageOf(s), MessageOf(Step(s, es[0])), MessageOf(Run(s, es)));
    }
  }

  lemma GrowsItself(m: Message)
    ensures TextGrows(m, m)
  {
  }

  // ---------- a cut event ----------

  /** Content, reasoning and argument values arrive piece by piece; names and ids are whole or absent. */
  predicate CutOf(x: Event, y: Event) {
    match y
    case Reasoning(text) => x.Reasoning? && x.text <= text
    case Content(text) => x.Content? && x.text <= text
    case ToolArgs(text) => x.ToolArgs? && x.text <= text
    case ArgValue(text) => x.ArgValue? && x.text <= text
    case ArgString(text) => x.ArgString? && x.text <= text
    case _ => false
  }

  /** The cut shows: while the call is named, a value is cut inside an escaped quote or a word that begins like a
      literal, or a further piece of a string is cut before its first character.
   */
  predicate Splits(s: State, x: Event, y: Event)
    requires CutOf(x, y)
  {
    s.current.LastCall? &&
    ((x.ArgValue? &&
      var state, rest := Q.Scanned(false, x.text, Q.Outside), y.text[|x.text|..];
      Q.CutSplitsEscape(state, rest) || Q.CutSplitsWord(state, rest)) ||
     (x.ArgString? && s.quotePending && x.text == "" && y.text != ""))
  }

  lemma {:induction false} TrimTrailingPrefix(a: string, b: string)
    requires a <= b
    ensures TrimTrailing(a) <= TrimTrailing(b)
    decreases |a| + |b|
  {
    if b != "" && IsSpace(b[|b| - 1]) {
      if a == b {
      } else {
        TrimTrailingPrefix(a, b[..|b| - 1]);
      }
    } else {
      TrimmedWithin(a);
    }
  }

  lemma {:induction false} TrimmedWithin(a: string)
    ensures TrimTrailing(a) <= a
    decreases |a|
  {
    if a != "" && IsSpace(a[|a| - 1]) {
      TrimmedWithin(a[..|a| - 1]);
    }
  }

  /** What the cut value adds is a prefix of what the whole adds, unless the cut shows; and it is never longer. */
  lemma AddedCut(s: State, x: Event, y: Event)
    requires s.Valid() && s.current.LastCall? && CutOf(x, y) && (x.ArgValue? || x.ArgString?)
    ensures Added(s, x) <= Added(s, y) <==> !Splits(s, x, y)
    ensures |Added(s, x)| <= |Added(s, y)|
  {
    hide Q.Normalized, Q.Scanned, Q.CutSplitsEscape, Q.CutSplitsWord, Escape;
    var rest := y.text[|x.text|..];
    assert y.text == x.text + rest;
    if x.ArgValue? {
      Q.CutMonotone(false, x.text, rest, Q.Outside);
      Q.CutShorter(false, x.text, rest, Q.Outside);
    } else {
      StringCut(s.quotePending, x.text, y.text);
    }
  }

  lemma StringCut(open: bool, x: string, y: string)
    requires x <= y
    ensures StringAdded(open, x) <= StringAdded(open, y) <==> !(open && x == "" && y != "")
    ensures |StringAdded(open, x)| <= |StringAdded(open, y)|
  {
    hide Escape;
    EscapePrefix(x, y);
    EscapedStart(y);
    if !open {
      PrefixUnder("\"", Escape(x), Escape(y));
    }
    if x == "" && y != "" {
      var e := Escape(y);
      assert open ==> StringAdded(open, y) == e && "\""[0] != e[0];
      assert !open ==> StringAdded(open, y)[..1] == "\"";
    }
  }

  lemma EscapedStart(s: string)
    ensures s != "" ==> Escape(s) != "" && Escape(s)[0] != '"'
  {
  }

  lemma WithTargetMessage(s: State, text: string)
    requires Settling(s) && !s.current.NoTool?
    ensures Settling(s.WithTarget(text))
    ensures s.current.PendingTool? ==> MessageOf(s.WithTarget(text)) == MessageOf(s)
    ensures s.current.LastCall? ==>
              MessageOf(s.WithTarget(text)) ==
              MessageOf(s).(toolCalls := s.calls[|s.calls| - 1 := s.calls[|s.calls| - 1].(arguments := text)])
  {
  }

  lemma ArgMessage(s: State, e: Event)
    requires Settling(s) && !s.current.NoTool? && Adds(e)
    ensures Settling(Step(s, e))
    ensures MessageOf(Step(s, e)) == MessageOf(s.WithTarget(s.Target() + Added(s, e)))
  {
    hide Added, State.WithTarget, State.Target, MessageOf, Step, SameShown;
    ArgStep(s, e);
    WithTargetMessage(s, s.Target() + Added(s, e));
    ShownAlike(s.WithTarget(s.Target() + Added(s, e)), Step(s, e));
  }

  /** Two texts given to the last call. */
  lemma LastCallCompared(s: State, a: string, b: string)
    requires Settling(s) && s.current.LastCall?
    ensures TextGrows(MessageOf(s.WithTarget(a)), MessageOf(s.WithTarget(b))) <==> a <= b
  {
    hide State.WithTarget, State.Target, MessageOf;
    WithTargetMessage(s, a);
    WithTargetMessage(s, b);
    CallsCompared(MessageOf(s), s.calls, a, b);
  }

  lemma CallsCompared(m: Message, calls: seq<ToolCall>, a: string, b: string)
    requires calls != []
    ensures var k := |calls| - 1;
      TextGrows(m.(toolCalls := calls[k := calls[k].(arguments := a)]), m.(toolCalls := calls[k := calls[k].(arguments := b)]))
      <==> a <= b
  {
  }

  lemma ValueCut(s: State, x: Event, y: Event)
    requires Settling(s) && CutOf(x, y) && (x.ArgValue? || x.ArgString?)
    ensures Settling(Step(s, x))
    ensures TextGrows(MessageOf(Step(s, x)), MessageOf(Step(s, y))) <==> !Splits(s, x, y)
  {
    hide Added, State.WithTarget, State.Target, MessageOf, Step, TextGrows, Q.Scanned, Q.CutSplitsEscape, Q.CutSplitsWord;
    if s.current.NoTool? {
      IdleStep(s, x);
      IdleStep(s, y);
      GrowsItself(MessageOf(s));
    } else {
      ArgMessage(s, x);
      ArgMessage(s, y);
      var a, b := s.Target() + Added(s, x), s.Target() + Added(s, y);
      if s.current.LastCall? {
        LastCallCompared(s, a, b);
        AddedCut(s, x, y);
        PrefixUnder(s.Target(), Added(s, x), Added(s, y));
      } else {
        WithTargetMessage(s, a);
        WithTargetMessage(s, b);
        GrowsItself(MessageOf(s));
      }
    }
  }

  lemma IdleStep(s: State, e: Event)
    requires s.Valid() && s.current.NoTool? && Adds(e)
    ensures Step(s, e) == s
  {
  }

  lemma ArgsCut(s: State, x: Event, y: Event)
    requires Settling(s) && CutOf(x, y) && x.ToolArgs? && OrderlyEvent(s, y)
    ensures Settling(Step(s, x)) && TextGrows(MessageOf(Step(s, x)), MessageOf(Step(s, y)))
  {
    hide TrimTrailing, State.WithTarget, MessageOf, TextGrows;
    var a, b := TrimTrailing(x.text), TrimTrailing(y.text);
    TrimTrailingPrefix(x.text, y.text);
    GrowsItself(MessageOf(s));
    if !s.current.NoTool? {
      WithTargetMessage(s, a);
      WithTargetMessage(s, b);
      if s.current.LastCall? {
        SameTarget(s);
        LastCallCompared(s, a, b);
        LastCallCompared(s, s.Target(), b);
      }
    }
  }

  lemma TextCut(s: State, x: Event, y: Event)
    requires Settling(s) && CutOf(x, y) && (x.Reasoning? || x.Content?)
    ensures Settling(Step(s, x)) && TextGrows(MessageOf(Step(s, x)), MessageOf(Step(s, y)))
  {
    PrefixUnder(s.reasoning, x.text, y.text);
    PrefixUnder(s.content, x.text, y.text);
    GrowsItself(MessageOf(s));
  }

  /** A cut event leaves a message that the whole event's message continues, unless the cut shows. */
  lemma EventCut(s: State, x: Event, y: Event)
    requires Settling(s) && CutOf(x, y) && OrderlyEvent(s, y)
    ensures Settling(Step(s, x))
    ensures TextGrows(MessageOf(Step(s, x)), MessageOf(Step(s, y))) <==> !Splits(s, x, y)
  {
    hide Step, TextGrows, MessageOf, Settling, OrderlyEvent;
    if x.ArgValue? || x.ArgString? {
      ValueCut(s, x, y);
    } else if x.ToolArgs? {
      ArgsCut(s, x, y);
    } else {
      TextCut(s, x, y);
    }
  }

  /** And what shows is never mended by what comes later. */
  lemma SplitStays(s: State, x: Event, y: Event, m: Message)
    requires Settling(s) && CutOf(x, y) && OrderlyEvent(s, y) && Splits(s, x, y) && TextGrows(MessageOf(Step(s, y)), m)
    ensures !TextGrows(MessageOf(Step(s, x)), m)
  {
    hide Added, State.WithTarget, State.Target, MessageOf, Step, Q.Scanned, Q.CutSplitsEscape, Q.CutSplitsWord;
    ArgMessage(s, x);
    ArgMessage(s, y);
    AddedCut(s, x, y);
    var a, b, k := s.Target() + Added(s, x), s.Target() + Added(s, y), |s.calls| - 1;
    WithTargetMessage(s, a);
    WithTargetMessage(s, b);
    PrefixUnder(s.Target(), Added(s, x), Added(s, y));
    NotBoth(a, b, m.toolCalls, k);
  }

  lemma NotBoth(a: string, b: string, calls: seq<ToolCall>, k: nat)
    requires |a| <= |b| && !(a <= b)
    ensures k < |calls| ==> !(a <= calls[k].arguments && b <= calls[k].arguments)
  {
  }

  // ---------- a cut list of events ----------

  /** The message of one parse. */
  function Parsed(es: seq<Event>): Message {
    MessageOf(Visited(START, es))
  }

  /** The events up to some point, of which the last may be cut. */
  predicate PrefixCut(xs: seq<Event>, ys: seq<Event>) {
    xs != [] ==>
      var n := |xs| - 1; n < |ys| && xs[..n] == ys[..n] && (xs[n] == ys[n] || CutOf(xs[n], ys[n]))
  }

  predicate LastSplits(xs: seq<Event>, ys: seq<Event>)
    requires PrefixCut(xs, ys)
  {
    xs != [] && var n := |xs| - 1; CutOf(xs[n], ys[n]) && Splits(Run(START, xs[..n]), xs[n], ys[n])
  }

  lemma {:induction false} OrderlyConcat(s: State, a: seq<Event>, b: seq<Event>)
    requires s.Valid()
    ensures Orderly(s, a + b) <==> Orderly(s, a) && Orderly(Run(s, a), b)
    decreases a
  {
    hide Step, OrderlyEvent;
    if a == [] {
      assert a + b == b;
    } else {
      assert (a + b)[1..] == a[1..] + b;
      OrderlyConcat(Step(s, a[0]), a[1..], b);
    }
  }

  lemma SettledStart()
    ensures Settling(START)
  {
  }

  /** Nothing named is pending, so a visit ends with the message so far, less blank reasoning. */
  lemma VisitedIs(es: seq<Event>)
    requires Settling(Run(START, es))
    ensures var m := MessageOf(Run(START, es)); Parsed(es) == m.(reasoning := KeptReasoning(m.reasoning))
  {
    hide Run, KeptReasoning;
  }

  lemma KeptGrows(a: string, b: string)
    requires a <= b
    ensures KeptReasoning(a) <= KeptReasoning(b)
  {
    if AllBlank(b) {
      assert forall i :: 0 <= i < |a| ==> a[i] == b[i];
    }
  }

  lemma KeptCompared(m: Message, m': Message)
    ensures TextGrows(m, m') ==>
              TextGrows(m.(reasoning := KeptReasoning(m.reasoning)), m'.(reasoning := KeptReasoning(m'.reasoning)))
    ensures TextGrows(m.(reasoning := KeptReasoning(m.reasoning)), m'.(reasoning := KeptReasoning(m'.reasoning))) ==>
              TextGrows(m.(reasoning := ""), m'.(reasoning := ""))
  {
    hide KeptReasoning, CallsGrow;
    if m.reasoning <= m'.reasoning {
      KeptGrows(m.reasoning, m'.reasoning);
    }
  }

  lemma RunAround(ys: seq<Event>, n: nat)
    requires n < |ys|
    ensures Run(START, ys) == Run(Step(Run(START, ys[..n]), ys[n]), ys[n + 1..])
    ensures Orderly(START, ys) ==>
              var s := Run(START, ys[..n]);
              Orderly(START, ys[..n]) && OrderlyEvent(s, ys[n]) && Orderly(Step(s, ys[n]), ys[n + 1..])
  {
    hide Step, OrderlyEvent;
    assert ys == ys[..n] + ys[n..] && ys[n..][0] == ys[n] && ys[n..][1..] == ys[n + 1..];
    RunConcat(START, ys[..n], ys[n..]);
    OrderlyConcat(START, ys[..n], ys[n..]);
  }

  lemma RunLast(xs: seq<Event>)
    requires xs != []
    ensures Run(START, xs) == Step(Run(START, xs[..|xs| - 1]), xs[|xs| - 1])
  {
    hide Step;
    RunAround(xs, |xs| - 1);
    assert xs[|xs|..] == [];
  }

  /** The states of a cut and of the whole: the one grows into the other unless the cut shows. */
  lemma TruncatedRuns(xs: seq<Event>, ys: seq<Event>)
    requires xs != [] && Orderly(START, ys) && PrefixCut(xs, ys)
    ensures Settling(Run(START, xs)) && Settling(Run(START, ys))
    ensures !LastSplits(xs, ys) ==> TextGrows(MessageOf(Run(START, xs)), MessageOf(Run(START, ys)))
    ensures LastSplits(xs, ys) ==> !TextGrows(MessageOf(Run(START, xs)).(reasoning := ""), MessageOf(Run(START, ys)).(reasoning := ""))
  {
    hide Run, Step, Orderly, OrderlyEvent, CutOf, Splits, TextGrows, MessageOf;
    SettledStart();
    var n := |xs| - 1;
    var s := Run(START, ys[..n]);
    RunAround(ys, n);
    RunLast(xs);
    RunGrows(START, ys[..n]);
    StepGrows(s, ys[n]);
    RunGrows(Step(s, ys[n]), ys[n + 1..]);
    var m := MessageOf(Run(START, ys));
    if CutOf(xs[n], ys[n]) {
      EventCut(s, xs[n], ys[n]);
      if Splits(s, xs[n], ys[n]) {
        SplitCalls(s, xs[n], ys[n], m);
      } else {
        TextGrowsTransitive(MessageOf(Run(START, xs)), MessageOf(Step(s, ys[n])), m);
      }
    }
  }

  /** The difference is in the calls. */
  lemma SplitCalls(s: State, x: Event, y: Event, m: Message)
    requires Settling(s) && CutOf(x, y) && OrderlyEvent(s, y) && Splits(s, x, y) && TextGrows(MessageOf(Step(s, y)), m)
    ensures !TextGrows(MessageOf(Step(s, x)).(reasoning := ""), m.(reasoning := ""))
  {
    hide Step, OrderlyEvent, CallsGrow, Q.Scanned, Q.CutSplitsEscape, Q.CutSplitsWord;
    SplitStays(s, x, y, m);
    ArgTexts(s, x);
    ArgTexts(s, y);
  }

  lemma ArgTexts(s: State, e: Event)
    requires Settling(s) && s.current.LastCall? && Adds(e)
    ensures Step(s, e).reasoning == s.reasoning && Step(s, e).content == s.content
  {
    hide Added, State.WithTarget, State.Target, Step, SameShown;
    ArgMessage(s, e);
    WithTargetMessage(s, s.Target() + Added(s, e));
  }

  lemma PrefixesCompared(xs: seq<Event>, ys: seq<Event>)
    requires Orderly(START, ys) && PrefixCut(xs, ys)
    ensures TextGrows(Parsed(xs), Parsed(ys)) <==> !LastSplits(xs, ys)
  {
    hide Run, Orderly, TextGrows, MessageOf, Parsed, CutOf, Splits;
    SettledStart();
    if xs == [] {
      RunGrows(START, ys);
      RunNothing();
      VisitedIs(xs);
      VisitedIs(ys);
      KeptCompared(MessageOf(Run(START, xs)), MessageOf(Run(START, ys)));
    } else {
      TruncatedRuns(xs, ys);
      VisitedIs(xs);
      VisitedIs(ys);
      KeptCompared(MessageOf(Run(START, xs)), MessageOf(Run(START, ys)));
    }
  }

  lemma RunNothing()
    ensures Run(START, []) == START
  {
  }

  // ---------- idle nodes in between ----------

  /** The events without the idle ones. A node is visited before the nodes inside it, so a cut argument comes behind
      the idle and as well cut nodes that enclose it, and a cut value before those inside it.
   */
  function Shown(es: seq<Event>): seq<Event> {
    if es == [] then [] else if Idle(es[0]) then Shown(es[1..]) else [es[0]] + Shown(es[1..])
  }

  lemma {:induction false} ShownConcat(a: seq<Event>, b: seq<Event>)
    ensures Shown(a + b) == Shown(a) + Shown(b)
    decreases a
  {
    hide Idle;
    if a == [] {
      assert a + b == b;
    } else {
      assert (a + b)[1..] == a[1..] + b;
      ShownConcat(a[1..], b);
    }
  }

  lemma IdleIsOrderly(s: State, e: Event)
    requires s.Valid() && Idle(e)
    ensures OrderlyEvent(s, e)
  {
    hide TrimTrailing;
  }

  lemma {:induction false} ShownRuns(s: State, es: seq<Event>)
    requires s.Valid()
    ensures Run(s, Shown(es)) == Run(s, es)
    ensures Orderly(s, Shown(es)) <==> Orderly(s, es)
    decreases es
  {
    hide Step, Idle, OrderlyEvent;
    if es != [] {
      var e, rest := es[0], es[1..];
      if Idle(e) {
        IdleStays(s, e);
        IdleIsOrderly(s, e);
        ShownRuns(s, rest);
      } else {
        ShownRuns(Step(s, e), rest);
        assert ([e] + Shown(rest))[1..] == Shown(rest);
      }
    }
  }

  lemma ShownParsed(es: seq<Event>)
    ensures Parsed(Shown(es)) == Parsed(es)
  {
    hide Run, Shown;
    ShownRuns(START, es);
  }

  /** Idle events aside, the events up to some point, of which the last may be cut. */
  predicate Truncates(xs: seq<Event>, ys: seq<Event>) {
    PrefixCut(Shown(xs), Shown(ys))
  }

  predicate CutShows(xs: seq<Event>, ys: seq<Event>)
    requires Truncates(xs, ys)
  {
    LastSplits(Shown(xs), Shown(ys))
  }

  /** For any orderly list of events and any truncation of it: the message of the truncation grows into the
      message of the whole exactly when the cut does not show.
   */
  lemma EventsCut(xs: seq<Event>, ys: seq<Event>)
    requires Orderly(START, ys) && Truncates(xs, ys)
    ensures TextGrows(Parsed(xs), Parsed(ys)) <==> !CutShows(xs, ys)
  {
    hide Orderly, TextGrows, Parsed, Shown, PrefixCut, LastSplits;
    ShownRuns(START, ys);
    ShownParsed(xs);
    ShownParsed(ys);
    PrefixesCompared(Shown(xs), Shown(ys));
  }

  // ---------- a whole response ----------

  /** Successive parses, each of which the one before truncates where it does not show. */
  ghost predicate Growing(previous: seq<Event>, parses: seq<seq<Event>>)
    decreases parses
  {
    parses != [] ==>
      && Orderly(START, parses[0]) && Truncates(previous, parses[0]) && !CutShows(previous, parses[0])
      && Growing(parses[0], parses[1..])
  }

  function Messages(parses: seq<seq<Event>>): (r: seq<Message>)
    ensures |r| == |parses| && forall i :: 0 <= i < |r| ==> r[i] == Parsed(parses[i])
  {
    seq(|parses|, i requires 0 <= i < |parses| => Parsed(parses[i]))
  }

  lemma {:induction false} ParsesChain(previous: seq<Event>, parses: seq<seq<Event>>)
    requires Growing(previous, parses)
    ensures R.RawChain(Parsed(previous), Messages(parses))
    decreases parses
  {
    hide TextGrows, Parsed, Orderly, Truncates, CutShows;
    if parses != [] {
      EventsCut(previous, parses[0]);
      ParsesChain(parses[0], parses[1..]);
      assert Messages(parses)[1..] == Messages(parses[1..]);
    }
  }

  /** End to end: the deltas of such a response are never rejected and rebuild the message of the last parse, up
      to the ids given to its calls.
   */
  lemma MapperStreams(parses: seq<seq<Event>>, gen: nat -> string)
    requires parses != [] && Growing([], parses)
    ensures var (s, r) := R.Run(R.State(EMPTY_MESSAGE, R.Ids([], 0)), Messages(parses), gen);
            && r.Ok? && ApplyAll(EMPTY_MESSAGE, r.value) == s.shown && R.SameText(s.shown, Parsed(parses[|parses| - 1]))
  {
    hide R.Run, R.SameText, R.RawChain, Growing, ApplyAll, Run;
    ParsesChain([], parses);
    SettledStart();
    RunNothing();
    VisitedIs([]);
    R.ResponseRebuilds(Messages(parses), gen);
  }
}

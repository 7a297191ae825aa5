/** What the message of a visit says: its two texts, its calls in order, and calls that are not finished yet. */
module MapperLaws {
  import opened JsonText
  import opened MessageDiff
  import opened ToolMapper
  import opened ToolMapperRuns
  import opened Wrappers
  import Q = QuoteTranslator

  // ---------- the two texts ----------

  function ReasoningOf(es: seq<Event>): string {
    if es == [] then "" else (if es[0].Reasoning? then es[0].text else "") + ReasoningOf(es[1..])
  }

  function ContentOf(es: seq<Event>): string {
    if es == [] then "" else (if es[0].Content? then es[0].text else "") + ContentOf(es[1..])
  }

  predicate IsWhite(s: string) {
    forall i :: 0 <= i < |s| ==> s[i] in " \n\r\t"
  }

  lemma StepTexts(s: State, e: Event)
    requires s.Valid()
    ensures Step(s, e).reasoning == s.reasoning + ReasoningOf([e]) && Step(s, e).content == s.content + ContentOf([e])
  {
    assert [e][1..] == [];
    assert s.reasoning + "" == s.reasoning && s.content + "" == s.content;
    assert e.Reasoning? ==> ReasoningOf([e]) == e.text + "" == e.text;
    assert e.Content? ==> ContentOf([e]) == e.text + "" == e.text;
    if !e.Reasoning? && !e.Content? && !s.current.NoTool? {
      ToolEventTexts(s, e);
    }
  }

  predicate SameTexts(a: State, b: State) {
    a.reasoning == b.reasoning && a.content == b.content
  }

  lemma ToolEventTexts(s: State, e: Event)
    requires s.Valid() && !s.current.NoTool?
    ensures SameTexts(OnToolEvent(s, e), s)
  {
    hide TrimTrailing, Trim, Q.Translation, Unquoted, OnName, OnArgName, OnString, OnClose;
    if e.ToolName? {
      NameTexts(s, TrimTrailing(e.text));
    } else if e.ArgName? {
      ArgNameTexts(s, Trim(e.text));
    } else if e.ArgString? {
      StringTexts(s, e.text);
    } else if e.ToolClose? {
      CloseTexts(s);
    }
  }

  lemma NameTexts(s: State, name: string)
    requires s.Valid() && !s.current.NoTool?
    ensures SameTexts(OnName(s, name), s)
  {
  }

  lemma ArgNameTexts(s: State, name: string)
    requires s.Valid()
    ensures SameTexts(OnArgName(s, name), s)
  {
    hide Quoted;
  }

  lemma StringTexts(s: State, text: string)
    requires s.Valid()
    ensures SameTexts(OnString(s, text), s)
  {
    hide Escape;
  }

  lemma CloseTexts(s: State)
    requires s.Valid() && !s.current.NoTool?
    ensures SameTexts(OnClose(s), s)
  {
    hide BraceDepth, Repeat;
  }

  lemma {:induction false} RunTexts(s: State, es: seq<Event>)
    requires s.Valid()
    ensures Run(s, es).reasoning == s.reasoning + ReasoningOf(es) && Run(s, es).content == s.content + ContentOf(es)
    decreases es
  {
    hide Step;
    if es == [] {
      assert s.reasoning + "" == s.reasoning && s.content + "" == s.content;
    } else {
      StepTexts(s, es[0]);
      RunTexts(Step(s, es[0]), es[1..]);
      FirstTexts(es, s.reasoning, s.content);
    }
  }

  lemma FirstTexts(es: seq<Event>, r: string, c: string)
    requires es != []
    ensures r + ReasoningOf([es[0]]) + ReasoningOf(es[1..]) == r + ReasoningOf(es)
    ensures c + ContentOf([es[0]]) + ContentOf(es[1..]) == c + ContentOf(es)
  {
    hide ReasoningOf, ContentOf;
    FirstOf(es);
    Regrouped(r, ReasoningOf([es[0]]), ReasoningOf(es[1..]));
    Regrouped(c, ContentOf([es[0]]), ContentOf(es[1..]));
  }

  lemma FirstOf(es: seq<Event>)
    requires es != []
    ensures ReasoningOf(es) == ReasoningOf([es[0]]) + ReasoningOf(es[1..])
    ensures ContentOf(es) == ContentOf([es[0]]) + ContentOf(es[1..])
  {
    assert [es[0]][1..] == [];
    var r, c := if es[0].Reasoning? then es[0].text else "", if es[0].Content? then es[0].text else "";
    assert r + "" == r && c + "" == c;
  }

  lemma Regrouped(a: string, b: string, c: string)
    ensures a + b + c == a + (b + c)
  {
  }

  /** The content is that of the content nodes put together, the reasoning that of the reasoning nodes unless it is
      all white space.
   */
  lemma TextsGathered(es: seq<Event>)
    ensures var m := MessageOf(Visited(START, es));
      && m.content == ContentOf(es)
      && m.reasoning == if IsWhite(ReasoningOf(es)) then "" else ReasoningOf(es)
  {
    hide Run;
    RunTexts(START, es);
    var s := Run(START, es);
    assert "" + ReasoningOf(es) == ReasoningOf(es) && "" + ContentOf(es) == ContentOf(es);
    WhiteIs(ReasoningOf(es));
  }

  lemma WhiteIs(s: string)
    ensures AllBlank(s) <==> IsWhite(s)
  {
    forall c: char ensures IsBlank(c) <==> c in " \n\r\t" {
    }
  }

  // ---------- trimming ----------

  predicate IsSpaces(s: string) {
    forall i :: 0 <= i < |s| ==> s[i] == ' ' || 9 <= s[i] as int <= 13
  }

  /** A text less its trailing white space. */
  predicate Trimmed(s: string, t: string) {
    t <= s && IsSpaces(s[|t|..]) && (t != "" ==> !IsSpaces(t[|t| - 1..]))
  }

  lemma {:induction false} TrimmedIs(s: string)
    ensures Trimmed(s, TrimTrailing(s))
    decreases |s|
  {
    hide Trimmed;
    if s != "" && IsSpace(s[|s| - 1]) {
      TrimmedIs(s[..|s| - 1]);
      SpaceAdded(s, TrimTrailing(s));
    } else {
      NoSpace(s);
    }
  }

  lemma SpaceAdded(s: string, t: string)
    requires s != "" && IsSpace(s[|s| - 1]) && Trimmed(s[..|s| - 1], t)
    ensures Trimmed(s, t)
  {
    var a, b := s[..|s| - 1][|t|..], s[|s| - 1];
    assert s[|t|..] == a + [b];
    assert t <= s;
  }

  lemma NoSpace(s: string)
    requires s != "" ==> !IsSpace(s[|s| - 1])
    ensures Trimmed(s, s)
  {
    assert s[|s|..] == "" && (s != "" ==> s[|s| - 1..] == [s[|s| - 1]]);
  }

  /** There is only one such text, and around an argument's name one leading character of white space goes too. */
  lemma TrimmedOnly(s: string, t: string)
    requires Trimmed(s, t)
    ensures t == TrimTrailing(s)
    ensures Trim(s) == if s != "" && IsSpaces(s[..1]) then TrimTrailing(s[1..]) else t
  {
    hide TrimTrailing, Trimmed;
    TrimmedIs(s);
    NoLonger(s, t, TrimTrailing(s));
    NoLonger(s, TrimTrailing(s), t);
    PrefixesOf(s, t, TrimTrailing(s));
    assert s != "" ==> s[..1] == [s[0]];
  }

  lemma PrefixesOf(s: string, t: string, u: string)
    requires Trimmed(s, t) && Trimmed(s, u)
    ensures |t| == |u| ==> t == u
  {
    assert t == s[..|t|] && u == s[..|u|];
  }

  lemma NoLonger(s: string, t: string, u: string)
    requires Trimmed(s, t) && Trimmed(s, u)
    ensures |u| <= |t|
  {
    hide Trimmed;
    if |t| < |u| {
      SpaceBehind(s, t);
      LastKept(s, u);
    }
  }

  lemma SpaceBehind(s: string, t: string)
    requires Trimmed(s, t)
    ensures forall i :: |t| <= i < |s| ==> IsSpaces([s[i]])
  {
    forall i | |t| <= i < |s| ensures IsSpaces([s[i]]) {
      assert s[|t|..][i - |t|] == s[i];
    }
  }

  lemma LastKept(s: string, u: string)
    requires Trimmed(s, u)
    ensures |u| <= |s| && (u != "" ==> !IsSpaces([s[|u| - 1]]))
  {
    assert u != "" ==> u[|u| - 1..] == [s[|u| - 1]];
  }

  /** An id in double quotes is taken without them. */
  lemma UnquotedIs(s: string)
    ensures Unquoted("\"" + s + "\"") == s
    ensures (|s| < 2 || s[0] != '"' || s[|s| - 1] != '"') ==> Unquoted(s) == s
  {
    var q := "\"" + s + "\"";
    assert q[1..|q| - 1] == s;
  }

  // ---------- open braces ----------

  /** Objects one in another, each with some balanced text before the next begins. */
  function Levels(levels: seq<string>): string {
    if levels == [] then "" else "{" + levels[0] + Levels(levels[1..])
  }

  /** Each object that is not closed counts once; braces inside strings and those closed again do not count. */
  lemma {:induction false} DepthOfLevels(levels: seq<string>)
    requires forall i :: 0 <= i < |levels| ==> Neutral(levels[i])
    ensures BraceDepth(Levels(levels)) == |levels|
  {
    hide BraceScan;
    LevelsScanned(levels, 0);
  }

  lemma {:induction false} LevelsScanned(levels: seq<string>, d: int)
    requires forall i :: 0 <= i < |levels| ==> Neutral(levels[i])
    ensures BraceScan(Braces(d, false, false), Levels(levels)) == Braces(d + |levels|, false, false)
    decreases levels
  {
    hide BraceScan;
    var b := Braces(d, false, false);
    if levels == [] {
      NothingScanned(b);
    } else {
      assert Levels(levels) == "{" + (levels[0] + Levels(levels[1..]));
      BraceScanConcat(b, "{", levels[0] + Levels(levels[1..]));
      OpenBrace(b);
      BraceScanConcat(Braces(d + 1, false, false), levels[0], Levels(levels[1..]));
      LevelsScanned(levels[1..], d + 1);
    }
  }

  lemma NothingScanned(b: Braces)
    ensures BraceScan(b, "") == b
  {
  }

  // ---------- calls that are not finished ----------

  /** As soon as its name is there an open call shows, with the arguments so far. */
  lemma OpenCallShown(s: State, body: seq<Event>, name: string, args: seq<Arg>)
    requires s.Valid() && CallOf(body, name, AllArgEvents(args)) && WellFormedArgs(args)
    ensures Run(s, [ToolOpen] + body).calls
         == s.calls + [ToolCall(TrimTrailing(name), "{" + ArgsText(args, 0), IdAfter("", Ids(body)))]
  {
    hide AllArgEvents, TrimTrailing, ArgsText, IdAfter, Run, WithId, Step, CallBody, WellFormedArgs, Admissible;
    ArgsAdmissible(args, false);
    OpenedAwaits(s, []);
    Opened(s, body, name);
    OpenedAwaits(s, Ids(body));
    var s0 := WithId(Step(s, ToolOpen), Ids(body));
    var s1 := Step(s0, ToolName(name));
    Named(s0, name);
    AllArgs(s1, "{", args);
    var call := s.calls + [ToolCall(TrimTrailing(name), "{" + ArgsText(args, 0), IdAfter("", Ids(body)))];
    assert s1.calls[|s1.calls| - 1 := s1.calls[|s1.calls| - 1].(arguments := "{" + ArgsText(args, 0))] == call;
  }

  lemma Opened(s: State, body: seq<Event>, name: string)
    requires s.Valid() && CallBody(body) && Names(body) == [name] && TrimTrailing(name) != "" && Admissible(ArgPart(body), false)
    ensures Run(s, [ToolOpen] + body) == Run(Step(WithId(Step(s, ToolOpen), Ids(body)), ToolName(name)), ArgPart(body))
  {
    hide Step, Run, WithId, CallBody, Admissible, TrimTrailing;
    RunConcat(s, [ToolOpen], body);
    RunOne(s, ToolOpen);
    OpenedAwaits(s, []);
    IdStep(Step(s, ToolOpen), "", []);
    AwaitingBody(Step(s, ToolOpen), body, name);
  }

  predicate Nameless(es: seq<Event>) {
    forall i :: 0 <= i < |es| ==> !es[i].ToolName? && !es[i].ToolOpen? && !es[i].ToolClose?
  }

  lemma {:induction false} StaysPending(s: State, es: seq<Event>)
    requires s.Valid() && s.current.PendingTool? && s.pending.value.name == "" && Nameless(es)
    ensures var s' := Run(s, es); s'.current.PendingTool? && s'.pending.Some? && s'.pending.value.name == "" && s'.calls == s.calls
    decreases es
  {
    hide Step;
    if es != [] {
      PendingStep(s, es[0]);
      StaysPending(Step(s, es[0]), es[1..]);
    }
  }

  lemma PendingStep(s: State, e: Event)
    requires s.Valid() && s.current.PendingTool? && s.pending.value.name == "" && !e.ToolName? && !e.ToolOpen? && !e.ToolClose?
    ensures var s' := Step(s, e); s'.current.PendingTool? && s'.pending.Some? && s'.pending.value.name == "" && s'.calls == s.calls
  {
    hide TrimTrailing, Trim, Q.Translation, Escape, Quoted, Unquoted;
  }

  /** A call without a name is never shown: not while it is open, and not when it is closed. */
  lemma NamelessDropped(s: State, body: seq<Event>)
    requires s.Valid() && Nameless(body)
    ensures Run(s, [ToolOpen] + body).calls == s.calls && Run(s, Call(body)).calls == s.calls
    ensures Run(s, Call(body)).current.NoTool?
  {
    hide Step, Run;
    RunConcat(s, [ToolOpen] + body, [ToolClose]);
    RunConcat(s, [ToolOpen], body);
    RunOne(s, ToolOpen);
    OpenedAwaits(s, []);
    IdStep(Step(s, ToolOpen), "", []);
    StaysPending(Step(s, ToolOpen), body);
    var s1 := Run(Step(s, ToolOpen), body);
    RunOne(s1, ToolClose);
    PendingClosed(s1);
  }

  lemma PendingClosed(s: State)
    requires s.Valid() && s.current.PendingTool? && s.pending.value.name == ""
    ensures var s' := Step(s, ToolClose); s'.calls == s.calls && s'.current.NoTool?
  {
    hide BraceDepth, Repeat;
  }

  /** Outside any call tool events do nothing. */
  lemma StrayEvents(s: State, e: Event)
    requires s.Valid() && s.current.NoTool? && !e.Reasoning? && !e.Content? && !e.ToolOpen?
    ensures Step(s, e) == s.(quotePending := if e.ArgOpen? then false else s.quotePending)
  {
  }

  /** A closed call stays the current one, so that a late id still finds it. */
  lemma LateId(s: State, id: string)
    requires s.Valid() && s.current.LastCall? && s.calls[|s.calls| - 1].name != "" && s.pending.None?
    ensures Step(s, ToolClose).current.LastCall? && |Step(s, ToolClose).calls| == |s.calls|
    ensures Step(Step(s, ToolClose), ToolId(id)).calls[|s.calls| - 1].id == Unquoted(TrimTrailing(id))
  {
    hide BraceDepth, Repeat, TrimTrailing, Unquoted;
  }

  /** A second name replaces the first; the arguments stay. */
  lemma LateName(s: State, name: string)
    requires s.Valid() && s.current.LastCall? && s.pending.None? && s.buffer == "" && s.calls[|s.calls| - 1].arguments != ""
    ensures Step(s, ToolName(name)) ==
            s.(calls := s.calls[|s.calls| - 1 := s.calls[|s.calls| - 1].(name := TrimTrailing(name))])
  {
    hide TrimTrailing;
  }

  /** The opening of an argument forgets a quote that was left open. */
  lemma OpeningForgets(s: State)
    requires s.Valid()
    ensures Step(s, ArgOpen) == s.(quotePending := false)
  {
  }

  // ---------- a whole response ----------

  datatype Part = Said(e: Event) | Called(body: seq<Event>, name: string, args: seq<Arg>)

  predicate PartOk(p: Part) {
    match p
    case Said(e) => e.Reasoning? || e.Content? || Idle(e)
    case Called(body, name, args) => CallOf(body, name, AllArgEvents(args)) && WellFormedArgs(args)
  }

  function PartEvents(p: Part): seq<Event> {
    match p
    case Said(e) => [e]
    case Called(body, _, _) => Call(body)
  }

  function AllEvents(ps: seq<Part>): seq<Event> {
    if ps == [] then [] else PartEvents(ps[0]) + AllEvents(ps[1..])
  }

  function PartCalls(p: Part): seq<ToolCall> {
    match p
    case Said(_) => []
    case Called(body, name, args) => [ToolCall(TrimTrailing(name), "{" + ArgsText(args, 0) + "}", IdAfter("", Ids(body)))]
  }

  function CallsOf(ps: seq<Part>): seq<ToolCall> {
    if ps == [] then [] else PartCalls(ps[0]) + CallsOf(ps[1..])
  }

  lemma {:induction false} PartsMapped(s: State, ps: seq<Part>)
    requires s.Valid() && forall i :: 0 <= i < |ps| ==> PartOk(ps[i])
    ensures Run(s, AllEvents(ps)).calls == s.calls + CallsOf(ps)
    decreases ps
  {
    hide Run, Step, State.Valid, PartOk, PartEvents, PartCalls;
    if ps == [] {
      NothingRun(s);
      assert s.calls + [] == s.calls;
    } else {
      PartMapped(s, ps[0]);
      var s1 := Run(s, PartEvents(ps[0]));
      RunConcat(s, PartEvents(ps[0]), AllEvents(ps[1..]));
      PartsMapped(s1, ps[1..]);
      Joined(s.calls, PartCalls(ps[0]), CallsOf(ps[1..]));
    }
  }

  lemma Joined(a: seq<ToolCall>, b: seq<ToolCall>, c: seq<ToolCall>)
    ensures a + b + c == a + (b + c)
  {
  }

  lemma NothingRun(s: State)
    requires s.Valid()
    ensures Run(s, []) == s
  {
  }

  lemma PartMapped(s: State, p: Part)
    requires s.Valid() && PartOk(p)
    ensures Run(s, PartEvents(p)).calls == s.calls + PartCalls(p)
  {
    hide Run, Step, TrimTrailing, ArgsText, IdAfter, CallOf, WellFormedArgs;
    match p
    case Said(e) =>
      RunOne(s, e);
      SaidCalls(s, e);
      assert s.calls + [] == s.calls;
    case Called(body, name, args) =>
      CallMapped(s, body, name, args);
  }

  lemma SaidCalls(s: State, e: Event)
    requires s.Valid() && (e.Reasoning? || e.Content? || Idle(e))
    ensures Step(s, e).calls == s.calls
  {
    hide TrimTrailing;
    if Idle(e) {
      IdleStays(s, e);
    }
  }

  /** A whole response of texts and tagged calls in any order: the texts in their own fields, and the calls in
      order.
   */
  lemma ResponseMapped(ps: seq<Part>)
    requires forall i :: 0 <= i < |ps| ==> PartOk(ps[i])
    ensures var es := AllEvents(ps);
      MessageOf(Visited(START, es)) ==
      Message(if IsWhite(ReasoningOf(es)) then "" else ReasoningOf(es), ContentOf(es), CallsOf(ps))
  {
    hide Run, PartOk, CallsOf;
    var es := AllEvents(ps);
    TextsGathered(es);
    PartsMapped(START, ps);
    NothingToFlush(START, es);
    assert [] + CallsOf(ps) == CallsOf(ps);
  }
}

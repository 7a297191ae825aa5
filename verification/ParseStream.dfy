/** From the trees of successive partial parses of one response to the deltas sent to the client, for
    the two formats whose tool calls are printed from the tree.
 */
module ParseStream {
  import opened MessageDiff
  import opened PegAst
  import opened ResponseStream
  import Gemma4Printer
  import MinimaxPrinter

  datatype Format = Gemma4 | MiniMaxM3

  /** The message after one node: text is collected, a tool with a complete name becomes a call. */
  function Visit(f: Format, m: Message, n: Node): Message
    decreases n, 1, 0
  {
    if n.tag.TagReasoning? then m.(reasoning := m.reasoning + n.text)
    else if n.tag.TagContent? then m.(content := m.content + n.text)
    else if n.tag.TagTool? then m.(toolCalls := m.toolCalls + ToolCalls(f, n))
    else VisitAll(f, m, n.children)
  }

  function VisitAll(f: Format, m: Message, nodes: seq<Node>): Message
    decreases nodes, 0, |nodes|
  {
    if nodes == [] then m else VisitAll(f, Visit(f, m, nodes[0]), nodes[1..])
  }

  /** The call of a tool node, if the tree reaches far enough to show one. */
  function ToolCalls(f: Format, n: Node): (r: seq<ToolCall>)
    ensures |r| <= 1
  {
    var name := FindByTag(n, TagToolName, MAX_DEPTH);
    match f
    case Gemma4 =>
      var args := FindByTag(n, TagToolArgs, MAX_DEPTH);
      if name.Some? && args.Some? && !name.value.partial then
        [ToolCall(name.value.text, Gemma4Arguments(args.value), "")]
      else []
    case MiniMaxM3 =>
      if name.Some? then [ToolCall(name.value.text, MinimaxPrinter.Container(n, true, !n.partial), "")] else []
  }

  function Gemma4Arguments(args: Node): string {
    if args.children == [] then "" else Gemma4Printer.ToJson(args.children[0])
  }

  function MessageOf(f: Format, nodes: seq<Node>): Message {
    VisitAll(f, EMPTY_MESSAGE, nodes)
  }

  // ---------- the message grows with the parse ----------

  lemma {:induction false} VisitGrows(f: Format, m: Message, n: Node)
    ensures TextGrows(m, Visit(f, m, n))
    decreases n, 1, 0
  {
    hide ToolCalls;
    if !n.tag.TagReasoning? && !n.tag.TagContent? && !n.tag.TagTool? {
      VisitAllGrows(f, m, n.children);
    }
  }

  lemma {:induction false} VisitAllGrows(f: Format, m: Message, nodes: seq<Node>)
    ensures TextGrows(m, VisitAll(f, m, nodes))
    decreases nodes, 0, |nodes|
  {
    hide Visit, TextGrows;
    if nodes == [] {
      TextGrowsReflexive(m);
    } else {
      VisitGrows(f, m, nodes[0]);
      VisitAllGrows(f, Visit(f, m, nodes[0]), nodes[1..]);
      TextGrowsTransitive(m, Visit(f, m, nodes[0]), VisitAll(f, m, nodes));
    }
  }

  lemma TextGrowsReflexive(m: Message)
    ensures TextGrows(m, m)
  {
  }

  lemma ToolCallsTruncated(f: Format, a: Node, b: Node)
    requires Truncation(a, b) && a.tag.TagTool?
    ensures var xs, ys := ToolCalls(f, a), ToolCalls(f, b);
            xs == [] || (xs != [] && ys != [] && xs[0].name == ys[0].name && xs[0].arguments <= ys[0].arguments)
  {
    hide FindByTag, Truncations, MinimaxPrinter.Container;
    if ToolCalls(f, a) != [] {
      FindTruncated(a, b, TagToolName, MAX_DEPTH);
      FoundTag(a, TagToolName, MAX_DEPTH);
      if f.Gemma4? {
        FindTruncated(a, b, TagToolArgs, MAX_DEPTH);
        ArgumentsTruncated(FindByTag(a, TagToolArgs, MAX_DEPTH).value, FindByTag(b, TagToolArgs, MAX_DEPTH).value);
      } else {
        MinimaxPrinter.ContainerMonotone(a, b, true, !a.partial, !b.partial);
      }
    }
  }

  lemma ArgumentsTruncated(x: Node, y: Node)
    requires Truncation(x, y)
    ensures Gemma4Arguments(x) <= Gemma4Arguments(y)
  {
    if x != y && x.children != [] {
      FirstTruncated(x.children, y.children);
      Gemma4Printer.PrefixMonotone(x.children[0], y.children[0]);
    }
  }

  lemma {:induction false} VisitTruncated(f: Format, m: Message, a: Node, b: Node)
    requires Truncation(a, b)
    ensures TextGrows(Visit(f, m, a), Visit(f, m, b))
    decreases b, 1, 0
  {
    hide ToolCalls, Truncation, Truncations;
    if a == b {
      TextGrowsReflexive(Visit(f, m, a));
    } else {
      ApartFacts(a, b);
      if a.tag.TagReasoning? || a.tag.TagContent? {
      } else if a.tag.TagTool? {
        ToolCallsTruncated(f, a, b);
        CallsAppendedGrow(m, ToolCalls(f, a), ToolCalls(f, b));
      } else {
        VisitAllTruncated(f, m, a.children, b.children);
      }
    }
  }

  lemma CallsAppendedGrow(m: Message, xs: seq<ToolCall>, ys: seq<ToolCall>)
    requires |xs| <= 1
    requires xs == [] || (xs != [] && ys != [] && xs[0].name <= ys[0].name && xs[0].arguments <= ys[0].arguments)
    ensures TextGrows(m.(toolCalls := m.toolCalls + xs), m.(toolCalls := m.toolCalls + ys))
  {
  }

  lemma {:induction false} VisitAllTruncated(f: Format, m: Message, xs: seq<Node>, ys: seq<Node>)
    requires Truncations(xs, ys)
    ensures TextGrows(VisitAll(f, m, xs), VisitAll(f, m, ys))
    decreases ys, 0, |ys|
  {
    hide Visit, TextGrows, Truncation;
    if xs == [] {
      VisitAllGrows(f, m, ys);
    } else {
      FirstTruncated(xs, ys);
      if |xs| == 1 {
        VisitTruncated(f, m, xs[0], ys[0]);
        assert xs[1..] == [];
        VisitAllGrows(f, Visit(f, m, ys[0]), ys[1..]);
        TextGrowsTransitive(Visit(f, m, xs[0]), Visit(f, m, ys[0]), VisitAll(f, m, ys));
      } else {
        VisitAllTruncated(f, Visit(f, m, xs[0]), xs[1..], ys[1..]);
      }
    }
  }

  // ---------- the whole stream ----------

  /** Each parse sees at least as much input as the one before. */
  ghost predicate Growing(previous: seq<Node>, parses: seq<seq<Node>>)
    decreases parses
  {
    parses != [] ==> Truncations(previous, parses[0]) && Growing(parses[0], parses[1..])
  }

  function Messages(f: Format, parses: seq<seq<Node>>): seq<Message> {
    if parses == [] then [] else [MessageOf(f, parses[0])] + Messages(f, parses[1..])
  }

  lemma {:induction false} ParsesChain(f: Format, previous: seq<Node>, parses: seq<seq<Node>>)
    requires Growing(previous, parses)
    ensures RawChain(MessageOf(f, previous), Messages(f, parses))
    decreases parses
  {
    hide TextGrows, Truncations, VisitAll;
    if parses != [] {
      VisitAllTruncated(f, EMPTY_MESSAGE, previous, parses[0]);
      ParsesChain(f, parses[0], parses[1..]);
      assert Messages(f, parses)[1..] == Messages(f, parses[1..]);
    }
  }

  /** End to end: however the response is cut into parses, the deltas are never rejected and rebuild
      the message of the final parse, up to the ids given to its calls. */
  lemma ResponseStreams(f: Format, parses: seq<seq<Node>>, gen: nat -> string)
    requires parses != [] && Growing([], parses)
    ensures var (s, r) := ResponseStream.Run(ResponseStream.State(EMPTY_MESSAGE, Ids([], 0)), Messages(f, parses), gen);
            && r.Ok? && ApplyAll(EMPTY_MESSAGE, r.value) == s.shown
            && SameText(s.shown, MessageOf(f, parses[|parses| - 1]))
  {
    hide Run, TextGrows, Truncations, VisitAll, SameText;
    ParsesChain(f, [], parses);
    EmptyParse(f);
    LastMessage(f, parses);
    ResponseRebuilds(Messages(f, parses), gen);
  }

  lemma EmptyParse(f: Format)
    ensures MessageOf(f, []) == EMPTY_MESSAGE
  {
  }

  lemma {:induction false} LastMessage(f: Format, parses: seq<seq<Node>>)
    requires parses != []
    ensures Messages(f, parses) != [] && Messages(f, parses)[|Messages(f, parses)| - 1] == MessageOf(f, parses[|parses| - 1])
    decreases parses
  {
    if |parses| > 1 {
      LastMessage(f, parses[1..]);
    }
  }
}

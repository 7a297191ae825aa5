/** Streaming through the event-driven mapper, from the trees of successive partial parses: what a visit of a cut
    tree yields is a cut list of events.
 */
module MapperTrees {
  import opened MapperStream
  import opened MessageDiff
  import opened PegAst
  import opened ToolMapper
  import R = ResponseStream

  // ---------- the visit ----------

  /** What the mapper sees of a node. */
  function EventOf(n: Node): Event {
    match n.tag
    case TagReasoning => Reasoning(n.text)
    case TagContent => Content(n.text)
    case TagToolOpen => ToolOpen
    case TagToolClose => ToolClose
    case TagToolId => ToolId(n.text)
    case TagToolName => ToolName(n.text)
    case TagToolArgs => ToolArgs(n.text)
    case TagArgOpen => ArgOpen
    case TagArgClose => ArgClose
    case TagArgName => ArgName(n.text)
    case TagArgValue => ArgValue(n.text)
    case TagArgString => ArgString(n.text)
    case _ => OtherNode
  }

  /** A node comes before the nodes inside it. */
  function Visit(n: Node): seq<Event>
    decreases n, 1, 0
  {
    [EventOf(n)] + VisitAll(n.children)
  }

  function VisitAll(nodes: seq<Node>): seq<Event>
    decreases nodes, 0, |nodes|
  {
    if nodes == [] then [] else Visit(nodes[0]) + VisitAll(nodes[1..])
  }

  /** A node comes before the nodes inside it, and those before the nodes behind it. */
  lemma VisitOrder(n: Node, rest: seq<Node>)
    ensures VisitAll([n] + rest) == [EventOf(n)] + VisitAll(n.children + rest)
    ensures VisitAll([]) == []
  {
    hide EventOf;
    VisitConcat(n.children, rest);
    assert ([n] + rest)[0] == n && ([n] + rest)[1..] == rest;
    assert [EventOf(n)] + VisitAll(n.children) + VisitAll(rest) == [EventOf(n)] + (VisitAll(n.children) + VisitAll(rest));
  }

  lemma {:induction false} VisitConcat(a: seq<Node>, b: seq<Node>)
    ensures VisitAll(a + b) == VisitAll(a) + VisitAll(b)
    decreases |a|
  {
    hide Visit;
    if a == [] {
      assert a + b == b;
    } else {
      VisitConcat(a[1..], b);
      assert (a + b)[0] == a[0] && (a + b)[1..] == a[1..] + b;
      assert Visit(a[0]) + VisitAll(a[1..]) + VisitAll(b) == Visit(a[0]) + (VisitAll(a[1..]) + VisitAll(b));
    }
  }

  // ---------- truncation ----------

  /** `a` is what `b` looked like earlier, cut in any of the nodes on its rightmost path, and no matter what is
      flagged partial.
   */
  ghost predicate Cut(a: Node, b: Node)
    decreases b, 1, 0
  {
    a == b || (a.tag == b.tag && a.text <= b.text && !Atomic(b) && Cuts(a.children, b.children))
  }

  ghost predicate Cuts(xs: seq<Node>, ys: seq<Node>)
    decreases ys, 0, |ys|
  {
    xs == []
    || (&& |xs| <= |ys|
        && if |xs| == 1 then Cut(xs[0], ys[0]) else xs[0] == ys[0] && Cuts(xs[1..], ys[1..]))
  }

  lemma {:induction false} TruncationCut(a: Node, b: Node)
    requires Truncation(a, b)
    ensures Cut(a, b)
    decreases b, 1, 0
  {
    if a != b {
      ApartFacts(a, b);
      TruncationsCut(a.children, b.children);
    }
  }

  /** The truncations of the printed formats are such cuts. */
  lemma {:induction false} TruncationsCut(xs: seq<Node>, ys: seq<Node>)
    requires Truncations(xs, ys)
    ensures Cuts(xs, ys)
    decreases ys, 0, |ys|
  {
    hide Truncation, Cut;
    if |xs| == 1 {
      TruncationCut(xs[0], ys[0]);
    } else if xs != [] {
      TruncationsCut(xs[1..], ys[1..]);
    }
  }

  /** Nodes whose text the mapper takes hold only idle nodes. */
  predicate Plain(n: Node)
    decreases n, 1, 0
  {
    && (!Atomic(n) && !Idle(EventOf(n)) ==> Shown(VisitAll(n.children)) == [])
    && AllPlain(n.children)
  }

  predicate AllPlain(nodes: seq<Node>)
    decreases nodes, 0, |nodes|
  {
    nodes != [] ==> Plain(nodes[0]) && AllPlain(nodes[1..])
  }

  // ---------- a cut tree yields a cut list of events ----------

  lemma CutEvent(a: Node, b: Node)
    requires Cut(a, b) && a != b
    ensures Idle(EventOf(b)) ==> Idle(EventOf(a))
    ensures !Idle(EventOf(b)) ==> CutOf(EventOf(a), EventOf(b))
  {
    hide TrimTrailing;
    if b.tag.TagToolArgs? {
      TrimTrailingPrefix(a.text, b.text);
    }
  }

  lemma PrefixMore(xs: seq<Event>, ys: seq<Event>, more: seq<Event>)
    requires PrefixCut(xs, ys)
    ensures PrefixCut(xs, ys + more)
  {
    hide CutOf;
    if xs != [] {
      assert (ys + more)[..|xs| - 1] == ys[..|xs| - 1];
    }
  }

  lemma PrefixBehind(before: seq<Event>, xs: seq<Event>, ys: seq<Event>)
    requires PrefixCut(xs, ys)
    ensures PrefixCut(before + xs, before + ys)
  {
    hide CutOf;
    var n := |xs| - 1;
    if xs == [] {
      assert before + xs == before;
      assert before != [] ==> before[..|before| - 1] == (before + ys)[..|before| - 1];
    } else {
      assert (before + xs)[..|before| + n] == before + xs[..n] && (before + ys)[..|before| + n] == before + ys[..n];
    }
  }

  lemma PrefixItself(xs: seq<Event>)
    ensures PrefixCut(xs, xs)
  {
  }

  lemma ShownFirst(e: Event, es: seq<Event>)
    ensures Shown([e] + es) == if Idle(e) then Shown(es) else [e] + Shown(es)
  {
    hide Idle;
    assert ([e] + es)[1..] == es;
  }

  lemma {:induction false} VisitCut(a: Node, b: Node)
    requires Cut(a, b) && Plain(b)
    ensures Truncates(Visit(a), Visit(b))
    decreases b, 1, 0
  {
    hide Idle, Shown, Cuts, AllPlain, PrefixCut;
    if a == b {
      PrefixItself(Shown(Visit(b)));
    } else {
      CutEvent(a, b);
      VisitAllCut(a.children, b.children);
      ShownFirst(EventOf(a), VisitAll(a.children));
      ShownFirst(EventOf(b), VisitAll(b.children));
      if !Idle(EventOf(b)) {
        OneCut(EventOf(a), EventOf(b), Shown(VisitAll(a.children)));
      }
    }
  }

  lemma OneCut(x: Event, y: Event, inner: seq<Event>)
    requires CutOf(x, y) && PrefixCut(inner, [])
    ensures inner == [] && PrefixCut([x] + inner, [y] + []) && PrefixCut(inner, [y] + [])
  {
  }

  lemma {:induction false} VisitAllCut(xs: seq<Node>, ys: seq<Node>)
    requires Cuts(xs, ys) && AllPlain(ys)
    ensures Truncates(VisitAll(xs), VisitAll(ys))
    decreases ys, 0, |ys|
  {
    hide Cut, Plain, Shown, PrefixCut, Visit;
    if xs == [] {
      NothingShown(Shown(VisitAll(ys)));
    } else {
      ShownConcat(Visit(xs[0]), VisitAll(xs[1..]));
      ShownConcat(Visit(ys[0]), VisitAll(ys[1..]));
      if |xs| == 1 {
        VisitCut(xs[0], ys[0]);
        NothingShown([]);
        assert xs[1..] == [] && Shown(Visit(xs[0])) + [] == Shown(Visit(xs[0]));
        PrefixMore(Shown(Visit(xs[0])), Shown(Visit(ys[0])), Shown(VisitAll(ys[1..])));
      } else {
        VisitAllCut(xs[1..], ys[1..]);
        PrefixBehind(Shown(Visit(xs[0])), Shown(VisitAll(xs[1..])), Shown(VisitAll(ys[1..])));
      }
    }
  }

  lemma NothingShown(es: seq<Event>)
    ensures Shown([]) == [] && PrefixCut([], es)
  {
  }

  /** The message of a cut forest grows into the message of the whole exactly when the cut does not show. */
  lemma TreesCut(xs: seq<Node>, ys: seq<Node>)
    requires Cuts(xs, ys) && AllPlain(ys) && Orderly(START, VisitAll(ys))
    ensures Truncates(VisitAll(xs), VisitAll(ys))
    ensures TextGrows(Parsed(VisitAll(xs)), Parsed(VisitAll(ys))) <==> !CutShows(VisitAll(xs), VisitAll(ys))
  {
    hide Cuts, AllPlain, Orderly, TextGrows, Parsed, Truncates, CutShows;
    VisitAllCut(xs, ys);
    EventsCut(VisitAll(xs), VisitAll(ys));
  }

  // ---------- a whole response ----------

  /** Successive parses, each of which the one before cuts where it does not show. */
  ghost predicate TreesGrow(previous: seq<Node>, parses: seq<seq<Node>>)
    decreases parses
  {
    parses != [] ==>
      && Cuts(previous, parses[0]) && AllPlain(parses[0]) && Orderly(START, VisitAll(parses[0]))
      && (VisitAllCut(previous, parses[0]); !CutShows(VisitAll(previous), VisitAll(parses[0])))
      && TreesGrow(parses[0], parses[1..])
  }

  function Visits(parses: seq<seq<Node>>): (r: seq<seq<Event>>)
    ensures |r| == |parses| && forall i :: 0 <= i < |r| ==> r[i] == VisitAll(parses[i])
  {
    seq(|parses|, i requires 0 <= i < |parses| => VisitAll(parses[i]))
  }

  lemma {:induction false} VisitsGrow(previous: seq<Node>, parses: seq<seq<Node>>)
    requires TreesGrow(previous, parses)
    ensures Growing(VisitAll(previous), Visits(parses))
    decreases parses
  {
    hide Cuts, AllPlain, Orderly, Truncates, CutShows;
    if parses != [] {
      VisitAllCut(previous, parses[0]);
      VisitsGrow(parses[0], parses[1..]);
      assert Visits(parses)[1..] == Visits(parses[1..]);
    }
  }

  /** End to end from the trees: no delta is rejected and the deltas rebuild the message of the last parse, up to
      the ids given to its calls.
   */
  lemma TreesStream(parses: seq<seq<Node>>, gen: nat -> string)
    requires parses != [] && TreesGrow([], parses)
    ensures var (s, r) := R.Run(R.State(EMPTY_MESSAGE, R.Ids([], 0)), Messages(Visits(parses)), gen);
            && r.Ok? && ApplyAll(EMPTY_MESSAGE, r.value) == s.shown
            && R.SameText(s.shown, Parsed(VisitAll(parses[|parses| - 1])))
  {
    hide R.Run, R.SameText, Growing, TreesGrow, ApplyAll, Parsed, Messages;
    VisitsGrow([], parses);
    MapperStreams(Visits(parses), gen);
  }
}

/** JSON text from the tree of a MiniMax M3 tool call, printed as far as the tree goes. */
module MinimaxPrinter {
  import opened JsonText
  import opened Wrappers
  import opened PegAst

  // ---------- looking into the tree ----------

  /** The outermost nodes with the tag below `n`, in document order. */
  function Collect(n: Node, tag: Tag): (r: seq<Node>)
    ensures forall k :: 0 <= k < |r| ==> r[k] < n && r[k].tag == tag
    decreases n, 1, 0
  {
    CollectIn(n.children, tag)
  }

  function CollectIn(nodes: seq<Node>, tag: Tag): (r: seq<Node>)
    ensures forall k :: 0 <= k < |r| ==> r[k].tag == tag && exists i :: 0 <= i < |nodes| && (r[k] == nodes[i] || r[k] < nodes[i])
    decreases nodes, 0, |nodes|
  {
    if nodes == [] then []
    else
      var here := if nodes[0].tag == tag then [nodes[0]] else Collect(nodes[0], tag);
      here + CollectIn(nodes[1..], tag)
  }

  predicate IsValue(n: Node) {
    n.tag.TagArgValue? || n.tag.TagArgString? || n.tag.TagArgObject? || n.tag.TagArgArray?
  }

  function ValueOf(nodes: seq<Node>): (r: Option<Node>)
    ensures r.Some? ==> r.value in nodes && IsValue(r.value)
  {
    if nodes == [] then None else if IsValue(nodes[0]) then Some(nodes[0]) else ValueOf(nodes[1..])
  }

  // ---------- printing ----------

  function ToJson(v: Node, closed: bool): string
    decreases v, 3, 0
  {
    if v.tag.TagArgObject? then Container(v, true, closed)
    else if v.tag.TagArgArray? then Container(v, false, closed)
    else if v.tag.TagArgString? then "\"" + (Escape(v.text) + (if closed then "\"" else ""))
    else v.text
  }

  function Container(n: Node, isObject: bool, closed: bool): string
    decreases n, 2, 0
  {
    var entries := Collect(n, if isObject then TagArg else TagArgItem);
    (if isObject then "{" else "[")
    + (Entries(entries, isObject, n) + (if !closed then "" else if isObject then "}" else "]"))
  }

  /** The text of one object member or array item. */
  function Entry(e: Node, isObject: bool): string
    decreases e, 4, 0
  {
    if isObject then Member(e)
    else
      var v := ValueOf(e.children);
      if v.None? then "" else ToJson(v.value, !e.partial)
  }

  function Member(e: Node): string
    decreases e, 3, 0
  {
    var name := FindByTag(e, TagArgName, MAX_DEPTH);
    if name.None? then ""
    else
      var v := ValueOf(e.children);
      Quoted(name.value.text) + ":" + (if v.None? then "" else ToJson(v.value, !e.partial))
  }

  /** The non-empty texts of the entries with commas between them; entries lie below `bound`. */
  function Entries(entries: seq<Node>, isObject: bool, ghost bound: Node): string
    requires forall k :: 0 <= k < |entries| ==> entries[k] < bound
    decreases bound, 1, |entries|
  {
    if entries == [] then ""
    else
      Before(Entries(entries[..|entries| - 1], isObject, bound), Entry(entries[|entries| - 1], isObject))
  }

  /** Appends one entry to those written so far; an empty entry is skipped. */
  function Before(written: string, text: string): string {
    if text == "" then written
    else if written == "" then text
    else written + ("," + text)
  }

  // ---------- prefix monotonicity ----------

  lemma {:induction false} CollectTruncated(a: Node, b: Node, tag: Tag)
    requires Truncation(a, b)
    ensures Truncations(Collect(a, tag), Collect(b, tag))
    decreases b, 1, 0
  {
    hide Truncations;
    if a == b {
      TruncationsReflexive(Collect(a, tag));
    } else {
      ApartFacts(a, b);
      CollectInTruncated(a.children, b.children, tag);
    }
  }

  function Here(n: Node, tag: Tag): seq<Node> {
    if n.tag == tag then [n] else Collect(n, tag)
  }

  lemma {:induction false} CollectInTruncated(xs: seq<Node>, ys: seq<Node>, tag: Tag)
    requires Truncations(xs, ys)
    ensures Truncations(CollectIn(xs, tag), CollectIn(ys, tag))
    decreases ys, 0, |ys|
  {
    hide Collect, Truncation;
    if xs != [] {
      var x, y := xs[0], ys[0];
      assert CollectIn(ys, tag) == Here(y, tag) + CollectIn(ys[1..], tag);
      FirstTruncated(xs, ys);
      if |xs| > 1 {
        CollectInTruncated(xs[1..], ys[1..], tag);
        TruncationsPrepend(Here(x, tag), CollectIn(xs[1..], tag), CollectIn(ys[1..], tag));
      } else {
        HereTruncated(x, y, tag);
        assert xs[1..] == [] && CollectIn(xs, tag) == Here(x, tag) + [];
        assert Here(x, tag) + [] == Here(x, tag);
        TruncationsAppend(Here(x, tag), Here(y, tag), CollectIn(ys[1..], tag));
      }
    }
  }

  lemma {:induction false} HereTruncated(x: Node, y: Node, tag: Tag)
    requires Truncation(x, y)
    ensures Truncations(Here(x, tag), Here(y, tag))
    decreases y, 2, 0
  {
    assert x.tag == y.tag;
    if x.tag != tag {
      CollectTruncated(x, y, tag);
    }
  }

  lemma {:induction false} ValueOfTruncated(xs: seq<Node>, ys: seq<Node>)
    requires Truncations(xs, ys) && ValueOf(xs).Some?
    ensures ValueOf(ys).Some? && Truncation(ValueOf(xs).value, ValueOf(ys).value)
    ensures xs == ys ==> ValueOf(xs) == ValueOf(ys)
    decreases xs
  {
    FirstTruncated(xs, ys);
    if !IsValue(xs[0]) {
      ValueOfTruncated(xs[1..], ys[1..]);
    }
  }

  lemma {:induction false} BoundIrrelevant(entries: seq<Node>, isObject: bool, b: Node, c: Node)
    requires forall k :: 0 <= k < |entries| ==> entries[k] < b && entries[k] < c
    ensures Entries(entries, isObject, b) == Entries(entries, isObject, c)
    decreases |entries|
  {
    hide Entry;
    if entries != [] {
      BoundIrrelevant(entries[..|entries| - 1], isObject, b, c);
    }
  }

  /** A value read so far prints to a prefix of the value read in full. */
  lemma {:induction false} PrefixMonotone(a: Node, b: Node, closedA: bool, closedB: bool)
    requires Truncation(a, b)
    requires closedA ==> a == b && closedB
    ensures ToJson(a, closedA) <= ToJson(b, closedB)
    decreases b, 3, 0
  {
    hide Container, Escape, Truncations;
    assert a.tag == b.tag && a.text <= b.text;
    if a.tag.TagArgObject? {
      ContainerMonotone(a, b, true, closedA, closedB);
    } else if a.tag.TagArgArray? {
      ContainerMonotone(a, b, false, closedA, closedB);
    } else if a.tag.TagArgString? {
      EscapePrefix(a.text, b.text);
      ClosedPrefix("\"", Escape(a.text), Escape(b.text), closedA, closedB, "\"");
    }
  }

  lemma ClosedPrefix(open: string, a: string, b: string, closedA: bool, closedB: bool, close: string)
    requires a <= b && (closedA ==> a == b && closedB)
    ensures open + (a + (if closedA then close else "")) <= open + (b + (if closedB then close else ""))
  {
    if !closedA {
      assert a + "" == a;
      PrefixUnder(open, a, b + (if closedB then close else ""));
    }
  }

  lemma {:induction false} ContainerMonotone(a: Node, b: Node, isObject: bool, closedA: bool, closedB: bool)
    requires Truncation(a, b)
    requires closedA ==> a == b && closedB
    ensures Container(a, isObject, closedA) <= Container(b, isObject, closedB)
    decreases b, 2, 0
  {
    hide Entries, Collect, Truncation, Truncations;
    var tag := if isObject then TagArg else TagArgItem;
    var xs, ys := Collect(a, tag), Collect(b, tag);
    CollectTruncated(a, b, tag);
    EntriesMonotone(xs, ys, isObject, a, b);
    ClosedPrefix(if isObject then "{" else "[", Entries(xs, isObject, a), Entries(ys, isObject, b),
                 closedA, closedB, if isObject then "}" else "]");
  }

  lemma {:induction false} EntryMonotone(x: Node, y: Node, isObject: bool)
    requires Truncation(x, y) && Terminated(y)
    ensures Entry(x, isObject) <= Entry(y, isObject)
    decreases y, 4, 0
  {
    hide ToJson, FindByTag, Truncation, Truncations, Quoted;
    if x != y {
      ApartFacts(x, y);
      var v := ValueOf(x.children);
      if v.Some? {
        ValueOfTruncated(x.children, y.children);
        PrefixMonotone(v.value, ValueOf(y.children).value, false, !y.partial);
      }
      if isObject && FindByTag(x, TagArgName, MAX_DEPTH).Some? {
        NameTruncated(x, y);
        var head := Quoted(FindByTag(x, TagArgName, MAX_DEPTH).value.text) + ":";
        var w := ValueOf(y.children);
        PrefixUnder(head, if v.None? then "" else ToJson(v.value, false), if w.None? then "" else ToJson(w.value, !y.partial));
      }
    }
  }

  lemma NameTruncated(x: Node, y: Node)
    requires Truncation(x, y) && FindByTag(x, TagArgName, MAX_DEPTH).Some?
    ensures FindByTag(y, TagArgName, MAX_DEPTH) == FindByTag(x, TagArgName, MAX_DEPTH)
  {
    hide FindByTag, Truncations;
    FindTruncated(x, y, TagArgName, MAX_DEPTH);
    FoundTag(x, TagArgName, MAX_DEPTH);
  }

  lemma {:induction false} EntriesExtend(ys: seq<Node>, n: nat, isObject: bool, bound: Node)
    requires n <= |ys| && forall k :: 0 <= k < |ys| ==> ys[k] < bound
    ensures Entries(ys[..n], isObject, bound) <= Entries(ys, isObject, bound)
    decreases |ys|
  {
    hide Entry;
    if n < |ys| {
      var init := ys[..|ys| - 1];
      EntriesExtend(init, n, isObject, bound);
      assert init[..n] == ys[..n];
    } else {
      assert ys[..n] == ys;
    }
  }

  lemma BeforeMonotone(written: string, a: string, b: string)
    requires a <= b
    ensures Before(written, a) <= Before(written, b)
  {
    if a != "" {
      PrefixUnder(",", a, b);
      PrefixUnder(written, "," + a, "," + b);
    }
  }

  lemma {:induction false} EntriesMonotone(xs: seq<Node>, ys: seq<Node>, isObject: bool, a: Node, b: Node)
    requires forall k :: 0 <= k < |xs| ==> xs[k] < a
    requires forall k :: 0 <= k < |ys| ==> ys[k] < b && Terminated(ys[k])
    requires Truncations(xs, ys)
    ensures Entries(xs, isObject, a) <= Entries(ys, isObject, b)
    decreases b, 1, 0
  {
    hide Entry, Truncation, Entries, Before;
    if xs == [] {
      NoEntries(isObject, a);
    } else {
      TruncationsIndexed(xs, ys);
      var n := |xs|;
      var init, whole := xs[..n - 1], ys[..n];
      assert whole[..n - 1] == init;
      BoundIrrelevant(init, isObject, a, b);
      EntryMonotone(xs[n - 1], ys[n - 1], isObject);
      BeforeMonotone(Entries(init, isObject, b), Entry(xs[n - 1], isObject), Entry(ys[n - 1], isObject));
      LastEntry(xs, isObject, a);
      LastEntry(whole, isObject, b);
      EntriesExtend(ys, n, isObject, b);
    }
  }

  // ---------- complete trees ----------

  /** The shape the grammar gives to a complete value. */
  predicate CompleteValue(v: Node)
    decreases v, 3, 0
  {
    if v.tag.TagArgObject? then CompleteObject(v)
    else if v.tag.TagArgArray? then
      var es := Collect(v, TagArgItem);
      forall k :: 0 <= k < |es| ==> CompleteEntry(es[k])
    else v.tag.TagArgString? || (v.tag.TagArgValue? && v.text != "")
  }

  /** Holds of an object value and of a tool node alike: the members below it are complete. */
  predicate CompleteObject(n: Node)
    decreases n, 2, 0
  {
    var es := Collect(n, TagArg);
    forall k :: 0 <= k < |es| ==> CompleteMember(es[k])
  }

  predicate CompleteMember(e: Node)
    decreases e, 5, 0
  {
    CompleteEntry(e) && FindByTag(e, TagArgName, MAX_DEPTH).Some?
  }

  predicate CompleteEntry(e: Node)
    decreases e, 4, 0
  {
    !e.partial && ValueOf(e.children).Some? && CompleteValue(ValueOf(e.children).value)
  }

  /** The JSON value a complete tree denotes; anything but strings, objects and arrays is verbatim. */
  function Meaning(v: Node): Value
    requires CompleteValue(v)
    decreases v, 3, 0
  {
    if v.tag.TagArgObject? then ObjectMeaning(v)
    else if v.tag.TagArgArray? then
      var es := Collect(v, TagArgItem);
      Array(seq(|es|, i requires 0 <= i < |es| => EntryMeaning(es[i])))
    else if v.tag.TagArgString? then Text(v.text)
    else Scalar(v.text)
  }

  function ObjectMeaning(n: Node): Value
    requires CompleteObject(n)
    decreases n, 2, 0
  {
    var es := Collect(n, TagArg);
    Object(seq(|es|, i requires 0 <= i < |es| => MemberMeaning(es[i])))
  }

  function MemberMeaning(e: Node): JsonText.Member
    requires CompleteMember(e)
    decreases e, 5, 0
  {
    JsonText.Member(FindByTag(e, TagArgName, MAX_DEPTH).value.text, EntryMeaning(e))
  }

  function EntryMeaning(e: Node): Value
    requires CompleteEntry(e)
    decreases e, 4, 0
  {
    Meaning(ValueOf(e.children).value)
  }

  lemma {:induction false} MembersSnoc(ms: seq<JsonText.Member>, m: JsonText.Member)
    ensures PrintMembers(ms + [m], COMPACT)
         == if ms == [] then PrintMember(m, COMPACT) else PrintMembers(ms, COMPACT) + ("," + PrintMember(m, COMPACT))
    decreases ms
  {
    hide PrintMember;
    if ms != [] {
      assert (ms + [m])[1..] == ms[1..] + [m];
      MembersSnoc(ms[1..], m);
      var head, last := PrintMember(ms[0], COMPACT), PrintMember(m, COMPACT);
      if |ms| == 1 {
        assert head + "," + COMPACT.afterComma + last == head + ("," + last);
      } else {
        var rest := PrintMembers(ms[1..], COMPACT);
        assert head + "," + COMPACT.afterComma + (rest + ("," + last)) == head + "," + COMPACT.afterComma + rest + ("," + last);
      }
    }
  }

  lemma {:induction false} ItemsSnoc(vs: seq<Value>, v: Value)
    ensures PrintItems(vs + [v], COMPACT)
         == if vs == [] then Print(v, COMPACT) else PrintItems(vs, COMPACT) + ("," + Print(v, COMPACT))
    decreases vs
  {
    hide Print;
    if vs != [] {
      assert (vs + [v])[1..] == vs[1..] + [v];
      ItemsSnoc(vs[1..], v);
      var head, last := Print(vs[0], COMPACT), Print(v, COMPACT);
      if |vs| == 1 {
        assert head + "," + COMPACT.afterComma + last == head + ("," + last);
      } else {
        var rest := PrintItems(vs[1..], COMPACT);
        assert head + "," + COMPACT.afterComma + (rest + ("," + last)) == head + "," + COMPACT.afterComma + rest + ("," + last);
      }
    }
  }

  /** For a complete value the printer writes exactly its JSON text. */
  lemma {:induction false} CompletePrinted(v: Node)
    requires CompleteValue(v)
    ensures ToJson(v, true) == Print(Meaning(v), COMPACT) != ""
    decreases v, 3, 0
  {
    hide Entries, Collect, PrintItems, PrintMembers, CompleteEntry, EntryMeaning, CompleteMember, MemberMeaning, Escape;
    if v.tag.TagArgObject? {
      ObjectPrinted(v);
    } else if v.tag.TagArgArray? {
      var es := Collect(v, TagArgItem);
      ItemsPrinted(es, v, Meaning(v).items);
      assert "[" + (Entries(es, false, v) + "]") == "[" + Entries(es, false, v) + "]";
    } else if v.tag.TagArgString? {
      assert "\"" + (Escape(v.text) + "\"") == Quoted(v.text);
    }
  }

  /** A complete object, or the complete arguments of a tool, print to the JSON text of the object. */
  lemma {:induction false} ObjectPrinted(n: Node)
    requires CompleteObject(n)
    ensures Container(n, true, true) == Print(ObjectMeaning(n), COMPACT) != ""
    decreases n, 2, 0
  {
    hide Entries, Collect, PrintMembers, CompleteMember, MemberMeaning;
    var es := Collect(n, TagArg);
    MembersPrinted(es, n, ObjectMeaning(n).members);
    assert "{" + (Entries(es, true, n) + "}") == "{" + Entries(es, true, n) + "}";
  }

  lemma {:induction false} EntryPrinted(e: Node)
    requires CompleteEntry(e)
    ensures Entry(e, false) == Print(EntryMeaning(e), COMPACT) != ""
    ensures CompleteMember(e) ==> Entry(e, true) == PrintMember(MemberMeaning(e), COMPACT) != ""
    decreases e, 4, 0
  {
    hide ToJson, Print, FindByTag, CompleteValue, Quoted;
    var v := ValueOf(e.children).value;
    CompletePrinted(v);
    if FindByTag(e, TagArgName, MAX_DEPTH).Some? {
      var name := FindByTag(e, TagArgName, MAX_DEPTH).value.text;
      assert Quoted(name) + ":" + COMPACT.afterColon + ToJson(v, true) == Quoted(name) + ":" + ToJson(v, true);
    }
  }

  lemma {:induction false} MemberPrinted(e: Node)
    requires CompleteMember(e)
    ensures Entry(e, true) == PrintMember(MemberMeaning(e), COMPACT) != ""
    decreases e, 5, 0
  {
    hide Entry, PrintMember, MemberMeaning, CompleteEntry;
    EntryPrinted(e);
  }

  lemma NoEntries(isObject: bool, bound: Node)
    ensures Entries([], isObject, bound) == "" && PrintItems([], COMPACT) == "" && PrintMembers([], COMPACT) == ""
  {
  }

  lemma LastEntry(es: seq<Node>, isObject: bool, bound: Node)
    requires es != [] && forall k :: 0 <= k < |es| ==> es[k] < bound
    ensures Entries(es, isObject, bound) == Before(Entries(es[..|es| - 1], isObject, bound), Entry(es[|es| - 1], isObject))
  {
    hide Entry;
  }

  lemma {:induction false} ItemsPrinted(es: seq<Node>, bound: Node, vs: seq<Value>)
    requires |es| == |vs| && forall k :: 0 <= k < |es| ==> es[k] < bound && CompleteEntry(es[k]) && vs[k] == EntryMeaning(es[k])
    ensures Entries(es, false, bound) == PrintItems(vs, COMPACT)
    ensures es != [] ==> Entries(es, false, bound) != ""
    decreases bound, 1, |es|
  {
    hide Entry, Entries, Print, PrintItems, CompleteEntry, EntryMeaning;
    NoEntries(false, bound);
    if es != [] {
      var n := |es| - 1;
      LastEntry(es, false, bound);
      EntryPrinted(es[n]);
      ItemsPrinted(es[..n], bound, vs[..n]);
      ItemsSnoc(vs[..n], vs[n]);
      assert vs[..n] + [vs[n]] == vs;
    }
  }

  lemma {:induction false} MembersPrinted(es: seq<Node>, bound: Node, ms: seq<JsonText.Member>)
    requires |es| == |ms|
    requires forall k :: 0 <= k < |es| ==> es[k] < bound && CompleteMember(es[k]) && ms[k] == MemberMeaning(es[k])
    ensures Entries(es, true, bound) == PrintMembers(ms, COMPACT)
    ensures es != [] ==> Entries(es, true, bound) != ""
    decreases bound, 1, |es|
  {
    hide Entry, Entries, PrintMember, PrintMembers, CompleteMember, MemberMeaning;
    NoEntries(true, bound);
    if es != [] {
      var n := |es| - 1;
      LastEntry(es, true, bound);
      MemberPrinted(es[n]);
      MembersPrinted(es[..n], bound, ms[..n]);
      MembersSnoc(ms[..n], ms[n]);
      assert ms[..n] + [ms[n]] == ms;
    }
  }
}

/** What the cuts and the diff of templates are, without the loops that find them. */
module DiffLaws {
  import opened MarkerDiff
  import opened MarkerExtract
  import opened Markers
  import opened Wrappers

  // ---------- segments ----------

  function ClosingOf(opener: char): char
    requires opener == '<' || opener == '['
  {
    if opener == '<' then '>' else ']'
  }

  predicate BeginsOpen(v: string) {
    v != "" && (v[0] == '<' || v[0] == '[')
  }

  predicate NoOpeners(v: string) {
    '<' !in v && '[' !in v
  }

  /** A marker begins with an opener and ends at the first closer of it. */
  predicate MarkerOk(v: string) {
    BeginsOpen(v) && v[|v| - 1] == ClosingOf(v[0]) && ClosingOf(v[0]) !in v[..|v| - 1]
  }

  /** Markers, and texts without openers between them; only the last text may begin with an opener that is never
      closed.
   */
  predicate WellCut(segs: seq<Segment>) {
    segs != [] ==>
      var v := segs[0].value;
      && WellCut(segs[1..])
      && if segs[0].kind.Marker? then MarkerOk(v)
         else if BeginsOpen(v) then |segs| == 1 && ClosingOf(v[0]) !in v
         else v != "" && NoOpeners(v) && (|segs| > 1 ==> BeginsOpen(segs[1].value))
  }

  /** The segments of a text are such a list. */
  lemma {:induction false} SegmentsWellCut(s: string)
    ensures WellCut(Segments(s))
    decreases |s|
  {
    hide Segments, FirstCloser, FirstOpener, WellCut;
    if s == "" {
      NoSegments();
      NothingCut();
    } else if IsOpener(s[0]) {
      var n := FirstCloser(s[0], s);
      if n < |s| {
        MarkerSegment(s, n);
        SegmentsWellCut(s[n + 1..]);
        CutMarker(s[..n + 1], Segments(s[n + 1..]));
      } else {
        UnclosedSegment(s);
        CutUnclosed(s);
      }
    } else {
      var n := FirstOpener(s);
      TextSegment(s, n);
      SegmentsWellCut(s[n..]);
      FirstBegins(s[n..]);
      CutText(s[..n], Segments(s[n..]));
    }
  }

  lemma NothingCut()
    ensures WellCut([])
  {
  }

  lemma CutMarker(v: string, rest: seq<Segment>)
    requires WellCut(rest) && v != "" && IsOpener(v[0]) && Closes(v[0], v[|v| - 1])
    requires forall k :: 0 <= k < |v| - 1 ==> !Closes(v[0], v[k])
    ensures WellCut([Segment(Marker, v)] + rest)
  {
    assert ([Segment(Marker, v)] + rest)[1..] == rest;
  }

  lemma CutUnclosed(v: string)
    requires v != "" && IsOpener(v[0]) && forall k :: 0 <= k < |v| ==> !Closes(v[0], v[k])
    ensures WellCut([Segment(Text, v)])
  {
    assert [Segment(Text, v)][1..] == [];
    NothingCut();
  }

  lemma CutText(v: string, rest: seq<Segment>)
    requires WellCut(rest) && v != "" && (forall k :: 0 <= k < |v| ==> !IsOpener(v[k]))
    requires rest != [] ==> BeginsOpen(rest[0].value)
    ensures WellCut([Segment(Text, v)] + rest)
  {
    assert ([Segment(Text, v)] + rest)[1..] == rest;
  }

  lemma FirstBegins(s: string)
    ensures Segments(s) != [] && IsOpener(s[0]) ==> BeginsOpen(Segments(s)[0].value)
    ensures Segments(s) == [] <==> s == ""
  {
  }

  /** And the only one that makes up the text. */
  lemma {:induction false} SegmentsOnly(segs: seq<Segment>)
    requires WellCut(segs)
    ensures Segments(Concat(segs)) == segs
    decreases segs
  {
    hide Segments, FirstCloser, FirstOpener;
    if segs == [] {
      NoSegments();
    } else {
      var v, rest := segs[0].value, Concat(segs[1..]);
      SegmentsOnly(segs[1..]);
      assert segs == [segs[0]] + segs[1..];
      if segs[0].kind.Marker? {
        FirstCloserIs(v[0], v + rest, |v| - 1);
        MarkerSegment(v + rest, |v| - 1);
        assert (v + rest)[..|v|] == v && (v + rest)[|v|..] == rest;
      } else if BeginsOpen(v) {
        NoSegments();
        assert segs[1..] == [] && v + rest == v;
        UnclosedSegment(v);
      } else {
        ConcatBegins(segs[1..]);
        FirstOpenerIs(v + rest, |v|);
        TextSegment(v + rest, |v|);
        assert (v + rest)[..|v|] == v && (v + rest)[|v|..] == rest;
      }
    }
  }

  lemma ConcatBegins(segs: seq<Segment>)
    ensures segs != [] && segs[0].value != "" ==> Concat(segs) != "" && Concat(segs)[0] == segs[0].value[0]
    ensures segs == [] ==> Concat(segs) == ""
  {
  }

  // ---------- texts without markers ----------

  predicate IsSuffix(w: string, s: string) {
    |w| <= |s| && s[|s| - |w|..] == w
  }

  /** The longest text both end with. */
  ghost predicate LongestSuffix(w: string, a: string, b: string) {
    IsSuffix(w, a) && IsSuffix(w, b) && forall v :: IsSuffix(v, a) && IsSuffix(v, b) ==> |v| <= |w|
  }

  /** The longest text both begin with. */
  ghost predicate LongestPrefix(w: string, a: string, b: string) {
    w <= a && w <= b && forall v :: v <= a && v <= b ==> |v| <= |w|
  }

  lemma CommonPrefixLongest(a: string, b: string)
    ensures LongestPrefix(a[..CommonPrefix(a, b)], a, b)
  {
    hide CommonPrefix;
    var n := CommonPrefix(a, b);
    forall v | v <= a && v <= b ensures |v| <= n {
      SharedChars(v, a, b);
    }
  }

  lemma SharedChars(v: string, a: string, b: string)
    requires v <= a && v <= b
    ensures forall k :: 0 <= k < |v| ==> a[k] == b[k]
  {
  }

  function FromEnd(s: string, k: nat): char
    requires k < |s|
  {
    s[|s| - 1 - k]
  }

  lemma {:induction false} CommonSuffixStops(a: string, b: string)
    ensures var n := CommonSuffix(a, b); n < |a| && n < |b| ==> FromEnd(a, n) != FromEnd(b, n)
    decreases |a|
  {
    if a != "" && b != "" && a[|a| - 1] == b[|b| - 1] {
      CommonSuffixStops(a[..|a| - 1], b[..|b| - 1]);
    }
  }

  lemma CommonSuffixLongest(a: string, b: string)
    ensures LongestSuffix(a[|a| - CommonSuffix(a, b)..], a, b)
  {
    hide CommonSuffix, FromEnd;
    var n := CommonSuffix(a, b);
    CommonSuffixShared(a, b);
    CommonSuffixStops(a, b);
    forall v | IsSuffix(v, a) && IsSuffix(v, b) ensures |v| <= n {
      SuffixChars(v, a);
      SuffixChars(v, b);
    }
  }

  lemma SuffixChars(v: string, s: string)
    requires IsSuffix(v, s)
    ensures forall k: nat :: k < |v| ==> FromEnd(s, k) == FromEnd(v, k)
  {
    forall k: nat | k < |v| ensures FromEnd(s, k) == FromEnd(v, k) {
      assert s[|s| - |v|..][|v| - 1 - k] == s[|s| - 1 - k];
    }
  }

  /** Texts without markers: a text that only continues is its prefix and the rest; otherwise the longest common
      ending is shared, and of what is then left the longest common beginning.
   */
  lemma TextSplit(left: string, right: string)
    requires NoOpeners(left) && NoOpeners(right)
    ensures var d := Split(left, right);
      && Reconstructs(d, left, right)
      && if left <= right then d == DiffSplit(left, "", "", right[|left|..])
         else
           && LongestSuffix(d.suffix, left, right)
           && LongestPrefix(d.prefix, left[..|left| - |d.suffix|], right[..|right| - |d.suffix|])
           && (d.left != "" && d.right != "" ==> d.left[0] != d.right[0] && FromEnd(d.left, 0) != FromEnd(d.right, 0))
  {
    hide FromEnd, Trimmed, Corrected, Split, LongestPrefix, LongestSuffix, Reconstructs;
    if left == "" || right == "" {
      EmptySplit(left, right);
    } else {
      TextTrimmed(left, right);
      TrimLongest(left, right);
      TrimmedStart("", "", left, right, true, true);
      TrimmedEnd("", "", left, right, true, true);
      CorrectedText(Trimmed("", "", left, right, true, true), left, right);
    }
  }

  lemma TrimLongest(left: string, right: string)
    ensures var d := Trimmed("", "", left, right, true, true);
      && Reconstructs(d, left, right) && LongestSuffix(d.suffix, left, right)
      && LongestPrefix(d.prefix, left[..|left| - |d.suffix|], right[..|right| - |d.suffix|])
  {
    hide CommonPrefix, CommonSuffix, Trimmed, LongestPrefix, LongestSuffix, Reconstructs;
    var n := CommonSuffix(left, right);
    TrimReconstructs(left, right);
    TrimAlone(left, right);
    CommonSuffixLongest(left, right);
    CommonPrefixLongest(left[..|left| - n], right[..|right| - n]);
  }

  lemma TrimReconstructs(left: string, right: string)
    ensures Reconstructs(Trimmed("", "", left, right, true, true), left, right)
  {
    hide Trimmed;
    TrimmedKeeps("", "", left, right, true, true);
    assert "" + left + "" == left && "" + right + "" == right;
  }

  lemma TrimAlone(left: string, right: string)
    ensures var d, n := Trimmed("", "", left, right, true, true), CommonSuffix(left, right);
      var x, y := left[..|left| - n], right[..|right| - n];
      |d.suffix| == n && d.suffix == left[|left| - n..] && d.prefix == x[..CommonPrefix(x, y)]
  {
    hide CommonPrefix, CommonSuffix;
    var n := CommonSuffix(left, right);
    var k := CommonPrefix(left[..|left| - n], right[..|right| - n]);
    assert left[|left| - n..] + "" == left[|left| - n..];
    assert "" + left[..k] == left[..|left| - n][..k];
  }

  lemma EmptySplit(left: string, right: string)
    requires left == "" || right == ""
    ensures var d := Split(left, right);
      && Reconstructs(d, left, right) && (d.left == "" || d.right == "")
      && if left <= right then d == DiffSplit(left, "", "", right[|left|..])
         else
           && LongestSuffix(d.suffix, left, right)
           && LongestPrefix(d.prefix, left[..|left| - |d.suffix|], right[..|right| - |d.suffix|])
  {
    hide Segments, RaceOf, Tail, TextTrim;
    assert "" + right + "" == right && "" + left + "" == left;
  }

  lemma CorrectedText(d: DiffSplit, left: string, right: string)
    requires Reconstructs(d, left, right) && left != ""
    requires left <= right ==> d.left == ""
    ensures var c := Corrected(d, left, right);
      && Reconstructs(c, left, right)
      && if left <= right then c == DiffSplit(left, "", "", right[|left|..]) else c == d
  {
    CorrectedKeeps(d, left, right);
    if d.left == "" && d.right == "" {
      assert left == right && left <= right && right[|left|..] == "";
    }
  }

  lemma TextTrimmed(left: string, right: string)
    requires NoOpeners(left) && NoOpeners(right) && left != "" && right != ""
    ensures Split(left, right) == Corrected(Trimmed("", "", left, right, true, true), left, right)
    ensures left <= right ==> Trimmed("", "", left, right, true, true).left == ""
  {
    hide Segments, Corrected, CommonPrefix, CommonSuffix, Trimmed;
    OneText(left);
    OneText(right);
    var l, r := Segments(left), Segments(right);
    var e := Start(l, r);
    assert RaceOf(left, right) == e && Tail(e, l, r) == e;
    assert Concat([l[0]]) == left + "" == left && Concat([r[0]]) == right + "" == right;
    assert l[0..1] == [l[0]] && r[0..1] == [r[0]];
    assert LeftRest(e, l, r) == left && RightRest(e, l, r) == right;
    if left <= right {
      AllTrimmed(left, right);
    }
  }

  lemma OneText(s: string)
    requires NoOpeners(s) && s != ""
    ensures Segments(s) == [Segment(Text, s)]
  {
    hide Segments;
    NoSegments();
    FirstOpenerIs(s, |s|);
    TextSegment(s, |s|);
    assert s[..|s|] == s && s[|s|..] == "" && [Segment(Text, s)] + [] == [Segment(Text, s)];
  }

  lemma AllTrimmed(left: string, right: string)
    requires left <= right
    ensures Trimmed("", "", left, right, true, true).left == ""
  {
    hide CommonPrefix, CommonSuffix, LongestPrefix;
    var n := CommonSuffix(left, right);
    var x, y := left[..|left| - n], right[..|right| - n];
    assert x <= y;
    CommonPrefixLongest(x, y);
    LongestWhole(x[..CommonPrefix(x, y)], x, y);
  }

  lemma LongestWhole(w: string, a: string, b: string)
    requires LongestPrefix(w, a, b) && a <= b
    ensures w == a
  {
    assert a <= a;
  }

  // ---------- the borders of what is left ----------

  /** Both sides as the segments shared in front, those left, and the segments shared behind. */
  datatype Cut = Cut(front: seq<Segment>, left: seq<Segment>, right: seq<Segment>, back: seq<Segment>)

  ghost predicate CutsApart(c: Cut, l: seq<Segment>, r: seq<Segment>) {
    && l == c.front + c.left + c.back && r == c.front + c.right + c.back
    && c.left != [] && c.right != []
    && c.left[0] != c.right[0] && c.left[|c.left| - 1] != c.right[|c.right| - 1]
  }

  /** What the race keeps as long as no side is consumed: the same segments are taken on both sides. */
  ghost predicate Sharing(e: Race, l: seq<Segment>, r: seq<Segment>)
    requires InRange(e, l, r)
  {
    !e.leftDone && !e.rightDone ==>
      && e.ls == e.rs && l[..e.ls] == r[..e.rs] && e.prefix == Concat(l[..e.ls])
      && l[e.le + 1..] == r[e.re + 1..] && e.suffix == Concat(l[e.le + 1..])
  }

  lemma StartShares(e: Race, l: seq<Segment>, r: seq<Segment>)
    requires InRange(e, l, r) && Running(e) && Sharing(e, l, r)
    ensures Sharing(EatStart(e, l, r), l, r)
  {
    if l[e.ls] == r[e.rs] && !e.leftDone && !e.rightDone {
      var x := l[e.ls];
      assert l[..e.ls + 1] == l[..e.ls] + [x] && r[..e.rs + 1] == r[..e.rs] + [x];
      ConcatAppend(l[..e.ls], [x]);
      assert Concat([x]) == x.value + "" == x.value;
    }
  }

  lemma EndShares(e: Race, l: seq<Segment>, r: seq<Segment>)
    requires InRange(e, l, r) && Sharing(e, l, r)
    ensures Sharing(EatEnd(e, l, r), l, r)
  {
    if l[e.le] == r[e.re] && e.ls != e.le && e.rs != e.re && !e.leftDone && !e.rightDone {
      var x := l[e.le];
      assert l[e.le..] == [x] + l[e.le + 1..] && r[e.re..] == [x] + r[e.re + 1..];
      assert ([x] + l[e.le + 1..])[1..] == l[e.le + 1..];
    }
  }

  /** At the end of the race a side is down to one segment, or both borders differ. */
  lemma {:induction false} RaceShares(e: Race, l: seq<Segment>, r: seq<Segment>)
    requires InRange(e, l, r) && Sharing(e, l, r)
    ensures var e' := Raced(e, l, r);
      Sharing(e', l, r) && (Running(e') ==> l[e'.ls] != r[e'.rs] && l[e'.le] != r[e'.re])
    decreases e.le - e.ls
  {
    hide Sharing;
    if Running(e) {
      RacedRound(e, l, r);
      StartShares(e, l, r);
      EndShares(EatStart(e, l, r), l, r);
      if EatEnd(EatStart(e, l, r), l, r) != e {
        RaceShares(EatEnd(EatStart(e, l, r), l, r), l, r);
      } else {
        NoneEaten(e, l, r);
      }
    }
  }

  lemma NoneEaten(e: Race, l: seq<Segment>, r: seq<Segment>)
    requires InRange(e, l, r) && Running(e) && EatEnd(EatStart(e, l, r), l, r) == e
    ensures l[e.ls] != r[e.rs] && l[e.le] != r[e.re]
  {
  }

  lemma SharedAtStart(l: seq<Segment>, r: seq<Segment>)
    requires l != [] && r != []
    ensures Sharing(Start(l, r), l, r)
  {
    assert l[|l|..] == [] == r[|r|..] && l[..0] == [] == r[..0];
  }

  /** If the race and the case analysis leave something on both sides, nothing was consumed and the borders differ. */
  lemma BordersDiffer(left: string, right: string)
    requires left != "" && right != ""
    ensures var l, r, e := Segments(left), Segments(right), RaceOf(left, right);
      LeftRest(Tail(e, l, r), l, r) != "" && RightRest(Tail(e, l, r), l, r) != "" ==>
        && !e.leftDone && !e.rightDone && Tail(e, l, r) == e && Sharing(e, l, r)
        && (l[e.ls] != r[e.rs] || (e.ls == e.le && e.rs == e.re && l[e.ls].kind.Text?))
        && (l[e.le] != r[e.re] || (e.ls == e.le && e.rs == e.re && l[e.ls].kind.Text?))
  {
    hide Segments, Raced, Sharing;
    var l, r, e := Segments(left), Segments(right), RaceOf(left, right);
    SharedAtStart(l, r);
    RaceShares(Start(l, r), l, r);
    ConsumedLeaves(e, l, r);
  }

  lemma ConsumedLeaves(e: Race, l: seq<Segment>, r: seq<Segment>)
    requires InRange(e, l, r)
    ensures var e' := Tail(e, l, r);
      && (e'.leftDone ==> LeftRest(e', l, r) == "") && (e'.rightDone ==> RightRest(e', l, r) == "")
      && (e.leftDone ==> e'.leftDone) && (e.rightDone ==> e'.rightDone)
      && (e' == e || e'.leftDone || e'.rightDone)
  {
    var e' := Tail(e, l, r);
    if e'.leftDone {
      assert l[e'.ls..e'.le] == [];
    }
    if e'.rightDone {
      assert r[e'.rs..e'.re] == [];
    }
  }

  /** At a border where both sides have text not even a character is shared; at one where a side has a marker nothing
      is shared but segments.
   */
  ghost predicate Bordered(c: Cut, d: DiffSplit) {
    && c.left != [] && c.right != [] && d.left != "" && d.right != ""
    && (c.left[0].kind.Text? && c.right[0].kind.Text? ==> d.left[0] != d.right[0])
    && (c.left[|c.left| - 1].kind.Text? && c.right[|c.right| - 1].kind.Text? ==> FromEnd(d.left, 0) != FromEnd(d.right, 0))
    && Concat(c.front) <= d.prefix && IsSuffix(Concat(c.back), d.suffix)
    && (c.left[0].kind.Marker? || c.right[0].kind.Marker? ==> d.prefix == Concat(c.front))
    && (c.left[|c.left| - 1].kind.Marker? || c.right[|c.right| - 1].kind.Marker? ==> d.suffix == Concat(c.back))
  }

  /** Where the split leaves something on both sides, the segments left have neither the first nor the last in
      common, and at the borders nothing else either.
   */
  lemma SplitBorders(left: string, right: string) returns (c: Cut)
    requires Split(left, right).left != "" && Split(left, right).right != ""
    ensures CutsApart(c, Segments(left), Segments(right)) && Bordered(c, Split(left, right))
    ensures Reconstructs(Split(left, right), left, right)
  {
    hide Segments, Tail, TextTrim, RaceOf, Sharing, Split, Sound, Reconstructs, CutsApart, Bordered;
    NotConsumed(left, right);
    var l, r, e := Segments(left), Segments(right), RaceOf(left, right);
    c := CutAt(e, l, r);
    CutIs(e, l, r);
    RaceIsSound(left, right);
    CutBordered(e, l, r);
  }

  lemma CutBordered(e: Race, l: seq<Segment>, r: seq<Segment>)
    requires Sound(e, l, r) && TextTrim(e, l, r).left != "" && TextTrim(e, l, r).right != ""
    requires Sharing(e, l, r) && !e.leftDone && !e.rightDone && l[e.ls] != r[e.rs] && l[e.le] != r[e.re]
    ensures Reconstructs(TextTrim(e, l, r), Concat(l), Concat(r)) && Bordered(CutAt(e, l, r), TextTrim(e, l, r))
  {
    hide TextTrim, Sharing, CutsApart, CutAt, Reconstructs;
    CutIs(e, l, r);
    TrimBorders(e, l, r);
  }

  function CutAt(e: Race, l: seq<Segment>, r: seq<Segment>): Cut
    requires InRange(e, l, r)
  {
    Cut(l[..e.ls], l[e.ls..e.le + 1], r[e.rs..e.re + 1], l[e.le + 1..])
  }

  lemma CutIs(e: Race, l: seq<Segment>, r: seq<Segment>)
    requires InRange(e, l, r) && Sharing(e, l, r) && !e.leftDone && !e.rightDone && l[e.ls] != r[e.rs] && l[e.le] != r[e.re]
    ensures var c := CutAt(e, l, r);
      && CutsApart(c, l, r) && Concat(c.front) == e.prefix && Concat(c.back) == e.suffix
      && c.left[0] == l[e.ls] && c.right[0] == r[e.rs] && c.left[|c.left| - 1] == l[e.le] && c.right[|c.right| - 1] == r[e.re]
  {
    var c := CutAt(e, l, r);
    assert l == c.front + c.left + c.back;
    assert r == r[..e.rs] + c.right + r[e.re + 1..];
  }

  /** The corrections change nothing where something is left on both sides. */
  lemma NotCorrected(left: string, right: string)
    requires Split(left, right).left != "" && Split(left, right).right != ""
    ensures left != "" && right != ""
    ensures var l, r, e := Segments(left), Segments(right), RaceOf(left, right);
      Split(left, right) == TextTrim(Tail(e, l, r), l, r)
  {
    hide Segments, RaceOf, Tail, TextTrim;
  }

  lemma NotConsumed(left: string, right: string)
    requires Split(left, right).left != "" && Split(left, right).right != ""
    ensures left != "" && right != ""
    ensures var l, r, e := Segments(left), Segments(right), RaceOf(left, right);
      && !e.leftDone && !e.rightDone && Sharing(e, l, r) && l[e.ls] != r[e.rs] && l[e.le] != r[e.re]
      && Split(left, right) == TextTrim(e, l, r)
  {
    hide Segments, RaceOf, Tail, Split, Sharing, Trimmed, LeftRest, RightRest;
    NotCorrected(left, right);
    var l, r, e := Segments(left), Segments(right), RaceOf(left, right);
    var t := Tail(e, l, r);
    var a, b := LeftRest(t, l, r), RightRest(t, l, r);
    TrimmedKeeps(t.prefix, t.suffix, a, b, r[t.rs].kind.Text? && l[t.ls].kind.Text?, l[t.le].kind.Text? && r[t.re].kind.Text?);
    BordersDiffer(left, right);
    if e.ls == e.le && e.rs == e.re && l[e.ls] == r[e.rs] {
      SameTextTrimmed(e, l, r);
    }
  }

  lemma SameTextTrimmed(e: Race, l: seq<Segment>, r: seq<Segment>)
    requires InRange(e, l, r) && e.ls == e.le && e.rs == e.re && l[e.ls] == r[e.rs] && l[e.ls].kind.Text?
    requires !e.leftDone && !e.rightDone
    ensures TextTrim(e, l, r).left == ""
  {
    hide CommonPrefix, CommonSuffix, LongestSuffix;
    assert l[e.ls..e.ls + 1] == [l[e.ls]] && r[e.rs..e.rs + 1] == [r[e.rs]];
    var a := LeftRest(e, l, r);
    assert a == RightRest(e, l, r);
    CommonSuffixLongest(a, a);
    WholeSuffix(a);
  }

  lemma WholeSuffix(a: string)
    requires LongestSuffix(a[|a| - CommonSuffix(a, a)..], a, a)
    ensures CommonSuffix(a, a) == |a|
  {
    hide CommonSuffix;
    assert a[|a| - |a|..] == a && IsSuffix(a, a);
  }

  lemma TrimBorders(e: Race, l: seq<Segment>, r: seq<Segment>)
    requires Sound(e, l, r) && TextTrim(e, l, r).left != "" && TextTrim(e, l, r).right != ""
    ensures var d := TextTrim(e, l, r);
      && Reconstructs(d, Concat(l), Concat(r))
      && (l[e.ls].kind.Text? && r[e.rs].kind.Text? ==> d.left[0] != d.right[0])
      && (l[e.le].kind.Text? && r[e.re].kind.Text? ==> FromEnd(d.left, 0) != FromEnd(d.right, 0))
      && e.prefix <= d.prefix && IsSuffix(e.suffix, d.suffix)
      && (l[e.ls].kind.Marker? || r[e.rs].kind.Marker? ==> d.prefix == e.prefix)
      && (l[e.le].kind.Marker? || r[e.re].kind.Marker? ==> d.suffix == e.suffix)
  {
    hide LeftRest, RightRest, Trimmed, FromEnd;
    var a, b := LeftRest(e, l, r), RightRest(e, l, r);
    var atStart, atEnd := r[e.rs].kind.Text? && l[e.ls].kind.Text?, l[e.le].kind.Text? && r[e.re].kind.Text?;
    TrimmedKeeps(e.prefix, e.suffix, a, b, atStart, atEnd);
    TrimmedBorders(e.prefix, e.suffix, a, b, atStart, atEnd);
  }

  lemma TrimmedBorders(prefix: string, suffix: string, a: string, b: string, atStart: bool, atEnd: bool)
    requires Trimmed(prefix, suffix, a, b, atStart, atEnd).left != "" && Trimmed(prefix, suffix, a, b, atStart, atEnd).right != ""
    ensures var d := Trimmed(prefix, suffix, a, b, atStart, atEnd);
      && (atStart ==> d.left[0] != d.right[0])
      && (atEnd ==> FromEnd(d.left, 0) != FromEnd(d.right, 0))
      && prefix <= d.prefix && IsSuffix(suffix, d.suffix)
      && (!atStart ==> d.prefix == prefix) && (!atEnd ==> d.suffix == suffix)
  {
    hide Trimmed;
    TrimmedStart(prefix, suffix, a, b, atStart, atEnd);
    TrimmedEnd(prefix, suffix, a, b, atStart, atEnd);
  }

  lemma TrimmedStart(prefix: string, suffix: string, a: string, b: string, atStart: bool, atEnd: bool)
    ensures var d := Trimmed(prefix, suffix, a, b, atStart, atEnd);
      && (atStart && d.left != "" && d.right != "" ==> d.left[0] != d.right[0])
      && prefix <= d.prefix && (!atStart ==> d.prefix == prefix)
  {
    hide CommonPrefix, CommonSuffix;
    assert prefix + a[..0] == prefix;
  }

  lemma TrimmedEnd(prefix: string, suffix: string, a: string, b: string, atStart: bool, atEnd: bool)
    ensures var d := Trimmed(prefix, suffix, a, b, atStart, atEnd);
      && (atEnd && d.left != "" && d.right != "" ==> FromEnd(d.left, 0) != FromEnd(d.right, 0))
      && IsSuffix(suffix, d.suffix) && (!atEnd ==> d.suffix == suffix)
  {
    hide CommonPrefix, CommonSuffix;
    var s := if atEnd then CommonSuffix(a, b) else 0;
    var p := if atStart then CommonPrefix(a[..|a| - s], b[..|b| - s]) else 0;
    if atEnd && p + s < |a| && p + s < |b| {
      CommonSuffixStops(a, b);
      LastOfRest(a, p, s);
      LastOfRest(b, p, s);
    }
    SuffixOf(a[|a| - s..], suffix);
    assert a[|a|..] + suffix == suffix;
  }

  lemma LastOfRest(s: string, from: nat, behind: nat)
    requires behind + from < |s|
    ensures FromEnd(s[from..|s| - behind], 0) == FromEnd(s, behind)
  {
  }

  lemma SuffixOf(a: string, b: string)
    ensures IsSuffix(b, a + b)
  {
  }

  /** A text is its own prefix, and one that the other continues is shared whole and in front. */
  lemma ContinuedSplit(left: string, right: string)
    requires left <= right && Split(left, right).left == "" && !Loses(left, right)
    ensures Split(left, right) == DiffSplit(left, "", "", right[|left|..])
  {
    hide Segments, RaceOf, Tail, TextTrim, Loses;
    SplitReconstructs(left, right);
    if left != "" {
      var l, r, e := Segments(left), Segments(right), RaceOf(left, right);
      Unchanged(TextTrim(Tail(e, l, r), l, r), left, right);
    }
  }

  lemma Unchanged(d: DiffSplit, left: string, right: string)
    requires left <= right && Reconstructs(Corrected(d, left, right), left, right) && Corrected(d, left, right).left == ""
    ensures Corrected(d, left, right) == DiffSplit(left, "", "", right[|left|..])
  {
  }

  predicate Even(e: Race) {
    e.ls == e.rs && e.le == e.re && e.leftDone == e.rightDone
  }

  lemma {:induction false} EvenRace(e: Race, l: seq<Segment>)
    requires InRange(e, l, l) && Even(e)
    ensures Even(Raced(e, l, l))
    decreases e.le - e.ls
  {
    if Running(e) && EatEnd(EatStart(e, l, l), l, l) != e {
      EvenRace(EatEnd(EatStart(e, l, l), l, l), l);
    }
  }

  /** Without a difference all is prefix. */
  lemma EqualSplit(s: string)
    ensures Split(s, s) == DiffSplit(s, "", "", "")
  {
    hide Segments, Raced, Split, Tail, Reconstructs;
    if s == "" {
      EmptySplit(s, s);
    } else {
      EvenRace(Start(Segments(s), Segments(s)), Segments(s));
      SplitReconstructs(s, s);
      SameLeft(s);
      ContinuedSplit(s, s);
      assert s[|s|..] == "";
    }
  }

  lemma SameLeft(s: string)
    requires Reconstructs(Split(s, s), s, s)
    ensures Split(s, s).left == ""
  {
    hide Segments, Split;
    var d := Split(s, s);
    assert |d.left| == |d.right|;
    if d.left != "" {
      var c := SplitBorders(s, s);
      SameMiddle(c, Segments(s));
    }
  }

  lemma SameMiddle(c: Cut, l: seq<Segment>)
    ensures !CutsApart(c, l, l)
  {
    if l == c.front + c.left + c.back == c.front + c.right + c.back && c.left != [] && c.right != [] {
      assert |c.left| == |c.right|;
      assert l[|c.front|] == c.left[0] && l[|c.front|] == c.right[0];
    }
  }

  // ---------- the extractors ----------

  /** What stands before the first place where the longest common beginning occurs; nothing if there is no common
      beginning or it does not occur.
   */
  lemma UntilIs(full: string, left: string, right: string, w: string)
    requires LongestPrefix(w, left, right)
    ensures var r := UntilCommonPrefix(full, left, right);
      if w == "" || !Occurs(full, w) then r == ""
      else r <= full && OccursAt(full, w, |r|) && forall k: nat :: k < |r| ==> !OccursAt(full, w, k)
  {
    hide CommonPrefix, Find, LongestPrefix;
    var n := CommonPrefix(left, right);
    CommonPrefixLongest(left, right);
    LongestOnly(w, left[..n], left, right);
    forall k: nat ensures OccursAt(full, w, k) ==> Find(full, w).Some? && Find(full, w).value <= k {
      FindFirst(full, w, k);
    }
    FindFirst(full, w, 0);
    assert w == left[..n];
  }

  ghost predicate Occurs(s: string, pattern: string) {
    exists k: nat :: OccursAt(s, pattern, k)
  }

  lemma LongestOnly(w: string, v: string, a: string, b: string)
    requires LongestPrefix(w, a, b) && LongestPrefix(v, a, b)
    ensures w == v
  {
  }
}

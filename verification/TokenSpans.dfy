/** Splitting a token stream into message spans at role delimiters, outside of skipped regions. */
module TokenSpans {
  import opened Wrappers

  type Token = int

  datatype Role = Unknown | System | Assistant | User | ToolRole

  datatype Delimiter = Delimiter(role: Role, tokens: seq<Token>)

  /** A region of `len` tokens from `pos` on. */
  datatype Region = Region(pos: nat, len: nat)

  datatype Mark = Mark(role: Role, pos: nat)

  datatype Span = Span(role: Role, pos: nat, len: int)

  // ---------- the algorithm ----------

  predicate MatchesAt(d: Delimiter, tokens: seq<Token>, i: nat) {
    i + |d.tokens| <= |tokens| && d.tokens == tokens[i..i + |d.tokens|]
  }

  /** The role of the first listed delimiter that matches at a position. */
  function RoleAt(ds: seq<Delimiter>, tokens: seq<Token>, i: nat): Option<Role> {
    if ds == [] then None
    else if MatchesAt(ds[0], tokens, i) then Some(ds[0].role)
    else RoleAt(ds[1..], tokens, i)
  }

  /** The marks from position `i` on, with the regions not yet passed. */
  function Marks(tokens: seq<Token>, ds: seq<Delimiter>, skips: seq<Region>, i: nat): seq<Mark>
    decreases |skips|, |tokens| - i
  {
    if i >= |tokens| then []
    else if skips != [] && i == skips[0].pos then Marks(tokens, ds, skips[1..], i + skips[0].len)
    else
      var role := RoleAt(ds, tokens, i);
      (if role.Some? then [Mark(role.value, i)] else []) + Marks(tokens, ds, skips, i + 1)
  }

  /** Each mark with the distance to the next, the last with the distance to the end. */
  function Spans(marks: seq<Mark>, end: nat): (r: seq<Span>)
    ensures |r| == |marks|
  {
    seq(|marks|, k requires 0 <= k < |marks| =>
      Span(marks[k].role, marks[k].pos, (if k + 1 < |marks| then marks[k + 1].pos else end) - marks[k].pos))
  }

  lemma MarksStep(done: seq<Mark>, tokens: seq<Token>, ds: seq<Delimiter>, skips: seq<Region>, i: nat)
    ensures i >= |tokens| ==> Marks(tokens, ds, skips, i) == []
    ensures i < |tokens| && skips != [] && i == skips[0].pos ==>
              Marks(tokens, ds, skips, i) == Marks(tokens, ds, skips[1..], i + skips[0].len)
    ensures i < |tokens| && !(skips != [] && i == skips[0].pos) ==>
              done + Marks(tokens, ds, skips, i) ==
              (if RoleAt(ds, tokens, i).Some? then done + [Mark(RoleAt(ds, tokens, i).value, i)] else done)
              + Marks(tokens, ds, skips, i + 1)
  {
    hide RoleAt;
    if i < |tokens| && !(skips != [] && i == skips[0].pos) {
      var role, rest := RoleAt(ds, tokens, i), Marks(tokens, ds, skips, i + 1);
      if role.Some? {
        assert done + ([Mark(role.value, i)] + rest) == done + [Mark(role.value, i)] + rest;
      } else {
        assert [] + rest == rest;
      }
    }
  }

  /** The loop over the tokens. The skipped regions come in order of their positions. */
  method Split(tokens: seq<Token>, ds: seq<Delimiter>, skips: seq<Region>) returns (spans: seq<Span>)
    ensures spans == Spans(Marks(tokens, ds, skips, 0), |tokens|)
  {
    hide Marks, RoleAt, Spans;
    var matches: seq<Mark> := [];
    var skip: nat, i: nat := 0, 0;
    assert skips[0..] == skips;
    while i < |tokens|
      invariant skip <= |skips|
      invariant matches + Marks(tokens, ds, skips[skip..], i) == Marks(tokens, ds, skips, 0)
      decreases |skips| - skip, |tokens| - i
    {
      MarksStep(matches, tokens, ds, skips[skip..], i);
      if skip != |skips| && i == skips[skip].pos {
        assert skips[skip..][1..] == skips[skip + 1..];
        i := i + skips[skip].len;
        skip := skip + 1;
        continue;
      }
      var role := FindRole(ds, tokens, i);
      if role.Some? {
        matches := matches + [Mark(role.value, i)];
      }
      i := i + 1;
    }
    MarksStep(matches, tokens, ds, skips[skip..], i);
    assert matches + [] == matches;
    spans := SpansBetween(matches + [Mark(Unknown, |tokens|)], matches, |tokens|);
  }

  /** The loop over neighbouring marks, the last of which stands at the end. */
  method SpansBetween(matches: seq<Mark>, ghost marks: seq<Mark>, end: nat) returns (spans: seq<Span>)
    requires matches == marks + [Mark(Unknown, end)]
    ensures spans == Spans(marks, end)
  {
    spans := [];
    var k: nat := 0;
    while k + 1 < |matches|
      invariant k <= |marks| && spans == Spans(marks, end)[..k]
    {
      var curr, next := matches[k], matches[k + 1];
      spans := spans + [Span(curr.role, curr.pos, next.pos - curr.pos)];
      k := k + 1;
    }
  }

  /** The inner loop over the delimiters. */
  method FindRole(ds: seq<Delimiter>, tokens: seq<Token>, i: nat) returns (role: Option<Role>)
    requires i < |tokens|
    ensures role == RoleAt(ds, tokens, i)
  {
    var k: nat := 0;
    assert ds[0..] == ds;
    while k < |ds|
      invariant k <= |ds| && RoleAt(ds, tokens, i) == RoleAt(ds[k..], tokens, i)
    {
      var d := ds[k];
      assert ds[k..][1..] == ds[k + 1..];
      if i + |d.tokens| <= |tokens| && d.tokens == tokens[i..i + |d.tokens|] {
        return Some(d.role);
      }
      k := k + 1;
    }
    role := None;
  }

  // ---------- what the spans are ----------

  /** The regions lie one after the other from `from` on; they may touch and may be empty. */
  ghost predicate InOrder(skips: seq<Region>, from: nat)
    decreases skips
  {
    skips != [] ==> from <= skips[0].pos && InOrder(skips[1..], skips[0].pos + skips[0].len)
  }

  predicate Skipped(skips: seq<Region>, p: nat) {
    exists k :: 0 <= k < |skips| && skips[k].pos <= p < skips[k].pos + skips[k].len
  }

  /** A delimiter begins here, outside of every region. */
  predicate Begins(tokens: seq<Token>, ds: seq<Delimiter>, skips: seq<Region>, p: nat) {
    p < |tokens| && !Skipped(skips, p) && exists k :: 0 <= k < |ds| && MatchesAt(ds[k], tokens, p)
  }

  /** The role is that of a matching delimiter with no matching one listed before it. */
  predicate FirstListed(ds: seq<Delimiter>, tokens: seq<Token>, p: nat, role: Role) {
    exists k :: 0 <= k < |ds| && ds[k].role == role && MatchesAt(ds[k], tokens, p)
      && forall j :: 0 <= j < k ==> !MatchesAt(ds[j], tokens, p)
  }

  lemma {:induction false} RoleAtExact(ds: seq<Delimiter>, tokens: seq<Token>, p: nat)
    ensures RoleAt(ds, tokens, p).Some? <==> exists k :: 0 <= k < |ds| && MatchesAt(ds[k], tokens, p)
    ensures RoleAt(ds, tokens, p).Some? ==> FirstListed(ds, tokens, p, RoleAt(ds, tokens, p).value)
    decreases ds
  {
    if ds != [] {
      RoleAtExact(ds[1..], tokens, p);
      if MatchesAt(ds[0], tokens, p) {
      } else if RoleAt(ds[1..], tokens, p).Some? {
        var t := ds[1..];
        var role := RoleAt(ds, tokens, p).value;
        var k :| 0 <= k < |t| && t[k].role == role && MatchesAt(t[k], tokens, p)
          && forall j :: 0 <= j < k ==> !MatchesAt(t[j], tokens, p);
        assert ds[k + 1] == t[k];
        forall j | 0 <= j < k + 1 ensures !MatchesAt(ds[j], tokens, p) {
          assert j > 0 ==> ds[j] == t[j - 1];
        }
      } else {
        forall k | 0 <= k < |ds| ensures !MatchesAt(ds[k], tokens, p) {
          assert k > 0 ==> ds[k] == ds[1..][k - 1];
        }
      }
    }
  }

  lemma SkippedStep(skips: seq<Region>, p: nat)
    requires skips != []
    ensures Skipped(skips, p) <==> skips[0].pos <= p < skips[0].pos + skips[0].len || Skipped(skips[1..], p)
  {
    if Skipped(skips[1..], p) {
      var k :| 0 <= k < |skips[1..]| && skips[1..][k].pos <= p < skips[1..][k].pos + skips[1..][k].len;
      assert skips[k + 1] == skips[1..][k];
    }
    if Skipped(skips, p) {
      var k :| 0 <= k < |skips| && skips[k].pos <= p < skips[k].pos + skips[k].len;
      assert k > 0 ==> skips[1..][k - 1] == skips[k];
    }
  }

  lemma {:induction false} NotSkippedBefore(skips: seq<Region>, from: nat, p: nat)
    requires InOrder(skips, from) && p < from
    ensures !Skipped(skips, p)
    decreases skips
  {
    if skips != [] {
      SkippedStep(skips, p);
      NotSkippedBefore(skips[1..], skips[0].pos + skips[0].len, p);
    }
  }

  predicate Ascending(marks: seq<Mark>) {
    forall a, b :: 0 <= a < b < |marks| ==> marks[a].pos < marks[b].pos
  }

  /** From `i` on there is a mark at each beginning and at no other position, in order. */
  ghost predicate MarksAll(tokens: seq<Token>, ds: seq<Delimiter>, skips: seq<Region>, i: nat, marks: seq<Mark>) {
    && Ascending(marks)
    && (forall a :: 0 <= a < |marks| ==>
          i <= marks[a].pos && Begins(tokens, ds, skips, marks[a].pos) && FirstListed(ds, tokens, marks[a].pos, marks[a].role))
    && (forall p: nat :: i <= p && Begins(tokens, ds, skips, p) ==> exists a :: 0 <= a < |marks| && marks[a].pos == p)
  }

  lemma {:induction false} MarksExact(tokens: seq<Token>, ds: seq<Delimiter>, skips: seq<Region>, i: nat)
    requires InOrder(skips, i)
    ensures MarksAll(tokens, ds, skips, i, Marks(tokens, ds, skips, i))
    decreases |skips|, |tokens| - i
  {
    hide MatchesAt, RoleAt, FirstListed, Skipped;
    if i >= |tokens| {
    } else if skips != [] && i == skips[0].pos {
      MarksExact(tokens, ds, skips[1..], i + skips[0].len);
      PassRegion(tokens, ds, skips, Marks(tokens, ds, skips, i));
    } else {
      assert InOrder(skips, i + 1);
      MarksExact(tokens, ds, skips, i + 1);
      RoleAtExact(ds, tokens, i);
      NotSkippedBefore(skips, i + 1, i);
      var role := RoleAt(ds, tokens, i);
      var rest := Marks(tokens, ds, skips, i + 1);
      PassToken(tokens, ds, skips, i, rest, role);
    }
  }

  lemma PassRegion(tokens: seq<Token>, ds: seq<Delimiter>, skips: seq<Region>, marks: seq<Mark>)
    requires skips != [] && InOrder(skips, skips[0].pos)
    requires MarksAll(tokens, ds, skips[1..], skips[0].pos + skips[0].len, marks)
    ensures MarksAll(tokens, ds, skips, skips[0].pos, marks)
  {
    hide MatchesAt, FirstListed, Skipped;
    forall p: nat ensures Skipped(skips, p) <==> skips[0].pos <= p < skips[0].pos + skips[0].len || Skipped(skips[1..], p) {
      SkippedStep(skips, p);
    }
    var from, past := skips[0].pos, skips[0].pos + skips[0].len;
    forall a | 0 <= a < |marks| ensures from <= marks[a].pos && Begins(tokens, ds, skips, marks[a].pos) {
      assert Begins(tokens, ds, skips[1..], marks[a].pos);
    }
    forall p: nat | from <= p && Begins(tokens, ds, skips, p) ensures exists a :: 0 <= a < |marks| && marks[a].pos == p {
      assert past <= p && Begins(tokens, ds, skips[1..], p);
    }
  }

  lemma PassToken(tokens: seq<Token>, ds: seq<Delimiter>, skips: seq<Region>, i: nat, rest: seq<Mark>, role: Option<Role>)
    requires MarksAll(tokens, ds, skips, i + 1, rest)
    requires role.Some? <==> Begins(tokens, ds, skips, i)
    requires role.Some? ==> FirstListed(ds, tokens, i, role.value)
    ensures MarksAll(tokens, ds, skips, i, (if role.Some? then [Mark(role.value, i)] else []) + rest)
  {
    hide Begins, FirstListed;
    var marks := (if role.Some? then [Mark(role.value, i)] else []) + rest;
    var n := |marks| - |rest|;
    assert forall a :: 0 <= a < |rest| ==> marks[a + n] == rest[a];
    assert forall a :: n <= a < |marks| ==> marks[a] == rest[a - n];
    forall p: nat | i <= p && Begins(tokens, ds, skips, p) ensures exists a :: 0 <= a < |marks| && marks[a].pos == p {
      if p == i {
        assert marks[0].pos == i;
      } else {
        var a :| 0 <= a < |rest| && rest[a].pos == p;
        assert marks[a + n].pos == p;
      }
    }
  }

  /** The span is not empty and ends where the next begins, the last at the end. */
  predicate Reaches(spans: seq<Span>, end: nat, a: nat)
    requires a < |spans|
  {
    spans[a].len > 0 && spans[a].pos + spans[a].len == if a + 1 < |spans| then spans[a + 1].pos else end
  }

  predicate Abutting(spans: seq<Span>, end: nat) {
    forall a :: 0 <= a < |spans| ==> Reaches(spans, end, a)
  }

  lemma SpansAbut(marks: seq<Mark>, end: nat)
    requires Ascending(marks) && forall a :: 0 <= a < |marks| ==> marks[a].pos < end
    ensures Abutting(Spans(marks, end), end)
  {
    hide Reaches;
    var spans := Spans(marks, end);
    forall a | 0 <= a < |spans| ensures Reaches(spans, end, a) {
      SpanReaches(marks, end, a);
    }
  }

  lemma SpanReaches(marks: seq<Mark>, end: nat, a: nat)
    requires a < |marks| && marks[a].pos < (if a + 1 < |marks| then marks[a + 1].pos else end)
    ensures Reaches(Spans(marks, end), end, a)
  {
  }

  /** There is a span at each beginning, with the role of the first listed match, and at no other position. */
  ghost predicate AtBeginnings(tokens: seq<Token>, ds: seq<Delimiter>, skips: seq<Region>, spans: seq<Span>) {
    && (forall a :: 0 <= a < |spans| ==>
          Begins(tokens, ds, skips, spans[a].pos) && FirstListed(ds, tokens, spans[a].pos, spans[a].role))
    && (forall p: nat :: Begins(tokens, ds, skips, p) ==> exists a :: 0 <= a < |spans| && spans[a].pos == p)
  }

  lemma SpansBegin(tokens: seq<Token>, ds: seq<Delimiter>, skips: seq<Region>, marks: seq<Mark>, end: nat)
    requires MarksAll(tokens, ds, skips, 0, marks)
    ensures AtBeginnings(tokens, ds, skips, Spans(marks, end))
  {
    hide FirstListed, Begins;
    var spans := Spans(marks, end);
    forall p: nat | Begins(tokens, ds, skips, p) ensures exists a :: 0 <= a < |spans| && spans[a].pos == p {
      var a :| 0 <= a < |marks| && marks[a].pos == p;
      assert spans[a].pos == p;
    }
  }

  lemma MarksInside(tokens: seq<Token>, ds: seq<Delimiter>, skips: seq<Region>, marks: seq<Mark>)
    requires MarksAll(tokens, ds, skips, 0, marks)
    ensures Ascending(marks) && forall a :: 0 <= a < |marks| ==> marks[a].pos < |tokens|
  {
    hide FirstListed, MatchesAt, Skipped;
  }

  /** One span for each beginning outside of the regions, with the role of the first listed match; the spans
      abut, are not empty, and reach from the first beginning to the end of the stream.
   */
  lemma SpansExact(tokens: seq<Token>, ds: seq<Delimiter>, skips: seq<Region>)
    requires InOrder(skips, 0)
    ensures var spans := Spans(Marks(tokens, ds, skips, 0), |tokens|);
      AtBeginnings(tokens, ds, skips, spans) && Abutting(spans, |tokens|)
  {
    hide MarksAll, Marks, Spans, AtBeginnings, Abutting;
    MarksExact(tokens, ds, skips, 0);
    var marks := Marks(tokens, ds, skips, 0);
    MarksInside(tokens, ds, skips, marks);
    SpansAbut(marks, |tokens|);
    SpansBegin(tokens, ds, skips, marks, |tokens|);
  }

  // ---------- overlapping regions ----------

  /** A region that begins inside an earlier one is never reached, and no later region is honoured. */
  lemma {:induction false} StuckRegion(tokens: seq<Token>, ds: seq<Delimiter>, skips: seq<Region>, i: nat)
    requires skips != [] && skips[0].pos < i
    ensures Marks(tokens, ds, skips, i) == Marks(tokens, ds, [], i)
    decreases |tokens| - i
  {
    if i < |tokens| {
      StuckRegion(tokens, ds, skips, i + 1);
    }
  }

  /** A delimiter matches where its tokens stand one after the other, and an empty one everywhere. */
  lemma MatchIs(d: Delimiter, tokens: seq<Token>, p: nat)
    ensures MatchesAt(d, tokens, p) <==>
              p + |d.tokens| <= |tokens| && forall k :: 0 <= k < |d.tokens| ==> tokens[p + k] == d.tokens[k]
  {
    if p + |d.tokens| <= |tokens| {
      var s := tokens[p..p + |d.tokens|];
      forall k | 0 <= k < |d.tokens| ensures s[k] == tokens[p + k] {
      }
      assert d.tokens == s <==> forall k :: 0 <= k < |d.tokens| ==> d.tokens[k] == s[k];
    }
  }
}

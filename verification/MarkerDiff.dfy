/** The two-ended diff of two rendered templates: a shared prefix, a shared suffix, and what is left of
    each side in between.
 */
module MarkerDiff {
  import opened Markers

  datatype DiffSplit = DiffSplit(prefix: string, suffix: string, left: string, right: string)

  // ---------- common prefixes and suffixes of text ----------

  function CommonPrefix(a: string, b: string): (n: nat)
    ensures n <= |a| && n <= |b| && a[..n] == b[..n]
    ensures n < |a| && n < |b| ==> a[n] != b[n]
  {
    if a == "" || b == "" || a[0] != b[0] then 0
    else
      var n := CommonPrefix(a[1..], b[1..]);
      assert a[..n + 1] == [a[0]] + a[1..][..n] && b[..n + 1] == [b[0]] + b[1..][..n];
      n + 1
  }

  function CommonSuffix(a: string, b: string): (n: nat)
    ensures n <= |a| && n <= |b|
  {
    if a == "" || b == "" || a[|a| - 1] != b[|b| - 1] then 0
    else 1 + CommonSuffix(a[..|a| - 1], b[..|b| - 1])
  }

  lemma SuffixStep(a: string, b: string, n: nat)
    requires n < |a| && n < |b| && a[|a| - 1] == b[|b| - 1]
    requires a[..|a| - 1][|a| - 1 - n..] == b[..|b| - 1][|b| - 1 - n..]
    ensures a[|a| - 1 - n..] == b[|b| - 1 - n..]
  {
    assert a[|a| - 1 - n..] == a[..|a| - 1][|a| - 1 - n..] + [a[|a| - 1]];
    assert b[|b| - 1 - n..] == b[..|b| - 1][|b| - 1 - n..] + [b[|b| - 1]];
  }

  lemma {:induction false} CommonSuffixShared(a: string, b: string)
    ensures var n := CommonSuffix(a, b); a[|a| - n..] == b[|b| - n..]
    decreases |a|
  {
    if a != "" && b != "" && a[|a| - 1] == b[|b| - 1] {
      CommonSuffixShared(a[..|a| - 1], b[..|b| - 1]);
      SuffixStep(a, b, CommonSuffix(a[..|a| - 1], b[..|b| - 1]));
    }
  }

  method CommonPrefixLen(a: string, b: string) returns (n: nat)
    ensures n == CommonPrefix(a, b)
  {
    n := 0;
    var least := if |a| < |b| then |a| else |b|;
    while n < least && a[n] == b[n]
      invariant n <= least
      invariant n + CommonPrefix(a[n..], b[n..]) == CommonPrefix(a, b)
    {
      assert a[n..][1..] == a[n + 1..] && b[n..][1..] == b[n + 1..];
      n := n + 1;
    }
  }

  method CommonSuffixLen(a: string, b: string) returns (n: nat)
    ensures n == CommonSuffix(a, b)
  {
    hide CommonSuffix;
    n := 0;
    var least := if |a| < |b| then |a| else |b|;
    assert a[..|a|] == a && b[..|b|] == b;
    while n < least && a[|a| - 1 - n] == b[|b| - 1 - n]
      invariant n <= least
      invariant n + CommonSuffix(a[..|a| - n], b[..|b| - n]) == CommonSuffix(a, b)
    {
      CommonSuffixStep(a[..|a| - n], b[..|b| - n]);
      assert a[..|a| - n][..|a| - n - 1] == a[..|a| - (n + 1)];
      assert b[..|b| - n][..|b| - n - 1] == b[..|b| - (n + 1)];
      n := n + 1;
    }
    CommonSuffixEnd(a[..|a| - n], b[..|b| - n]);
  }

  lemma CommonSuffixStep(a: string, b: string)
    requires a != "" && b != "" && a[|a| - 1] == b[|b| - 1]
    ensures CommonSuffix(a, b) == 1 + CommonSuffix(a[..|a| - 1], b[..|b| - 1])
  {
  }

  lemma CommonSuffixEnd(a: string, b: string)
    requires a == "" || b == "" || a[|a| - 1] != b[|b| - 1]
    ensures CommonSuffix(a, b) == 0
  {
  }

  // ---------- the race from both ends ----------

  /** The iterators, inclusive at both ends, the consumed flags, and the shared text so far. */
  datatype Race = Race(ls: nat, le: nat, rs: nat, re: nat, leftDone: bool, rightDone: bool, prefix: string, suffix: string)

  ghost predicate InRange(e: Race, l: seq<Segment>, r: seq<Segment>) {
    && e.ls <= e.le < |l| && e.rs <= e.re < |r|
    && (e.leftDone ==> e.ls == e.le) && (e.rightDone ==> e.rs == e.re)
  }

  predicate Running(e: Race) {
    e.ls != e.le && e.rs != e.re
  }

  /** The start side of one round. */
  function EatStart(e: Race, l: seq<Segment>, r: seq<Segment>): (e': Race)
    requires InRange(e, l, r) && Running(e)
    ensures InRange(e', l, r)
  {
    if l[e.ls] == r[e.rs] then e.(prefix := e.prefix + l[e.ls].value, ls := e.ls + 1, rs := e.rs + 1) else e
  }

  /** The end side of one round; a side with a single segment left is marked as consumed instead. */
  function EatEnd(e: Race, l: seq<Segment>, r: seq<Segment>): (e': Race)
    requires InRange(e, l, r)
    ensures InRange(e', l, r)
  {
    if l[e.le] == r[e.re] then
      e.(suffix := l[e.le].value + e.suffix,
         le := if e.ls != e.le then e.le - 1 else e.le, leftDone := e.leftDone || e.ls == e.le,
         re := if e.rs != e.re then e.re - 1 else e.re, rightDone := e.rightDone || e.rs == e.re)
    else e
  }

  /** The loop: rounds until a side is down to one segment or nothing matches. */
  function Raced(e: Race, l: seq<Segment>, r: seq<Segment>): (e': Race)
    requires InRange(e, l, r)
    ensures InRange(e', l, r)
    decreases e.le - e.ls
  {
    if !Running(e) then e
    else
      var e1 := EatStart(e, l, r);
      var e2 := EatEnd(e1, l, r);
      if e2 == e then e else Raced(e2, l, r)
  }

  /** The case analysis after the loop, for sides that are down to one segment. */
  function Tail(e: Race, l: seq<Segment>, r: seq<Segment>): (e': Race)
    requires InRange(e, l, r)
    ensures InRange(e', l, r)
  {
    if e.ls == e.le && e.rs != e.re then
      if l[e.ls] == r[e.re] then e.(suffix := r[e.re].value + e.suffix, re := e.re - 1, leftDone := true)
      else if l[e.ls] == r[e.rs] then e.(prefix := e.prefix + r[e.rs].value, rs := e.rs + 1, leftDone := true)
      else e
    else if e.rs == e.re && e.ls != e.le then
      if l[e.le] == r[e.rs] then e.(suffix := l[e.le].value + e.suffix, le := e.le - 1, rightDone := true)
      else if l[e.ls] == r[e.rs] then e.(prefix := e.prefix + l[e.ls].value, ls := e.ls + 1, rightDone := true)
      else e
    else if e.ls == e.le && e.rs == e.re && l[e.ls] == r[e.rs] && l[e.ls].kind.Marker? then
      e.(prefix := e.prefix + r[e.rs].value, leftDone := true, rightDone := true)
    else e
  }

  function Rest(segs: seq<Segment>, start: nat, end: nat, done: bool): string
    requires start <= end < |segs|
  {
    Concat(segs[start..if done then end else end + 1])
  }

  /** What the race leaves of the left side, and of the right side. */
  function LeftRest(e: Race, l: seq<Segment>, r: seq<Segment>): string
    requires InRange(e, l, r)
  {
    Rest(l, e.ls, e.le, e.leftDone)
  }

  function RightRest(e: Race, l: seq<Segment>, r: seq<Segment>): string
    requires InRange(e, l, r)
  {
    Rest(r, e.rs, e.re, e.rightDone)
  }

  /** Moves text common to both remainders into the prefix and suffix. */
  function Trimmed(prefix: string, suffix: string, a: string, b: string, atStart: bool, atEnd: bool): DiffSplit {
    var s := if atEnd then CommonSuffix(a, b) else 0;
    var p := if atStart then CommonPrefix(a[..|a| - s], b[..|b| - s]) else 0;
    DiffSplit(prefix + a[..p], a[|a| - s..] + suffix, a[p..|a| - s], b[p..|b| - s])
  }

  function TextTrim(e: Race, l: seq<Segment>, r: seq<Segment>): DiffSplit
    requires InRange(e, l, r)
  {
    Trimmed(e.prefix, e.suffix, LeftRest(e, l, r), RightRest(e, l, r),
            r[e.rs].kind.Text? && l[e.ls].kind.Text?, l[e.le].kind.Text? && r[e.re].kind.Text?)
  }

  /** The two final corrections. */
  function Corrected(d: DiffSplit, left: string, right: string): DiffSplit {
    var d1 := if d.left == "" && d.right == "" then d.(prefix := left, suffix := "") else d;
    if d1.left == "" && d1.right != "" && |left| <= |right| && right[..|left|] == left then
      d1.(prefix := left, suffix := "", right := right[|left|..])
    else d1
  }

  function Start(l: seq<Segment>, r: seq<Segment>): (e: Race)
    requires l != [] && r != []
    ensures InRange(e, l, r)
  {
    Race(0, |l| - 1, 0, |r| - 1, false, false, "", "")
  }

  /** The race on two non-empty texts, up to the end of the loop. */
  function RaceOf(left: string, right: string): (e: Race)
    requires left != "" && right != ""
    ensures InRange(e, Segments(left), Segments(right))
  {
    Raced(Start(Segments(left), Segments(right)), Segments(left), Segments(right))
  }

  function Split(left: string, right: string): DiffSplit {
    if left == "" then DiffSplit("", "", "", right)
    else if right == "" then DiffSplit("", "", left, "")
    else
      var l, r := Segments(left), Segments(right);
      Corrected(TextTrim(Tail(RaceOf(left, right), l, r), l, r), left, right)
  }

  /** The loop over the two pairs of iterators. */
  method RunRace(l: seq<Segment>, r: seq<Segment>) returns (e: Race)
    requires l != [] && r != []
    ensures e == Raced(Start(l, r), l, r)
  {
    hide Raced, EatStart, EatEnd;
    var ls, le, rs, re := 0, |l| - 1, 0, |r| - 1;
    var leftDone, rightDone := false, false;
    var prefix, suffix := "", "";
    while ls != le && rs != re
      invariant ls <= le < |l| && rs <= re < |r| && (leftDone ==> ls == le) && (rightDone ==> rs == re)
      invariant Raced(Race(ls, le, rs, re, leftDone, rightDone, prefix, suffix), l, r) == Raced(Start(l, r), l, r)
      decreases le - ls
    {
      ghost var e0 := Race(ls, le, rs, re, leftDone, rightDone, prefix, suffix);
      RacedRound(e0, l, r);
      var advanced := false;
      if l[ls] == r[rs] {
        prefix := prefix + l[ls].value;
        ls, rs := ls + 1, rs + 1;
        advanced := true;
      }
      ghost var e1 := Race(ls, le, rs, re, leftDone, rightDone, prefix, suffix);
      EatStartIs(e0, e1, l, r);
      if l[le] == r[re] {
        suffix := l[le].value + suffix;
        if ls != le {
          le := le - 1;
        } else {
          leftDone := true;
        }
        if rs != re {
          re := re - 1;
        } else {
          rightDone := true;
        }
        advanced := true;
      }
      EatEndIs(e1, Race(ls, le, rs, re, leftDone, rightDone, prefix, suffix), l, r);
      if !advanced {
        break;
      }
    }
    e := Race(ls, le, rs, re, leftDone, rightDone, prefix, suffix);
    RacedEnd(e, l, r);
  }

  lemma EatStartIs(e: Race, e1: Race, l: seq<Segment>, r: seq<Segment>)
    requires InRange(e, l, r) && Running(e)
    requires e1 == if l[e.ls] == r[e.rs] then e.(prefix := e.prefix + l[e.ls].value, ls := e.ls + 1, rs := e.rs + 1) else e
    ensures e1 == EatStart(e, l, r)
  {
  }

  lemma EatEndIs(e: Race, e1: Race, l: seq<Segment>, r: seq<Segment>)
    requires InRange(e, l, r)
    requires e1 == if l[e.le] == r[e.re] then
                     e.(suffix := l[e.le].value + e.suffix,
                        le := if e.ls != e.le then e.le - 1 else e.le, leftDone := e.leftDone || e.ls == e.le,
                        re := if e.rs != e.re then e.re - 1 else e.re, rightDone := e.rightDone || e.rs == e.re)
                   else e
    ensures e1 == EatEnd(e, l, r)
  {
  }

  method CalculateDiffSplit(left: string, right: string) returns (result: DiffSplit)
    ensures result == Split(left, right)
  {
    hide Segments, Raced, Tail, Corrected, TextTrim;
    var l := SegmentizeMarkers(left);
    var r := SegmentizeMarkers(right);
    EmptySegments(left);
    EmptySegments(right);
    if l == [] {
      return DiffSplit("", "", "", right);
    }
    if r == [] {
      return DiffSplit("", "", left, "");
    }
    var raced := RunRace(l, r);
    var e := Tail(raced, l, r);
    result := TrimText(e, l, r);
    result := Corrected(result, left, right);
  }

  method TrimText(e: Race, l: seq<Segment>, r: seq<Segment>) returns (result: DiffSplit)
    requires InRange(e, l, r)
    ensures result == TextTrim(e, l, r)
  {
    hide LeftRest, RightRest, CommonPrefix, CommonSuffix;
    var a, b := LeftRest(e, l, r), RightRest(e, l, r);
    var suffixLen, prefixLen := 0, 0;
    if l[e.le].kind.Text? && r[e.re].kind.Text? {
      suffixLen := CommonSuffixLen(a, b);
    }
    if r[e.rs].kind.Text? && l[e.ls].kind.Text? {
      prefixLen := CommonPrefixLen(a[..|a| - suffixLen], b[..|b| - suffixLen]);
    }
    result := DiffSplit(e.prefix + a[..prefixLen], a[|a| - suffixLen..] + e.suffix,
                        a[prefixLen..|a| - suffixLen], b[prefixLen..|b| - suffixLen]);
  }

  lemma EmptySegments(s: string)
    ensures Segments(s) == [] <==> s == ""
  {
  }

  lemma RacedRound(e: Race, l: seq<Segment>, r: seq<Segment>)
    requires InRange(e, l, r) && Running(e)
    ensures var e2 := EatEnd(EatStart(e, l, r), l, r);
            && (e2 == e ==> Raced(e, l, r) == e)
            && (e2 != e ==> Raced(e, l, r) == Raced(e2, l, r) && e2.le - e2.ls < e.le - e.ls)
  {
  }

  lemma RacedEnd(e: Race, l: seq<Segment>, r: seq<Segment>)
    requires InRange(e, l, r) && (!Running(e) || EatEnd(EatStart(e, l, r), l, r) == e)
    ensures Raced(e, l, r) == e
  {
    hide EatStart, EatEnd;
  }

  // ---------- what each stage keeps ----------

  /** Shared prefix, remainder and shared suffix make up each side. */
  ghost predicate Sound(e: Race, l: seq<Segment>, r: seq<Segment>) {
    && InRange(e, l, r)
    && e.prefix + LeftRest(e, l, r) + e.suffix == Concat(l)
    && e.prefix + RightRest(e, l, r) + e.suffix == Concat(r)
  }

  lemma RestHead(segs: seq<Segment>, start: nat, end: nat)
    requires start < end < |segs|
    ensures Rest(segs, start, end, false) == segs[start].value + Rest(segs, start + 1, end, false)
  {
    assert segs[start..end + 1] == [segs[start]] + segs[start + 1..end + 1];
  }

  lemma RestLast(segs: seq<Segment>, start: nat, end: nat)
    requires start <= end < |segs|
    ensures Rest(segs, start, end, false) == Rest(segs, start, end, true) + segs[end].value
    ensures start < end ==> Rest(segs, start, end - 1, false) == Rest(segs, start, end, true)
    ensures start == end ==> Rest(segs, start, end, true) == ""
  {
    assert segs[start..end + 1] == segs[start..end] + [segs[end]];
    ConcatAppend(segs[start..end], [segs[end]]);
    assert Concat([segs[end]]) == segs[end].value + "";
  }

  lemma MoveHead(p: string, x: string, rest: string, s: string)
    ensures p + (x + rest) + s == (p + x) + rest + s
  {
  }

  lemma MoveLast(p: string, rest: string, x: string, s: string)
    ensures p + (rest + x) + s == p + rest + (x + s)
  {
  }

  lemma EatStartSound(e: Race, l: seq<Segment>, r: seq<Segment>)
    requires Sound(e, l, r) && Running(e)
    ensures Sound(EatStart(e, l, r), l, r)
  {
    hide Rest;
    if l[e.ls] == r[e.rs] {
      RestHead(l, e.ls, e.le);
      RestHead(r, e.rs, e.re);
      var x := l[e.ls].value;
      MoveHead(e.prefix, x, Rest(l, e.ls + 1, e.le, false), e.suffix);
      MoveHead(e.prefix, x, Rest(r, e.rs + 1, e.re, false), e.suffix);
    }
  }

  lemma EatEndSound(e: Race, l: seq<Segment>, r: seq<Segment>)
    requires Sound(e, l, r) && !e.leftDone && !e.rightDone
    ensures Sound(EatEnd(e, l, r), l, r)
  {
    hide Rest;
    if l[e.le] == r[e.re] {
      RestLast(l, e.ls, e.le);
      RestLast(r, e.rs, e.re);
      var x := l[e.le].value;
      MoveLast(e.prefix, Rest(l, e.ls, e.le, true), x, e.suffix);
      MoveLast(e.prefix, Rest(r, e.rs, e.re, true), x, e.suffix);
    }
  }

  /** A side that the loop consumed whole lost its last segment to the suffix shared with the other. */
  ghost predicate DoneBySuffix(e: Race, l: seq<Segment>, r: seq<Segment>)
    requires InRange(e, l, r)
  {
    && (e.leftDone && !e.rightDone ==> e.re + 1 < |r| && r[e.re + 1] == l[e.ls])
    && (e.rightDone && !e.leftDone ==> e.le + 1 < |l| && l[e.le + 1] == r[e.rs])
  }

  lemma {:induction false} RacedSound(e: Race, l: seq<Segment>, r: seq<Segment>)
    requires Sound(e, l, r) && DoneBySuffix(e, l, r)
    ensures Sound(Raced(e, l, r), l, r) && DoneBySuffix(Raced(e, l, r), l, r)
    decreases e.le - e.ls
  {
    hide Sound;
    SoundInRange(e, l, r);
    if Running(e) {
      var e1 := EatStart(e, l, r);
      var e2 := EatEnd(e1, l, r);
      EatStartSound(e, l, r);
      EatEndSound(e1, l, r);
      if e2 != e {
        RacedSound(e2, l, r);
      }
    }
  }

  lemma SoundInRange(e: Race, l: seq<Segment>, r: seq<Segment>)
    requires Sound(e, l, r)
    ensures InRange(e, l, r)
  {
  }

  lemma StartSound(l: seq<Segment>, r: seq<Segment>)
    requires l != [] && r != []
    ensures Sound(Start(l, r), l, r) && DoneBySuffix(Start(l, r), l, r)
  {
    assert l[0..|l|] == l && r[0..|r|] == r;
    assert "" + Concat(l) + "" == Concat(l) && "" + Concat(r) + "" == Concat(r);
  }

  // ---------- when the tail takes a segment a second time ----------

  /** The case analysis after the loop finds a segment to share. */
  predicate TailFires(e: Race, l: seq<Segment>, r: seq<Segment>)
    requires e.ls < |l| && e.le < |l| && e.rs < |r| && e.re < |r|
  {
    if e.ls == e.le && e.rs != e.re then l[e.ls] == r[e.re] || l[e.ls] == r[e.rs]
    else if e.rs == e.re && e.ls != e.le then l[e.le] == r[e.rs] || l[e.ls] == r[e.rs]
    else e.ls == e.le && e.rs == e.re && l[e.ls] == r[e.rs] && l[e.ls].kind.Marker?
  }

  /** It does so although the loop has already consumed exactly one of the sides. */
  predicate TakenTwice(e: Race, l: seq<Segment>, r: seq<Segment>)
    requires e.ls < |l| && e.le < |l| && e.rs < |r| && e.re < |r|
  {
    e.leftDone != e.rightDone && TailFires(e, l, r)
  }

  lemma TailSound(e: Race, l: seq<Segment>, r: seq<Segment>)
    requires Sound(e, l, r) && !e.leftDone && !e.rightDone
    ensures Sound(Tail(e, l, r), l, r)
  {
    hide Rest;
    RestLast(l, e.ls, e.le);
    RestLast(r, e.rs, e.re);
    var p, s := e.prefix, e.suffix;
    if e.ls == e.le && e.rs != e.re {
      RestHead(r, e.rs, e.re);
      TailShares(p, s, l[e.ls].value, Rest(r, e.rs, e.re - 1, false));
      TailShares(p, s, l[e.ls].value, Rest(r, e.rs + 1, e.re, false));
    } else if e.rs == e.re && e.ls != e.le {
      RestHead(l, e.ls, e.le);
      TailShares(p, s, r[e.rs].value, Rest(l, e.ls, e.le - 1, false));
      TailShares(p, s, r[e.rs].value, Rest(l, e.ls + 1, e.le, false));
    } else {
      TailShares(p, s, l[e.ls].value, "");
    }
  }

  lemma TailShares(p: string, s: string, x: string, rest: string)
    ensures p + ("" + x) + s == p + "" + (x + s) == (p + x) + "" + s
    ensures p + (rest + x) + s == p + rest + (x + s)
    ensures p + (x + rest) + s == (p + x) + rest + s
  {
  }

  /** Taking a segment twice keeps the longer side right and makes the other side too long by it. */
  lemma TailTwiceLeft(e: Race, l: seq<Segment>, r: seq<Segment>)
    requires Sound(e, l, r) && TakenTwice(e, l, r) && e.leftDone
    ensures var e' := Tail(e, l, r);
            && InRange(e', l, r)
            && |e'.prefix| + |e'.suffix| == |Concat(l)| + |l[e.ls].value|
            && e'.prefix + RightRest(e', l, r) + e'.suffix == Concat(r)
            && LeftRest(e', l, r) == ""
            && (e.rs == e.re ==> RightRest(e', l, r) == "")
  {
    hide Rest;
    RestLast(l, e.ls, e.le);
    RestLast(r, e.rs, e.re);
    var p, s, x := e.prefix, e.suffix, l[e.ls].value;
    assert |Concat(l)| == |p| + |s|;
    if e.rs != e.re {
      RestHead(r, e.rs, e.re);
      TailShares(p, s, x, Rest(r, e.rs, e.re - 1, false));
      TailShares(p, s, x, Rest(r, e.rs + 1, e.re, false));
      TailEmpty(e, l, r);
    } else {
      TailShares(p, s, x, "");
    }
  }

  lemma TailEmpty(e: Race, l: seq<Segment>, r: seq<Segment>)
    requires InRange(e, l, r) && TailFires(e, l, r)
    ensures e.ls == e.le ==> LeftRest(Tail(e, l, r), l, r) == ""
    ensures e.rs == e.re ==> RightRest(Tail(e, l, r), l, r) == ""
  {
    assert l[e.ls..e.ls] == [] && r[e.rs..e.rs] == [];
  }

  lemma TailTwiceRight(e: Race, l: seq<Segment>, r: seq<Segment>)
    requires Sound(e, l, r) && TakenTwice(e, l, r) && e.rightDone
    ensures var e' := Tail(e, l, r);
            && InRange(e', l, r)
            && |e'.prefix| + |e'.suffix| == |Concat(r)| + |r[e.rs].value|
            && e'.prefix + LeftRest(e', l, r) + e'.suffix == Concat(l)
            && RightRest(e', l, r) == ""
            && (e.ls == e.le ==> LeftRest(e', l, r) == "")
  {
    hide Rest;
    RestLast(l, e.ls, e.le);
    RestLast(r, e.rs, e.re);
    var p, s, x := e.prefix, e.suffix, r[e.rs].value;
    assert |Concat(r)| == |p| + |s|;
    TailEmpty(e, l, r);
    if e.ls != e.le {
      RestHead(l, e.ls, e.le);
      TailShares(p, s, x, Rest(l, e.ls, e.le - 1, false));
      TailShares(p, s, x, Rest(l, e.ls + 1, e.le, false));
    } else {
      TailShares(p, s, x, "");
    }
  }

  lemma {:induction false} ConcatNonEmpty(segs: seq<Segment>)
    requires segs != [] && segs[0].value != ""
    ensures Concat(segs) != ""
  {
  }

  /** The text-level trim changes neither side's reconstruction. */
  lemma TrimmedKeeps(prefix: string, suffix: string, a: string, b: string, atStart: bool, atEnd: bool)
    ensures var d := Trimmed(prefix, suffix, a, b, atStart, atEnd);
            && d.prefix + d.left + d.suffix == prefix + a + suffix
            && d.prefix + d.right + d.suffix == prefix + b + suffix
            && (a == "" ==> d.left == "" && d.right == b)
            && (b == "" ==> d.right == "" && d.left == a)
  {
    hide CommonPrefix, CommonSuffix;
    var s := if atEnd then CommonSuffix(a, b) else 0;
    CommonSuffixShared(a, b);
    var x, y := a[..|a| - s], b[..|b| - s];
    var p := if atStart then CommonPrefix(x, y) else 0;
    SharedPrefix(a, b, p, s);
    ThreeParts(prefix, a, suffix, p, s);
    ThreeParts(prefix, b, suffix, p, s);
    assert Trimmed(prefix, suffix, a, b, atStart, atEnd)
        == DiffSplit(prefix + a[..p], a[|a| - s..] + suffix, a[p..|a| - s], b[p..|b| - s]);
    assert a[..p] == b[..p] && a[|a| - s..] == b[|b| - s..];
  }

  lemma SharedPrefix(a: string, b: string, p: nat, s: nat)
    requires s <= |a| && s <= |b| && p <= |a| - s && p <= |b| - s
    requires a[..|a| - s][..p] == b[..|b| - s][..p]
    ensures a[..p] == b[..p]
  {
    assert a[..|a| - s][..p] == a[..p] && b[..|b| - s][..p] == b[..p];
  }

  lemma ThreeParts(prefix: string, a: string, suffix: string, p: nat, s: nat)
    requires p + s <= |a|
    ensures (prefix + a[..p]) + a[p..|a| - s] + (a[|a| - s..] + suffix) == prefix + a + suffix
  {
    assert a[..p] + a[p..|a| - s] + a[|a| - s..] == a;
    Regroup(prefix, a[..p], a[p..|a| - s], a[|a| - s..], suffix);
  }

  lemma Regroup(a: string, b: string, c: string, d: string, e: string)
    ensures (a + b) + c + (d + e) == a + (b + c + d) + e
  {
  }

  // ---------- reconstruction ----------

  ghost predicate Reconstructs(d: DiffSplit, left: string, right: string) {
    d.prefix + d.left + d.suffix == left && d.prefix + d.right + d.suffix == right
  }

  lemma CorrectedKeeps(d: DiffSplit, left: string, right: string)
    requires Reconstructs(d, left, right)
    ensures Reconstructs(Corrected(d, left, right), left, right)
  {
    assert left + "" + "" == left;
    if |left| <= |right| && right[..|left|] == left {
      assert left + right[|left|..] + "" == right;
    }
  }

  /** When the left side is too long in the diff, only the last correction can repair it. */
  lemma CorrectedLeftTooLong(d: DiffSplit, left: string, right: string)
    requires d.left == "" && |d.prefix| + |d.suffix| > |left|
    requires d.prefix + d.right + d.suffix == right
    ensures Reconstructs(Corrected(d, left, right), left, right) <==> d.right != "" && left <= right
  {
    if d.right != "" && left <= right {
      assert right[..|left|] == left;
      assert left + right[|left|..] + "" == right && left + "" + "" == left;
    } else if d.right == "" {
      assert |right| == |d.prefix| + |d.suffix|;
    } else if |left| <= |right| {
      assert right[..|left|] != left;
    }
  }

  lemma CorrectedRightTooLong(d: DiffSplit, left: string, right: string)
    requires d.right == "" && |d.prefix| + |d.suffix| > |right|
    requires d.prefix + d.left + d.suffix == left
    ensures !Reconstructs(Corrected(d, left, right), left, right)
  {
    assert |left| == |d.prefix| + |d.left| + |d.suffix|;
  }

  /** The diff loses text: the tail has taken a segment twice, and the left text is not simply a
      prefix of the right one. */
  predicate Loses(left: string, right: string) {
    && left != "" && right != ""
    && var l, r, e := Segments(left), Segments(right), RaceOf(left, right);
    && TakenTwice(e, l, r)
    && !(e.leftDone && e.rs != e.re && left <= right)
  }

  lemma RaceIsSound(left: string, right: string)
    requires left != "" && right != ""
    ensures Concat(Segments(left)) == left && Concat(Segments(right)) == right
    ensures Sound(RaceOf(left, right), Segments(left), Segments(right))
    ensures DoneBySuffix(RaceOf(left, right), Segments(left), Segments(right))
  {
    hide Sound, DoneBySuffix, Raced, Segments;
    SegmentsLossless(left);
    SegmentsLossless(right);
    StartSound(Segments(left), Segments(right));
    RacedSound(Start(Segments(left), Segments(right)), Segments(left), Segments(right));
  }

  /** Exactly when the diff can be put back together into both inputs. */
  lemma SplitReconstructs(left: string, right: string)
    ensures Reconstructs(Split(left, right), left, right) <==> !Loses(left, right)
  {
    hide Segments, RaceOf, Tail, TextTrim, Corrected, TakenTwice;
    if left == "" || right == "" {
      assert "" + right + "" == right && "" + left + "" == left;
    } else {
      RaceIsSound(left, right);
      var l, r, e := Segments(left), Segments(right), RaceOf(left, right);
      if !TakenTwice(e, l, r) {
        NotTwiceReconstructs(e, l, r, left, right);
      } else if e.leftDone {
        TwiceLeft(e, l, r, left, right);
      } else {
        TwiceFlag(e, l, r);
        TwiceRight(e, l, r, left, right);
      }
    }
  }

  lemma TwiceFlag(e: Race, l: seq<Segment>, r: seq<Segment>)
    requires InRange(e, l, r) && TakenTwice(e, l, r) && !e.leftDone
    ensures e.rightDone
  {
  }

  lemma NotTwiceReconstructs(e: Race, l: seq<Segment>, r: seq<Segment>, left: string, right: string)
    requires Sound(e, l, r) && Concat(l) == left && Concat(r) == right && !TakenTwice(e, l, r)
    ensures Reconstructs(Corrected(TextTrim(Tail(e, l, r), l, r), left, right), left, right)
  {
    hide Rest, Corrected, Trimmed;
    var e' := Tail(e, l, r);
    TrimmedKeeps(e'.prefix, e'.suffix, LeftRest(e', l, r), RightRest(e', l, r),
                 r[e'.rs].kind.Text? && l[e'.ls].kind.Text?, l[e'.le].kind.Text? && r[e'.re].kind.Text?);
    if e.leftDone && e.rightDone {
      BothDone(e, l, r, left, right);
    } else {
      if e.leftDone || e.rightDone {
        assert e' == e;
      } else {
        TailSound(e, l, r);
      }
      CorrectedKeeps(TextTrim(e', l, r), left, right);
    }
  }

  /** Both sides consumed whole: the inputs are equal, and the whole text becomes the prefix. */
  lemma BothDone(e: Race, l: seq<Segment>, r: seq<Segment>, left: string, right: string)
    requires Sound(e, l, r) && Concat(l) == left && Concat(r) == right && e.leftDone && e.rightDone
    ensures Reconstructs(Corrected(TextTrim(Tail(e, l, r), l, r), left, right), left, right)
  {
    hide Trimmed;
    var e' := Tail(e, l, r);
    assert l[e.ls..e.ls] == [] && r[e.rs..e.rs] == [];
    assert left == right;
    TrimmedKeeps(e'.prefix, e'.suffix, LeftRest(e', l, r), RightRest(e', l, r),
                 r[e'.rs].kind.Text? && l[e'.ls].kind.Text?, l[e'.le].kind.Text? && r[e'.re].kind.Text?);
    assert left + "" + "" == left;
  }

  lemma TwiceLeft(e: Race, l: seq<Segment>, r: seq<Segment>, left: string, right: string)
    requires Sound(e, l, r) && Concat(l) == left && Concat(r) == right && TakenTwice(e, l, r) && e.leftDone
    requires forall k :: 0 <= k < |l| ==> l[k].value != ""
    requires forall k :: 0 <= k < |r| ==> r[k].value != ""
    ensures Reconstructs(Corrected(TextTrim(Tail(e, l, r), l, r), left, right), left, right)
       <==> e.rs != e.re && left <= right
  {
    hide Rest, Corrected, Trimmed, TailFires;
    TailTwiceLeft(e, l, r);
    var e' := Tail(e, l, r);
    TrimmedKeeps(e'.prefix, e'.suffix, LeftRest(e', l, r), RightRest(e', l, r),
                 r[e'.rs].kind.Text? && l[e'.ls].kind.Text?, l[e'.le].kind.Text? && r[e'.re].kind.Text?);
    RightRestLeft(e, l, r);
    CorrectedLeftTooLong(TextTrim(e', l, r), left, right);
  }

  lemma RightRestLeft(e: Race, l: seq<Segment>, r: seq<Segment>)
    requires InRange(e, l, r) && TakenTwice(e, l, r) && e.leftDone
    requires forall k :: 0 <= k < |r| ==> r[k].value != ""
    ensures e.rs != e.re ==> RightRest(Tail(e, l, r), l, r) != ""
  {
    if e.rs != e.re {
      var e' := Tail(e, l, r);
      ConcatNonEmpty(r[e'.rs..e'.re + 1]);
    }
  }

  lemma TwiceRight(e: Race, l: seq<Segment>, r: seq<Segment>, left: string, right: string)
    requires Sound(e, l, r) && Concat(l) == left && Concat(r) == right && TakenTwice(e, l, r) && e.rightDone
    requires forall k :: 0 <= k < |l| ==> l[k].value != ""
    requires forall k :: 0 <= k < |r| ==> r[k].value != ""
    ensures !Reconstructs(Corrected(TextTrim(Tail(e, l, r), l, r), left, right), left, right)
  {
    hide Rest, Corrected, Trimmed, TailFires;
    TailTwiceRight(e, l, r);
    var e' := Tail(e, l, r);
    TrimmedKeeps(e'.prefix, e'.suffix, LeftRest(e', l, r), RightRest(e', l, r),
                 r[e'.rs].kind.Text? && l[e'.ls].kind.Text?, l[e'.le].kind.Text? && r[e'.re].kind.Text?);
    CorrectedRightTooLong(TextTrim(e', l, r), left, right);
  }

  ghost predicate Distinct(segs: seq<Segment>) {
    forall i, j :: 0 <= i < j < |segs| ==> segs[i] != segs[j]
  }

  /** Texts that repeat no segment are always split faithfully. */
  lemma DistinctReconstructs(left: string, right: string)
    requires Distinct(Segments(left)) && Distinct(Segments(right))
    ensures Reconstructs(Split(left, right), left, right)
  {
    hide Segments, RaceOf, Split, Sound;
    SplitReconstructs(left, right);
    if left != "" && right != "" {
      RaceIsSound(left, right);
      var l, r, e := Segments(left), Segments(right), RaceOf(left, right);
      if e.leftDone && !e.rightDone {
        assert r[e.re + 1] == l[e.ls];
        assert r[e.rs] != r[e.re + 1] && r[e.re] != r[e.re + 1];
      } else if e.rightDone && !e.leftDone {
        assert l[e.le + 1] == r[e.rs];
        assert l[e.ls] != l[e.le + 1] && l[e.le] != l[e.le + 1];
      }
    }
  }

  /** A repeated marker does lose text. */
  lemma RepeatedMarkerLoses()
    ensures Loses("<a><x>", "<a><x><x>")
  {
    hide Segments, TakenTwice;
    var a, x := Segment(Marker, "<a>"), Segment(Marker, "<x>");
    RepeatedSegments(a, x);
    RepeatedRace(a, x);
  }

  lemma RepeatedRace(a: Segment, x: Segment)
    requires a != x && x.kind.Marker?
    ensures var e := Raced(Start([a, x], [a, x, x]), [a, x], [a, x, x]);
            TakenTwice(e, [a, x], [a, x, x]) && e.rs == e.re
  {
    var l, r := [a, x], [a, x, x];
    var e1 := EatStart(Start(l, r), l, r);
    var e2 := EatEnd(e1, l, r);
    assert e2.leftDone && e2.ls == 1 && e2.rs == e2.re == 1;
    RacedRound(Start(l, r), l, r);
    RacedEnd(e2, l, r);
  }

  lemma RepeatedSegments(a: Segment, x: Segment)
    requires a == Segment(Marker, "<a>") && x == Segment(Marker, "<x>")
    ensures Segments("<a><x>") == [a, x] && Segments("<a><x><x>") == [a, x, x]
  {
    hide Segments;
    var one, two := "<x>", "<x><x>";
    NoSegments();
    SmallMarker('x', "");
    SmallMarker('x', one);
    SmallMarker('a', one);
    SmallMarker('a', two);
    assert ['<', 'x', '>'] + "" == one && ['<', 'x', '>'] + one == two;
    assert ['<', 'a', '>'] + one == "<a><x>" && ['<', 'a', '>'] + two == "<a><x><x>";
    assert [a] + ([x] + []) == [a, x] && [a] + ([x] + ([x] + [])) == [a, x, x];
  }

  lemma SmallMarker(c: char, rest: string)
    requires c != '>'
    ensures Segments(['<', c, '>'] + rest) == [Segment(Marker, ['<', c, '>'])] + Segments(rest)
  {
    hide Segments;
    var s := ['<', c, '>'] + rest;
    FirstCloserIs('<', s, 2);
    MarkerSegment(s, 2);
    assert s[..3] == ['<', c, '>'] && s[3..] == rest;
  }
}

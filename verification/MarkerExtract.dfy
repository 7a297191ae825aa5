/** The text before the first common prefix of two variants, and the text after their last common
    suffix: two extractors that are mirror images of each other.
 */
module MarkerExtract {
  import opened MarkerDiff
  import opened Wrappers

  predicate OccursAt(s: string, pattern: string, k: nat) {
    k + |pattern| <= |s| && s[k..k + |pattern|] == pattern
  }

  function Find(s: string, pattern: string): Option<nat> {
    if |pattern| > |s| then None
    else if s[..|pattern|] == pattern then Some(0)
    else
      var later := Find(s[1..], pattern);
      if later.Some? then Some(later.value + 1) else None
  }

  function FindLast(s: string, pattern: string): Option<nat> {
    if |pattern| > |s| then None
    else if s[|s| - |pattern|..] == pattern then Some(|s| - |pattern|)
    else FindLast(s[..|s| - 1], pattern)
  }

  /** `Find` returns the first occurrence, if there is any. */
  lemma {:induction false} FindFirst(s: string, pattern: string, k: nat)
    ensures OccursAt(s, pattern, k) ==> Find(s, pattern).Some? && Find(s, pattern).value <= k
    ensures Find(s, pattern).Some? ==> OccursAt(s, pattern, Find(s, pattern).value)
    decreases |s|
  {
    if |pattern| <= |s| && s[..|pattern|] != pattern {
      FindFirst(s[1..], pattern, if k > 0 then k - 1 else 0);
      if k > 0 && OccursAt(s, pattern, k) {
        assert s[1..][k - 1..k - 1 + |pattern|] == s[k..k + |pattern|];
      }
      var later := Find(s[1..], pattern);
      if later.Some? {
        assert s[1..][later.value..later.value + |pattern|] == s[later.value + 1..later.value + 1 + |pattern|];
      }
    }
  }

  lemma OccursInInit(s: string, pattern: string, k: nat)
    requires s != ""
    ensures OccursAt(s[..|s| - 1], pattern, k) <==> OccursAt(s, pattern, k) && k + |pattern| < |s|
  {
    if k + |pattern| < |s| {
      assert s[..|s| - 1][k..k + |pattern|] == s[k..k + |pattern|];
    }
  }

  /** `FindLast` returns the last occurrence, if there is any. */
  lemma {:induction false} FindLastLast(s: string, pattern: string, k: nat)
    ensures OccursAt(s, pattern, k) ==> FindLast(s, pattern).Some? && k <= FindLast(s, pattern).value
    ensures FindLast(s, pattern).Some? ==> OccursAt(s, pattern, FindLast(s, pattern).value)
    decreases |s|
  {
    if |pattern| <= |s| && s[|s| - |pattern|..] != pattern && s != "" {
      hide OccursAt;
      var init := s[..|s| - 1];
      FindLastLast(init, pattern, k);
      OccursInInit(s, pattern, k);
      NotAtEnd(s, pattern, k);
      var pos := FindLast(init, pattern);
      if pos.Some? {
        OccursInInit(s, pattern, pos.value);
      }
    }
  }

  lemma NotAtEnd(s: string, pattern: string, k: nat)
    requires |pattern| <= |s| && s[|s| - |pattern|..] != pattern
    ensures OccursAt(s, pattern, k) ==> k + |pattern| < |s|
  {
  }

  function UntilCommonPrefix(full: string, left: string, right: string): string {
    var n := CommonPrefix(left, right);
    if n == 0 then ""
    else
      var pos := Find(full, left[..n]);
      FindFirst(full, left[..n], 0);
      if pos.None? then "" else full[..pos.value]
  }

  function AfterCommonSuffix(full: string, left: string, right: string): string {
    var n := CommonSuffix(left, right);
    if n == 0 then ""
    else
      var pos := FindLast(full, left[|left| - n..]);
      FindLastLast(full, left[|left| - n..], 0);
      if pos.None? then "" else full[pos.value + n..]
  }

  function Reverse(s: string): (r: string)
    ensures |r| == |s|
  {
    if s == "" then "" else Reverse(s[1..]) + [s[0]]
  }

  lemma {:induction false} ReverseConcat(a: string, b: string)
    ensures Reverse(a + b) == Reverse(b) + Reverse(a)
  {
    if a == "" {
      assert a + b == b && Reverse(b) + Reverse(a) == Reverse(b);
    } else {
      assert (a + b)[1..] == a[1..] + b;
      ReverseConcat(a[1..], b);
      assert Reverse(b) + Reverse(a[1..]) + [a[0]] == Reverse(b) + Reverse(a);
    }
  }

  /** Reversing turns the part before a position into the part after the mirrored position. */
  lemma ReverseParts(s: string, n: nat)
    requires n <= |s|
    ensures Reverse(s)[..|s| - n] == Reverse(s[n..]) && Reverse(s)[|s| - n..] == Reverse(s[..n])
  {
    hide Reverse;
    var a, b := s[..n], s[n..];
    ReverseConcat(a, b);
    assert a + b == s;
    assert (Reverse(b) + Reverse(a))[..|b|] == Reverse(b) && (Reverse(b) + Reverse(a))[|b|..] == Reverse(a);
  }

  lemma ReverseLast(s: string)
    requires s != ""
    ensures Reverse(s)[0] == s[|s| - 1] && Reverse(s)[1..] == Reverse(s[..|s| - 1])
  {
    ReverseParts(s, |s| - 1);
    var last := s[|s| - 1..];
    assert last[1..] == "" && Reverse(last) == [last[0]];
    assert Reverse(s)[..1][0] == last[0];
  }

  lemma {:induction false} CommonSuffixMirrors(a: string, b: string)
    ensures CommonSuffix(a, b) == CommonPrefix(Reverse(a), Reverse(b))
    decreases |a|
  {
    hide Reverse;
    if a != "" && b != "" {
      ReverseLast(a);
      ReverseLast(b);
      CommonSuffixMirrors(a[..|a| - 1], b[..|b| - 1]);
    }
  }

  lemma {:induction false} ReverseTwice(s: string)
    ensures Reverse(Reverse(s)) == s
  {
    if s != "" {
      ReverseConcat(Reverse(s[1..]), [s[0]]);
      ReverseTwice(s[1..]);
      assert [s[0]][1..] == "" && Reverse([s[0]]) == [s[0]];
    }
  }

  function Mirrored(s: string, pattern: string, pos: Option<nat>): (r: Option<int>) {
    if pos.None? then None else Some(|s| - |pattern| - pos.value)
  }

  lemma SameEnd(s: string, pattern: string)
    requires |pattern| <= |s|
    ensures Reverse(s)[..|pattern|] == Reverse(pattern) <==> s[|s| - |pattern|..] == pattern
  {
    hide Reverse;
    ReverseParts(s, |s| - |pattern|);
    ReverseTwice(s[|s| - |pattern|..]);
    ReverseTwice(pattern);
  }

  lemma {:induction false} FindLastMirrors(s: string, pattern: string)
    ensures FindLast(s, pattern) == Mirrored(s, pattern, Find(Reverse(s), Reverse(pattern)))
    decreases |s|
  {
    hide Reverse;
    if |pattern| <= |s| {
      SameEnd(s, pattern);
      if s[|s| - |pattern|..] != pattern {
        ReverseLast(s);
        FindLastMirrors(s[..|s| - 1], pattern);
      }
    }
  }

  /** The two extractors are mirror images. */
  lemma ExtractorsMirror(full: string, left: string, right: string)
    ensures AfterCommonSuffix(full, left, right)
         == Reverse(UntilCommonPrefix(Reverse(full), Reverse(left), Reverse(right)))
  {
    hide Find, FindLast, CommonPrefix, CommonSuffix, Reverse;
    CommonSuffixMirrors(left, right);
    var n := CommonSuffix(left, right);
    NothingReversed();
    if n > 0 {
      ReverseParts(left, |left| - n);
      SuffixFound(full, left[|left| - n..]);
    }
  }

  lemma SuffixFound(full: string, pattern: string)
    ensures var pos, k := FindLast(full, pattern), Find(Reverse(full), Reverse(pattern));
            && pos.Some? == k.Some?
            && (pos.Some? ==>
                  && pos.value + |pattern| <= |full| && k.value <= |full|
                  && full[pos.value + |pattern|..] == Reverse(Reverse(full)[..k.value]))
  {
    hide Find, FindLast, Reverse;
    FindLastMirrors(full, pattern);
    FindLastLast(full, pattern, 0);
    var pos := FindLast(full, pattern);
    if pos.Some? {
      ReverseParts(full, pos.value + |pattern|);
      ReverseTwice(full[pos.value + |pattern|..]);
    }
  }

  lemma NothingReversed()
    ensures Reverse("") == ""
  {
  }
}

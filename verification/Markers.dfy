/** Cutting rendered template text into markers, `<...>` or `[...]`, and the text between them. */
module Markers {

  datatype Kind = Text | Marker

  datatype Segment = Segment(kind: Kind, value: string)

  predicate IsOpener(c: char) {
    c == '<' || c == '['
  }

  predicate Closes(opener: char, c: char) {
    (opener == '<' && c == '>') || (opener == '[' && c == ']')
  }

  /** The position of the first opener in `s`, or its length. */
  function FirstOpener(s: string): (n: nat)
    ensures n <= |s| && (n < |s| ==> IsOpener(s[n]))
    ensures forall k :: 0 <= k < n ==> !IsOpener(s[k])
  {
    if s == "" || IsOpener(s[0]) then 0 else 1 + FirstOpener(s[1..])
  }

  /** The position of the first character of `s` closing `opener`, or its length. */
  function FirstCloser(opener: char, s: string): (n: nat)
    ensures n <= |s| && (n < |s| ==> Closes(opener, s[n]))
    ensures forall k :: 0 <= k < n ==> !Closes(opener, s[k])
  {
    if s == "" || Closes(opener, s[0]) then 0 else 1 + FirstCloser(opener, s[1..])
  }

  /** The segments of a text. A marker that is never closed is text. */
  function Segments(s: string): (r: seq<Segment>)
    ensures s != "" ==> r != []
    ensures forall k :: 0 <= k < |r| ==> r[k].value != ""
    decreases |s|
  {
    if s == "" then []
    else if IsOpener(s[0]) then
      var n := FirstCloser(s[0], s);
      if n < |s| then [Segment(Marker, s[..n + 1])] + Segments(s[n + 1..]) else [Segment(Text, s)]
    else
      var n := FirstOpener(s);
      [Segment(Text, s[..n])] + Segments(s[n..])
  }

  function Concat(segs: seq<Segment>): string {
    if segs == [] then "" else segs[0].value + Concat(segs[1..])
  }

  lemma {:induction false} ConcatAppend(a: seq<Segment>, b: seq<Segment>)
    ensures Concat(a + b) == Concat(a) + Concat(b)
  {
    if a == [] {
      assert a + b == b;
    } else {
      assert (a + b)[1..] == a[1..] + b;
      ConcatAppend(a[1..], b);
    }
  }

  /** Nothing is lost: the segments put together are the text. */
  lemma {:induction false} SegmentsLossless(s: string)
    ensures Concat(Segments(s)) == s
    decreases |s|
  {
    hide Segments, Concat, FirstCloser, FirstOpener;
    if s == "" {
      NoSegments();
    } else if !IsOpener(s[0]) {
      var n := FirstOpener(s);
      SegmentsLossless(s[n..]);
      TextSegment(s, n);
      ConcatFirst(Segment(Text, s[..n]), Segments(s[n..]));
    } else {
      var n := FirstCloser(s[0], s);
      if n < |s| {
        SegmentsLossless(s[n + 1..]);
        MarkerSegment(s, n);
        ConcatFirst(Segment(Marker, s[..n + 1]), Segments(s[n + 1..]));
      } else {
        UnclosedSegment(s);
        NoSegments();
        ConcatFirst(Segment(Text, s), []);
        assert [Segment(Text, s)] + [] == [Segment(Text, s)];
      }
    }
  }

  lemma {:induction false} ConcatFirst(first: Segment, rest: seq<Segment>)
    ensures Concat([first] + rest) == first.value + Concat(rest)
  {
  }

  lemma {:induction false} FirstCloserIs(opener: char, s: string, n: nat)
    requires n < |s| && Closes(opener, s[n]) && forall k :: 0 <= k < n ==> !Closes(opener, s[k])
    ensures FirstCloser(opener, s) == n
  {
    if n > 0 {
      FirstCloserIs(opener, s[1..], n - 1);
    }
  }

  lemma {:induction false} FirstOpenerIs(s: string, n: nat)
    requires n <= |s| && (n < |s| ==> IsOpener(s[n])) && forall k :: 0 <= k < n ==> !IsOpener(s[k])
    ensures FirstOpener(s) == n
  {
    if n > 0 {
      FirstOpenerIs(s[1..], n - 1);
    }
  }

  /** How far the scan has come: the segments pushed so far, and where the current one begins. */
  ghost predicate Scanning(text: string, done: seq<Segment>, border: nat, pos: nat, inMarker: bool) {
    && border <= pos <= |text|
    && done + Segments(text[border..]) == Segments(text)
    && (if inMarker then
          border < pos && IsOpener(text[border]) && forall k :: border <= k < pos ==> !Closes(text[border], text[k])
        else
          forall k :: border <= k < pos ==> !IsOpener(text[k]))
  }

  lemma OpenerFound(text: string, done: seq<Segment>, border: nat, pos: nat)
    requires pos < |text| && Scanning(text, done, border, pos, false) && IsOpener(text[pos])
    ensures var done' := if border < pos then done + [Segment(Text, text[border..pos])] else done;
            Scanning(text, done', pos, pos + 1, true)
  {
    hide Segments;
    if border < pos {
      var rest := text[border..];
      assert forall k :: 0 <= k < pos - border ==> rest[k] == text[border + k];
      FirstOpenerIs(rest, pos - border);
      TextSegment(rest, pos - border);
      assert rest[pos - border..] == text[pos..] && rest[..pos - border] == text[border..pos];
      assert done + ([Segment(Text, text[border..pos])] + Segments(text[pos..]))
          == done + [Segment(Text, text[border..pos])] + Segments(text[pos..]);
    }
  }

  lemma {:induction false} TextSegment(s: string, n: nat)
    requires s != "" && !IsOpener(s[0]) && n == FirstOpener(s)
    ensures Segments(s) == [Segment(Text, s[..n])] + Segments(s[n..])
  {
  }

  lemma CloserFound(text: string, done: seq<Segment>, border: nat, pos: nat)
    requires pos < |text| && Scanning(text, done, border, pos, true) && Closes(text[border], text[pos])
    ensures Scanning(text, done + [Segment(Marker, text[border..pos + 1])], pos + 1, pos + 1, false)
  {
    hide Segments;
    var rest := text[border..];
    assert forall k :: 0 <= k < pos - border ==> rest[k] == text[border + k];
    FirstCloserIs(rest[0], rest, pos - border);
    MarkerSegment(rest, pos - border);
    assert rest[pos - border + 1..] == text[pos + 1..] && rest[..pos - border + 1] == text[border..pos + 1];
    assert done + ([Segment(Marker, text[border..pos + 1])] + Segments(text[pos + 1..]))
        == done + [Segment(Marker, text[border..pos + 1])] + Segments(text[pos + 1..]);
  }

  lemma {:induction false} MarkerSegment(s: string, n: nat)
    requires s != "" && IsOpener(s[0]) && n == FirstCloser(s[0], s) < |s|
    ensures Segments(s) == [Segment(Marker, s[..n + 1])] + Segments(s[n + 1..])
  {
    hide FirstCloser;
  }

  lemma {:induction false} UnclosedSegment(s: string)
    requires s != "" && IsOpener(s[0]) && forall k :: 0 <= k < |s| ==> !Closes(s[0], s[k])
    ensures Segments(s) == [Segment(Text, s)]
  {
  }

  lemma {:induction false} NoSegments()
    ensures Segments("") == [] && Concat([]) == ""
  {
  }

  lemma EndReached(text: string, done: seq<Segment>, border: nat, inMarker: bool)
    requires Scanning(text, done, border, |text|, inMarker)
    ensures Segments(text) == if border < |text| then done + [Segment(Text, text[border..])] else done
  {
    hide Segments;
    var rest := text[border..];
    NoSegments();
    if border < |text| {
      assert forall k :: 0 <= k < |rest| ==> rest[k] == text[border + k];
      if inMarker {
        UnclosedSegment(rest);
      } else {
        FirstOpenerIs(rest, |rest|);
        TextSegment(rest, |rest|);
        assert rest[|rest|..] == "" && rest[..|rest|] == rest;
        assert [Segment(Text, rest)] + [] == [Segment(Text, rest)];
      }
    } else {
      assert rest == "" && done + [] == done;
    }
  }

  method SegmentizeMarkers(text: string) returns (retval: seq<Segment>)
    ensures retval == Segments(text)
  {
    hide Segments;
    retval := [];
    var inMarker, opener := false, '\0';
    var border := 0;
    assert text[0..] == text;
    for pos := 0 to |text|
      invariant Scanning(text, retval, border, pos, inMarker)
      invariant inMarker ==> opener == text[border]
    {
      if !inMarker && IsOpener(text[pos]) {
        OpenerFound(text, retval, border, pos);
        if border < pos {
          retval := retval + [Segment(Text, text[border..pos])];
        }
        border, inMarker, opener := pos, true, text[pos];
      } else if inMarker && Closes(opener, text[pos]) {
        CloserFound(text, retval, border, pos);
        retval := retval + [Segment(Marker, text[border..pos + 1])];
        border, inMarker, opener := pos + 1, false, '\0';
      }
    }
    EndReached(text, retval, border, inMarker);
    if border < |text| {
      retval := retval + [Segment(Text, text[border..])];
    }
  }
}

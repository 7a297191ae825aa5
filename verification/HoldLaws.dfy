/** When names held back go out: exactly when they are due, and before anything else about their call. */
module HoldLaws {
  import opened FilteredStream
  import opened MessageDiff
  import opened ResponseStream
  import opened Wrappers

  /** The delta lets the name of call `i` go: it brings the call arguments, or is about something else. */
  predicate Releases(d: Delta, i: nat) {
    d.index != Some(i) || d.toolCall.arguments != ""
  }

  lemma {:induction false} HeadersSend(m: Message, sent: set<nat>, d: Option<Delta>, from: nat, i: nat)
    requires AllNamed(m) && from <= |m.toolCalls|
    ensures i in DueHeaders(m, sent, d, from).1 <==>
              i in sent || (from <= i < |m.toolCalls| && (d.None? || Releases(d.value, i)))
    decreases |m.toolCalls| - from
  {
    if from < |m.toolCalls| {
      HeadersSend(m, sent, d, from + 1, i);
      HeadersSend(m, sent + {from}, d, from + 1, i);
    }
  }

  lemma DeltaSends(m: Message, sent: set<nat>, d: Delta, partial: bool, i: nat)
    requires AllNamed(m) && (d.index.Some? ==> d.index.value < |m.toolCalls|)
    ensures i in FilteredDelta(m, sent, d, partial).1 <==>
              i in sent || (i < |m.toolCalls| && (Releases(d, i) || !partial))
  {
    hide DueHeaders;
    HeadersSend(m, sent, Some(d), 0, i);
    if d.index.Some? {
      HeadersSend(m, sent, Some(d), 0, d.index.value);
    }
  }

  /** While a parse is partial a call's name is sent once some delta brings it arguments or is about something else,
      and not before; when the parse is whole every name is sent.
   */
  lemma {:induction false} SentExactly(m: Message, sent: set<nat>, ds: seq<Delta>, partial: bool, i: nat)
    requires AllNamed(m) && Indexed(m, ds)
    ensures i in FilteredDeltas(m, sent, ds, partial).1 <==>
              i in sent || (i < |m.toolCalls| && (!partial || exists k :: 0 <= k < |ds| && Releases(ds[k], i)))
    decreases ds
  {
    hide DueHeaders, FilteredDelta, Releases;
    if ds == [] {
      HeadersSend(m, sent, None, 0, i);
    } else {
      var sent1 := FilteredDelta(m, sent, ds[0], partial).1;
      DeltaSends(m, sent, ds[0], partial, i);
      SentExactly(m, sent1, ds[1..], partial, i);
      if k :| 0 <= k < |ds| && Releases(ds[k], i) {
        assert k > 0 ==> ds[1..][k - 1] == ds[k];
      }
      if k :| 0 <= k < |ds[1..]| && Releases(ds[1..][k], i) {
        assert ds[k + 1] == ds[1..][k];
      }
    }
  }

  /** A delta about call `i` names it if it is the first to be sent about it, and only brings arguments otherwise. */
  ghost predicate NamedAt(out: seq<Delta>, m: Message, sent: set<nat>, k: nat, i: nat)
    requires k < |out| && i < |m.toolCalls|
  {
    var call := out[k].toolCall;
    if i in sent || About(out[..k], i) then call.name == "" && call.id == "" && call.arguments != ""
    else call.name == m.toolCalls[i].name && call.id == m.toolCalls[i].id
  }

  predicate About(ds: seq<Delta>, i: nat) {
    exists k :: 0 <= k < |ds| && ds[k].index == Some(i)
  }

  ghost predicate NamedFirst(out: seq<Delta>, m: Message, sent: set<nat>, sent': set<nat>) {
    && sent <= sent'
    && (forall k: nat, i: nat :: k < |out| && out[k].index == Some(i) ==> i < |m.toolCalls| && NamedAt(out, m, sent, k, i))
    && (forall i :: i in sent' <==> i in sent || About(out, i))
  }

  lemma AboutConcat(a: seq<Delta>, b: seq<Delta>, i: nat)
    ensures About(a + b, i) <==> About(a, i) || About(b, i)
  {
    if k :| 0 <= k < |a| && a[k].index == Some(i) {
      assert (a + b)[k] == a[k];
    }
    if k :| 0 <= k < |b| && b[k].index == Some(i) {
      assert (a + b)[|a| + k] == b[k];
    }
  }

  lemma NamedBoth(a: seq<Delta>, b: seq<Delta>, m: Message, s0: set<nat>, s1: set<nat>, s2: set<nat>)
    requires NamedFirst(a, m, s0, s1) && NamedFirst(b, m, s1, s2)
    ensures NamedFirst(a + b, m, s0, s2)
  {
    hide About;
    var out := a + b;
    forall k: nat, i: nat | k < |out| && out[k].index == Some(i) ensures i < |m.toolCalls| && NamedAt(out, m, s0, k, i) {
      if k < |a| {
        assert out[..k] == a[..k] && NamedAt(a, m, s0, k, i);
      } else {
        assert out[..k] == a + b[..k - |a|] && b[k - |a|] == out[k] && NamedAt(b, m, s1, k - |a|, i);
        AboutConcat(a, b[..k - |a|], i);
      }
    }
    forall i ensures i in s2 <==> i in s0 || About(out, i) {
      if i >= 0 {
        AboutConcat(a, b, i);
      }
    }
  }

  lemma NamedNothing(m: Message, sent: set<nat>)
    ensures NamedFirst([], m, sent, sent)
  {
  }

  lemma NamedOne(d: Delta, m: Message, sent: set<nat>, i: nat)
    requires d.index == Some(i) && i < |m.toolCalls|
    requires if i in sent then d.toolCall.name == "" && d.toolCall.id == "" && d.toolCall.arguments != ""
             else d.toolCall.name == m.toolCalls[i].name && d.toolCall.id == m.toolCalls[i].id
    ensures NamedFirst([d], m, sent, sent + {i})
  {
    assert [d][..0] == [];
    assert forall k :: About([d], k) <==> k == i by {
      forall k: nat ensures About([d], k) <==> k == i {
        if k == i {
          assert [d][0].index == Some(k);
        }
      }
    }
  }

  lemma {:induction false} HeadersNamed(m: Message, sent: set<nat>, d: Option<Delta>, from: nat)
    requires from <= |m.toolCalls|
    ensures NamedFirst(DueHeaders(m, sent, d, from).0, m, sent, DueHeaders(m, sent, d, from).1)
    decreases |m.toolCalls| - from
  {
    hide NamedFirst, Due;
    if from == |m.toolCalls| {
      NamedNothing(m, sent);
    } else if from in sent || m.toolCalls[from].name == "" || !Due(d, from) {
      HeadersNamed(m, sent, d, from + 1);
    } else {
      HeadersNamed(m, sent + {from}, d, from + 1);
      NamedOne(Header(m, from), m, sent, from);
      NamedBoth([Header(m, from)], DueHeaders(m, sent + {from}, d, from + 1).0, m, sent, sent + {from},
                DueHeaders(m, sent + {from}, d, from + 1).1);
    }
  }

  lemma PassedNamed(m: Message, sent: set<nat>, d: Delta, partial: bool)
    requires d.index.Some? ==> d.index.value < |m.toolCalls|
    ensures NamedFirst(Passed(m, sent, d, partial).0, m, sent, Passed(m, sent, d, partial).1)
  {
    hide NamedFirst;
    var (out, sent') := Passed(m, sent, d, partial);
    if out == [] {
      NamedNothing(m, sent);
    } else if d.index.None? {
      TextNamed(d, m, sent);
    } else {
      NamedOne(out[0], m, sent, d.index.value);
      assert sent + {d.index.value} == sent';
    }
  }

  lemma TextNamed(d: Delta, m: Message, sent: set<nat>)
    requires d.index.None?
    ensures NamedFirst([d], m, sent, sent)
  {
  }

  /** The first delta sent about a call carries its name and id, every later one only arguments; and the names sent
      are those of the calls something was sent about.
   */
  lemma {:induction false} NamesFirst(m: Message, sent: set<nat>, ds: seq<Delta>, partial: bool)
    requires Indexed(m, ds)
    ensures NamedFirst(FilteredDeltas(m, sent, ds, partial).0, m, sent, FilteredDeltas(m, sent, ds, partial).1)
    decreases ds
  {
    hide NamedFirst, DueHeaders, Passed;
    if ds == [] {
      NamedNothing(m, sent);
      HeadersNamed(m, sent, None, 0);
    } else {
      var (headers, sent1) := DueHeaders(m, sent, Some(ds[0]), 0);
      var (passed, sent2) := Passed(m, sent1, ds[0], partial);
      var (rest, sent3) := FilteredDeltas(m, sent2, ds[1..], partial);
      HeadersNamed(m, sent, Some(ds[0]), 0);
      PassedNamed(m, sent1, ds[0], partial);
      NamesFirst(m, sent2, ds[1..], partial);
      NamedBoth(headers, passed, m, sent, sent1, sent2);
      NamedBoth(headers + passed, rest, m, sent, sent2, sent3);
    }
  }

  /** Names and nothing else, of calls from `from` on and in their order. */
  predicate NamesOnly(out: seq<Delta>, m: Message, from: nat) {
    && (forall k :: 0 <= k < |out| ==>
          out[k].index.Some? && from <= out[k].index.value < |m.toolCalls|
          && var call := m.toolCalls[out[k].index.value]; out[k] == Delta("", "", out[k].index, ToolCall(call.name, "", call.id)))
    && forall j, k :: 0 <= j < k < |out| ==> out[j].index.Some? && out[k].index.Some? && out[j].index.value < out[k].index.value
  }

  lemma {:induction false} HeadersOnly(m: Message, sent: set<nat>, d: Option<Delta>, from: nat)
    requires from <= |m.toolCalls|
    ensures NamesOnly(DueHeaders(m, sent, d, from).0, m, from)
    decreases |m.toolCalls| - from
  {
    hide Due, NamesOnly;
    if from == |m.toolCalls| {
      NoNames(m, from);
    } else if from in sent || m.toolCalls[from].name == "" || !Due(d, from) {
      HeadersOnly(m, sent, d, from + 1);
      NamesFrom(DueHeaders(m, sent, d, from + 1).0, m, from);
    } else {
      HeadersOnly(m, sent + {from}, d, from + 1);
      NameAndNames(DueHeaders(m, sent + {from}, d, from + 1).0, m, from);
    }
  }

  lemma NoNames(m: Message, from: nat)
    ensures NamesOnly([], m, from)
  {
  }

  lemma NamesFrom(out: seq<Delta>, m: Message, from: nat)
    requires NamesOnly(out, m, from + 1)
    ensures NamesOnly(out, m, from)
  {
  }

  lemma NameAndNames(out: seq<Delta>, m: Message, from: nat)
    requires NamesOnly(out, m, from + 1) && from < |m.toolCalls|
    ensures NamesOnly([Header(m, from)] + out, m, from)
  {
    var all := [Header(m, from)] + out;
    assert all[0] == Header(m, from) && forall k :: 0 < k < |all| ==> all[k] == out[k - 1];
  }

  lemma {:induction false} HeadersAbout(m: Message, sent: set<nat>, d: Option<Delta>, from: nat, i: nat)
    requires AllNamed(m) && from <= |m.toolCalls|
    ensures About(DueHeaders(m, sent, d, from).0, i) <==>
              i !in sent && from <= i < |m.toolCalls| && (d.None? || Releases(d.value, i))
    decreases |m.toolCalls| - from
  {
    hide About;
    if from == |m.toolCalls| {
      AboutNone(i);
    } else if from in sent || !Due(d, from) {
      HeadersAbout(m, sent, d, from + 1, i);
    } else {
      var rest := DueHeaders(m, sent + {from}, d, from + 1).0;
      HeadersAbout(m, sent + {from}, d, from + 1, i);
      AboutConcat([Header(m, from)], rest, i);
      AboutOne(Header(m, from), i);
    }
  }

  lemma AboutNone(i: nat)
    ensures !About([], i)
  {
  }

  lemma AboutOne(d: Delta, i: nat)
    ensures About([d], i) <==> d.index == Some(i)
  {
    assert [d][0] == d;
  }

  /** A delta goes out, if it does, behind the names it lets go. It goes out if it is about a text or brings
      arguments, or when the parse is whole and its call has no name yet; but for a name and an id it is as it was.
   */
  lemma NamesBefore(m: Message, sent: set<nat>, d: Delta, partial: bool) returns (n: nat)
    requires AllNamed(m) && Indexed(m, [d])
    ensures var out := FilteredDeltas(m, sent, [d], partial).0;
      && n <= |out| <= n + 1 && NamesOnly(out[..n], m, 0)
      && (forall i: nat :: About(out[..n], i) <==> i !in sent && i < |m.toolCalls| && Releases(d, i))
      && (n < |out| <==> d.index.None? || d.toolCall.arguments != "" || (!partial && d.index.value !in sent))
      && (n < |out| ==> out[n] == d.(toolCall := d.toolCall.(name := out[n].toolCall.name, id := out[n].toolCall.id)))
      && (n < |out| && d.index.None? ==> out[n] == d)
  {
    hide DueHeaders;
    var headers := DueHeaders(m, sent, Some(d), 0).0;
    n := |headers|;
    forall i: nat ensures About(headers, i) <==> i !in sent && i < |m.toolCalls| && Releases(d, i) {
      HeadersAbout(m, sent, Some(d), 0, i);
    }
    OneDelta(m, sent, d, partial);
    if d.index.Some? {
      HeadersSend(m, sent, Some(d), 0, d.index.value);
    }
    HeadersOnly(m, sent, Some(d), 0);
    var out := FilteredDelta(m, sent, d, partial).0;
    assert out[..n] == headers;
  }

  lemma OneDelta(m: Message, sent: set<nat>, d: Delta, partial: bool)
    requires AllNamed(m) && Indexed(m, [d])
    ensures FilteredDeltas(m, sent, [d], partial) == FilteredDelta(m, sent, d, partial)
  {
    hide DueHeaders, FilteredDelta;
    assert [d][0] == d && [d][1..] == [];
    var (out, sent1) := FilteredDelta(m, sent, d, partial);
    assert out + [] == out;
    if !partial {
      forall i: nat | i < |m.toolCalls| ensures i in sent1 {
        DeltaSends(m, sent, d, partial, i);
      }
      NothingDue(m, sent1, 0);
    }
  }

  lemma {:induction false} NothingDue(m: Message, sent: set<nat>, from: nat)
    requires from <= |m.toolCalls| && forall i: nat :: i < |m.toolCalls| ==> i in sent
    ensures DueHeaders(m, sent, None, from) == ([], sent)
    decreases |m.toolCalls| - from
  {
    if from < |m.toolCalls| {
      NothingDue(m, sent, from + 1);
    }
  }

  /** One delta after the other, as if each were alone. */
  lemma {:induction false} OneByOne(m: Message, sent: set<nat>, a: seq<Delta>, b: seq<Delta>, partial: bool)
    requires AllNamed(m) && Indexed(m, a) && Indexed(m, b) && Indexed(m, a + b) && (partial || a != [])
    ensures var (out, sent1) := FilteredDeltas(m, sent, a, partial);
      var (rest, sent2) := FilteredDeltas(m, sent1, b, partial);
      FilteredDeltas(m, sent, a + b, partial) == (out + rest, sent2)
    decreases a
  {
    hide DueHeaders, FilteredDelta;
    if a == [] {
      assert a + b == b;
      assert [] + FilteredDeltas(m, sent, b, partial).0 == FilteredDeltas(m, sent, b, partial).0;
    } else {
      var (first, sent1) := FilteredDelta(m, sent, a[0], partial);
      assert (a + b)[1..] == a[1..] + b && (a + b)[0] == a[0];
      if |a| > 1 || partial {
        OneByOne(m, sent1, a[1..], b, partial);
        var (mid, sent2) := FilteredDeltas(m, sent1, a[1..], partial);
        var rest := FilteredDeltas(m, sent2, b, partial).0;
        assert first + (mid + rest) == first + mid + rest;
      } else {
        assert a == [a[0]] && a[1..] + b == b;
        OneDelta(m, sent, a[0], partial);
      }
    }
  }

  /** An empty parse sends nothing, not even names that are due, and neither does a refused one. */
  lemma NothingSent(s: State, sent: set<nat>, raw: Message, partial: bool, gen: nat -> string)
    ensures raw == EMPTY_MESSAGE ==> FilteredStep(s, sent, raw, partial, gen) == (s, sent, Ok([]))
    ensures Step(s, raw, gen).1.Err? ==>
              FilteredStep(s, sent, raw, partial, gen) == (Step(s, raw, gen).0, sent, Step(s, raw, gen).1)
  {
    hide FilteredDeltas, Diffs, Extended;
  }
}

/** Which order the results of a run are put in, in terms of the messages alone. */
module ResultOrderLaws {
  import opened ToolResultOrder
  import opened Wrappers

  predicate CallsTools(m: ChatMessage) {
    m.role == "assistant" && m.calls.Some? && m.calls.value != []
  }

  /** A run is made of user messages and tool results, and only the results are moved. */
  lemma RunRoles(m: ChatMessage)
    ensures InUserBlock(m) <==> m.role in {"user", "tool"}
    ensures IsTool(m) <==> m.role == "tool"
  {
  }

  lemma {:induction false} OrderIs(ids: seq<string>, id: string)
    ensures id in OrderOf(ids) <==> id != "" && id in ids
    ensures id in OrderOf(ids) ==>
              OrderOf(ids)[id] < |ids| && ids[OrderOf(ids)[id]] == id && forall j :: OrderOf(ids)[id] < j < |ids| ==> ids[j] != id
    decreases |ids|
  {
    if ids != [] {
      var n := |ids| - 1;
      OrderIs(ids[..n], id);
      assert ids == ids[..n] + [ids[n]];
    }
  }

  /** A result comes at the last place its id has among the ids of the calls; one that answers none of them, or has no
      id, counts as the first.
   */
  lemma KeyIs(m: ChatMessage, ids: seq<string>)
    ensures var id, k := m.toolCallId, Key(m, OrderOf(ids));
      if id == "" || id !in ids then k == 0 else k < |ids| && ids[k] == id && forall j :: k < j < |ids| ==> ids[j] != id
  {
    OrderIs(ids, m.toolCallId);
  }

  /** There is no order to sort by exactly when no call has an id. */
  lemma NoOrderIs(ids: seq<string>)
    ensures OrderOf(ids) == map[] <==> forall i :: 0 <= i < |ids| ==> ids[i] == ""
  {
    forall i | 0 <= i < |ids| ensures ids[i] != "" ==> OrderOf(ids) != map[] {
      OrderIs(ids, ids[i]);
    }
    if OrderOf(ids) != map[] {
      var id :| id in OrderOf(ids);
      OrderIs(ids, id);
    }
  }

  /** What is sorted by is the last message before the run in which the assistant calls tools. */
  lemma {:induction false} LatestIs(msgs: seq<ChatMessage>, before: CallOrder, latest: int)
    requires -1 <= latest < |msgs| && (latest >= 0 ==> CallsTools(msgs[latest]))
    requires forall i :: latest < i < |msgs| ==> !CallsTools(msgs[i])
    ensures LatestOrder(msgs, before) == if latest < 0 then before else OrderOf(msgs[latest].calls.value)
    decreases |msgs|
  {
    hide OrderOf;
    if latest < |msgs| - 1 {
      LatestIs(msgs[..|msgs| - 1], before, latest);
    }
  }
}

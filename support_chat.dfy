/**
 * The support chat, on both sides: the super-admin panel and the tenant's
 * settings tab. A sent message is shown at once under a temporary id (the
 * send time in milliseconds, written in decimal); the copy the database
 * broadcasts later either is already there, replaces that temporary copy,
 * or is appended. The admin panel also filters its tickets by status and
 * counts them.
 *
 * The send call and the clock enter as parameters; the broadcast channel
 * is the sequence of `Receive` calls.
 */
module SupportChat {
  import opened Wrappers
  import opened Strings

  datatype Message = Message(id: string, ticketId: string, senderId: string, senderRole: string,
                             content: string, createdAt: string)

  /** Which screen merges: the tenant's also recognises the id 'temp' as temporary. */
  datatype Panel = AdminPanel | TenantPanel

  /** `/^\d+$/.test(id)`, and on the tenant's side also `id === 'temp'`. */
  predicate Temporary(panel: Panel, id: string)
  {
    (id != [] && AllDigits(id)) || (panel == TenantPanel && id == "temp")
  }

  predicate HasId(msgs: seq<Message>, id: string)
  {
    exists i :: 0 <= i < |msgs| && msgs[i].id == id
  }

  /** No two messages share an id. */
  predicate UniqueIds(msgs: seq<Message>)
  {
    forall i, j :: 0 <= i < j < |msgs| ==> msgs[i].id != msgs[j].id
  }

  /** A temporary message the broadcast copy stands for: same content, same sender role. */
  predicate IsTwin(panel: Panel, m: Message, incoming: Message)
  {
    m.content == incoming.content && m.senderRole == incoming.senderRole && Temporary(panel, m.id)
  }

  /** `prev.find(...)` for the twin: the first one. */
  function FirstTwin(panel: Panel, msgs: seq<Message>, incoming: Message): (r: Option<nat>)
    ensures r.Some? ==> r.value < |msgs| && IsTwin(panel, msgs[r.value], incoming)
    ensures r.Some? ==> forall j :: 0 <= j < r.value ==> !IsTwin(panel, msgs[j], incoming)
    ensures r.None? ==> forall j :: 0 <= j < |msgs| ==> !IsTwin(panel, msgs[j], incoming)
  {
    if msgs == [] then None
    else if IsTwin(panel, msgs[0], incoming) then Some(0)
    else
      var rest := FirstTwin(panel, msgs[1..], incoming);
      if rest.Some? then Some(rest.value + 1) else None
  }

  /** `prev.map(m => m.id === id ? incoming : m)`. */
  function ReplaceId(msgs: seq<Message>, id: string, incoming: Message): (r: seq<Message>)
    ensures |r| == |msgs|
    ensures forall i :: 0 <= i < |r| ==> r[i] == if msgs[i].id == id then incoming else msgs[i]
  {
    seq(|msgs|, i requires 0 <= i < |msgs| => if msgs[i].id == id then incoming else msgs[i])
  }

  /** The realtime handler's updater. */
  function Merge(panel: Panel, prev: seq<Message>, incoming: Message): (r: seq<Message>)
    ensures HasId(prev, incoming.id) ==> r == prev
    ensures !HasId(prev, incoming.id) ==> incoming in r
    ensures |prev| <= |r| <= |prev| + 1
  {
    if HasId(prev, incoming.id) then prev
    else
      var twin := FirstTwin(panel, prev, incoming);
      if twin.Some? then ReplaceId(prev, prev[twin.value].id, incoming)
      else prev + [incoming]
  }

  /** The failure path of a send: every message under the temporary id goes, the rest stay in order. */
  function Rollback(msgs: seq<Message>, tempId: string): (r: seq<Message>)
    ensures |r| <= |msgs|
    ensures forall i :: 0 <= i < |r| ==> r[i].id != tempId
    ensures forall m :: m in r <==> m in msgs && m.id != tempId
  {
    if msgs == [] then []
    else
      var rest := Rollback(msgs[1..], tempId);
      assert msgs == [msgs[0]] + msgs[1..];
      if msgs[0].id == tempId then rest else [msgs[0]] + rest
  }

  /** The filter works piece by piece, so the messages kept stay in their order. */
  lemma {:induction false} RollbackConcat(a: seq<Message>, b: seq<Message>, tempId: string)
    ensures Rollback(a + b, tempId) == Rollback(a, tempId) + Rollback(b, tempId)
    decreases |a|
  {
    if a == [] {
      assert a + b == b;
    } else {
      assert (a + b)[0] == a[0];
      assert (a + b)[1..] == a[1..] + b;
      RollbackConcat(a[1..], b, tempId);
    }
  }

  // ------------------------------------------------------------------ merge

  /** A copy whose id is already shown changes nothing. */
  lemma DuplicateIgnored(panel: Panel, prev: seq<Message>, incoming: Message)
    requires HasId(prev, incoming.id)
    ensures Merge(panel, prev, incoming) == prev
  {
  }

  /**
   * With a new id and a temporary twin, the copy takes the first twin's
   * place and nothing else moves; without a twin it is appended.
   */
  lemma MergeCases(panel: Panel, prev: seq<Message>, incoming: Message)
    requires UniqueIds(prev) && !HasId(prev, incoming.id)
    ensures var r := Merge(panel, prev, incoming);
      FirstTwin(panel, prev, incoming).Some? ==>
        var k := FirstTwin(panel, prev, incoming).value;
        |r| == |prev| && r[k] == incoming && forall i :: 0 <= i < |prev| && i != k ==> r[i] == prev[i]
    ensures FirstTwin(panel, prev, incoming).None? ==> Merge(panel, prev, incoming) == prev + [incoming]
  {
  }

  /** The merge never shows two messages under one id. */
  lemma MergeKeepsIdsUnique(panel: Panel, prev: seq<Message>, incoming: Message)
    requires UniqueIds(prev)
    ensures UniqueIds(Merge(panel, prev, incoming))
  {
    if !HasId(prev, incoming.id) {
      var r := Merge(panel, prev, incoming);
      var twin := FirstTwin(panel, prev, incoming);
      if twin.Some? {
        var k := twin.value;
        forall i, j | 0 <= i < j < |r| ensures r[i].id != r[j].id {
          assert r[i] == if i == k then incoming else prev[i];
          assert r[j] == if j == k then incoming else prev[j];
        }
      } else {
        forall i, j | 0 <= i < j < |r| ensures r[i].id != r[j].id {
          assert r[i] == prev[i];
          if j < |prev| {
            assert r[j] == prev[j];
          }
        }
      }
    }
  }

  /** The copy is shown after the merge. */
  lemma MergeShowsCopy(panel: Panel, prev: seq<Message>, incoming: Message)
    ensures HasId(Merge(panel, prev, incoming), incoming.id)
  {
    var r := Merge(panel, prev, incoming);
    if !HasId(prev, incoming.id) {
      var twin := FirstTwin(panel, prev, incoming);
      if twin.Some? {
        assert r[twin.value] == incoming;
      } else {
        assert r[|prev|] == incoming;
      }
    }
  }

  /** A copy broadcast twice is merged once. */
  lemma MergeIdempotent(panel: Panel, prev: seq<Message>, incoming: Message)
    ensures Merge(panel, Merge(panel, prev, incoming), incoming) == Merge(panel, prev, incoming)
  {
    MergeShowsCopy(panel, prev, incoming);
  }

  // ------------------------------------------------------------------- send

  /** The temporary id: the clock in milliseconds, in decimal. */
  function TempId(now: nat): (id: string)
    ensures Temporary(AdminPanel, id) && Temporary(TenantPanel, id)
  {
    NatToString(now)
  }

  /** The optimistic copy each panel shows: the admin panel as 'super_admin'/'admin', the tenant as 'me'/'tenant'. */
  function Optimistic(panel: Panel, ticketId: string, content: string, now: nat, createdAt: string): (m: Message)
    ensures m.id == TempId(now) && m.content == content
  {
    match panel
    case AdminPanel => Message(TempId(now), ticketId, "super_admin", "admin", content, createdAt)
    case TenantPanel => Message(TempId(now), ticketId, "me", "tenant", content, createdAt)
  }

  /** Appending a message whose id is new and then rolling it back gives the list back. */
  lemma {:induction false} RollbackUndoesSend(prev: seq<Message>, m: Message)
    requires !HasId(prev, m.id)
    ensures Rollback(prev + [m], m.id) == prev
  {
    if prev == [] {
      assert prev + [m] == [m];
    } else {
      assert (prev + [m])[1..] == prev[1..] + [m];
      assert !HasId(prev[1..], m.id) by {
        forall i | 0 <= i < |prev[1..]| ensures prev[1..][i].id != m.id {
          assert prev[1..][i] == prev[i + 1];
        }
      }
      RollbackUndoesSend(prev[1..], m);
      assert prev[0].id != m.id;
      assert [prev[0]] + prev[1..] == prev;
    }
  }

  /** A rollback after the broadcast copy took the place of the temporary one changes nothing more. */
  lemma {:induction false} RollbackWithoutTemp(msgs: seq<Message>, tempId: string)
    requires !HasId(msgs, tempId)
    ensures Rollback(msgs, tempId) == msgs
  {
    if msgs != [] {
      assert !HasId(msgs[1..], tempId) by {
        forall i | 0 <= i < |msgs[1..]| ensures msgs[1..][i].id != tempId {
          assert msgs[1..][i] == msgs[i + 1];
        }
      }
      RollbackWithoutTemp(msgs[1..], tempId);
      assert msgs[0].id != tempId;
      assert [msgs[0]] + msgs[1..] == msgs;
    }
  }

  /**
   * The round trip of a send: the optimistic copy is appended, and when
   * its broadcast copy (a real, non-temporary id) arrives, it takes the
   * optimistic copy's place at the end.
   */
  lemma SendThenBroadcast(panel: Panel, prev: seq<Message>, ticketId: string, content: string, now: nat,
                          createdAt: string, copy: Message)
    requires forall i :: 0 <= i < |prev| ==> !IsTwin(panel, prev[i], copy)
    requires !HasId(prev, TempId(now)) && copy.id != TempId(now) && !HasId(prev, copy.id)
    requires copy.content == content && copy.senderRole == Optimistic(panel, ticketId, content, now, createdAt).senderRole
    ensures Merge(panel, prev + [Optimistic(panel, ticketId, content, now, createdAt)], copy) == prev + [copy]
  {
    var m := Optimistic(panel, ticketId, content, now, createdAt);
    var shown := prev + [m];
    assert shown[|prev|] == m;
    assert forall i :: 0 <= i < |prev| ==> shown[i] == prev[i];
    assert !HasId(shown, copy.id);
    var twin := FirstTwin(panel, shown, copy);
    assert twin == Some(|prev|);
    var r := ReplaceId(shown, m.id, copy);
    assert r == prev + [copy];
  }

  /** The chat's state: the messages shown and the text box. */
  class Chat {
    var messages: seq<Message>
    var draft: string
    const panel: Panel

    constructor(panel: Panel, loaded: seq<Message>)
      ensures this.panel == panel && messages == loaded && draft == []
    {
      this.panel := panel;
      messages := loaded;
      draft := [];
    }

    /** One broadcast `INSERT` of the open ticket. */
    method Receive(incoming: Message)
      modifies this
      ensures messages == Merge(panel, old(messages), incoming) && draft == old(draft)
    {
      messages := Merge(panel, messages, incoming);
    }

    /**
     * `sendMessage` / `handleSendMessage`: nothing for a blank draft or no
     * open ticket; else the optimistic copy is appended and the box
     * cleared, and a failed call takes the copy away again. Reports whether
     * the call was made.
     */
    method Send(ticketId: Option<string>, now: nat, createdAt: string, callSucceeds: bool) returns (called: bool)
      modifies this
      ensures called <==> !IsBlank(old(draft)) && ticketId.Some?
      ensures !called ==> messages == old(messages) && draft == old(draft)
      ensures called && callSucceeds ==>
        messages == old(messages) + [Optimistic(panel, ticketId.value, old(draft), now, createdAt)] && draft == []
      ensures called && !callSucceeds ==>
        messages == Rollback(old(messages) + [Optimistic(panel, ticketId.value, old(draft), now, createdAt)], TempId(now))
        && draft == []
    {
      if IsBlank(draft) || ticketId.None? {
        return false;
      }
      var tempId := TempId(now);
      var optimisticMsg := Optimistic(panel, ticketId.value, draft, now, createdAt);
      messages := messages + [optimisticMsg];
      draft := [];
      called := true;
      if !callSucceeds {
        messages := Rollback(messages, tempId);
      }
    }
  }

  // ---------------------------------------------------------------- tickets

  datatype Status = Open | InProgress | Resolved | Closed

  datatype Ticket = Ticket(id: string, subject: string, status: Status)

  /** The status menu: 'all' or one status. */
  datatype StatusFilter = All | Only(status: Status)

  /** `filteredTickets`. */
  function FilteredTickets(tickets: seq<Ticket>, filter: StatusFilter): (r: seq<Ticket>)
    ensures |r| <= |tickets|
    ensures forall t :: t in r <==> t in tickets && (filter.All? || t.status == filter.status)
  {
    if tickets == [] then []
    else
      var rest := FilteredTickets(tickets[1..], filter);
      assert forall t :: t in tickets <==> t == tickets[0] || t in tickets[1..];
      if filter.All? || tickets[0].status == filter.status then [tickets[0]] + rest else rest
  }
  /** Filtering works piece by piece: the tickets kept keep their order. */
  lemma {:induction false} FilteredTicketsConcat(a: seq<Ticket>, b: seq<Ticket>, filter: StatusFilter)
    ensures FilteredTickets(a + b, filter) == FilteredTickets(a, filter) + FilteredTickets(b, filter)
    decreases |a|
  {
    if a == [] {
      assert a + b == b;
    } else {
      assert (a + b)[0] == a[0];
      assert (a + b)[1..] == a[1..] + b;
      FilteredTicketsConcat(a[1..], b, filter);
    }
  }


  /** `tickets.filter(t => t.status === s).length`. */
  function CountStatus(tickets: seq<Ticket>, s: Status): nat
  {
    if tickets == [] then 0 else (if tickets[0].status == s then 1 else 0) + CountStatus(tickets[1..], s)
  }

  /** 'all' shows every ticket; a status shows as many tickets as its counter says. */
  lemma {:induction false} FilterAndCounts(tickets: seq<Ticket>, s: Status)
    ensures FilteredTickets(tickets, All) == tickets
    ensures |FilteredTickets(tickets, Only(s))| == CountStatus(tickets, s)
  {
    if tickets != [] {
      FilterAndCounts(tickets[1..], s);
      assert [tickets[0]] + tickets[1..] == tickets;
    }
  }

  /** Every ticket is counted under exactly one status. */
  lemma {:induction false} CountsAddUp(tickets: seq<Ticket>)
    ensures CountStatus(tickets, Open) + CountStatus(tickets, InProgress) + CountStatus(tickets, Resolved)
      + CountStatus(tickets, Closed) == |tickets|
  {
    if tickets != [] {
      CountsAddUp(tickets[1..]);
    }
  }
}

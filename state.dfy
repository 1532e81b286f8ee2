/**
  The state keeper's client table (src/state.rs, and the copy at
  src/main.rs:15-73 that holds a `(number, sender)` tuple in place of
  `ClientState` and behaves the same): a map from a peer's address to its number and its
  outbound sender, the operations that change it in place, the broadcast of a
  snapshot to every client, and the text a snapshot is displayed as.
*/
module ClientTable {
  import opened Text
  import opened IntParse
  import opened Messages
  import opened Channel

  type Table = map<SocketAddr, ClientState>

  /** The table as its clients see it: each address with its number. */
  function SnapshotOf(t: Table): (s: Snapshot)
    ensures s.Keys == t.Keys
    ensures forall a :: a in t ==> s[a] == t[a].number
  {
    map a | a in t :: t[a].number
  }

  /** The addresses in `scope` whose record sends into channel `c`. */
  function HoldersIn(t: Table, c: ChannelId, scope: set<SocketAddr>): set<SocketAddr>
  {
    set a | a in scope && a in t && t[a].sender == c
  }

  /** How many records of the table send into channel `c`. */
  function Fanout(t: Table, c: ChannelId): nat
  {
    |HoldersIn(t, c, t.Keys)|
  }

  function Repeat<T>(x: T, n: nat): (r: seq<T>)
    ensures |r| == n && forall i :: 0 <= i < n ==> r[i] == x
  {
    if n == 0 then [] else Repeat(x, n - 1) + [x]
  }

  /** What one broadcast of table `t` puts into channel `c`: a snapshot of `t` per record sending into `c`. */
  function Broadcast(t: Table, c: ChannelId): seq<ClientMessage>
  {
    Repeat(StateUpdate(SnapshotOf(t)), Fanout(t, c))
  }

  /** Adding one address to the scope adds one holder of its own channel and none of any other. */
  lemma HoldersStep(t: Table, c: ChannelId, scope: set<SocketAddr>, a: SocketAddr)
    requires a in t && a !in scope
    ensures |HoldersIn(t, c, scope + {a})| == |HoldersIn(t, c, scope)| + (if t[a].sender == c then 1 else 0)
  {
    if t[a].sender == c {
      assert HoldersIn(t, c, scope + {a}) == HoldersIn(t, c, scope) + {a};
    } else {
      assert HoldersIn(t, c, scope + {a}) == HoldersIn(t, c, scope);
    }
  }

  /** Channel `c`, which held `before`, once `update` has gone to every record of `done`. */
  function SentTo(t: Table, c: ChannelId, done: set<SocketAddr>, before: seq<ClientMessage>, update: ClientMessage): seq<ClientMessage>
  {
    before + Repeat(update, |HoldersIn(t, c, done)|)
  }

  /** Sending to one more record adds one message to its channel and nothing to any other. */
  lemma SentStep(t: Table, c: ChannelId, done: set<SocketAddr>, a: SocketAddr, before: seq<ClientMessage>, update: ClientMessage)
    requires a in t && a !in done
    ensures SentTo(t, c, done + {a}, before, update) == SentTo(t, c, done, before, update) + if t[a].sender == c then [update] else []
  {
    HoldersStep(t, c, done, a);
  }

  /** No two records share a sender; so it is when every connection brings its own channel. */
  ghost predicate DistinctSenders(t: Table)
  {
    forall a, b :: a in t && b in t && a != b ==> t[a].sender != t[b].sender
  }

  /**
    A broadcast reaches every client of the table and nothing else: a channel
    no record sends into gets nothing, and when senders are distinct every
    client's channel gets exactly one snapshot.
  */
  lemma BroadcastReach(t: Table, c: ChannelId)
    ensures (forall a :: a in t ==> t[a].sender != c) <==> Broadcast(t, c) == []
    ensures DistinctSenders(t) ==> forall a :: a in t && t[a].sender == c ==> Broadcast(t, c) == [StateUpdate(SnapshotOf(t))]
  {
    var h := HoldersIn(t, c, t.Keys);
    if exists a :: a in t && t[a].sender == c {
      var a :| a in t && t[a].sender == c;
      assert a in h;
      if DistinctSenders(t) {
        assert h == {a};
      }
    } else {
      assert h == {};
    }
  }

  /** `Display` of one entry: `<addr> -> <number>` and a line terminator. */
  function Line(a: SocketAddr, n: I64): string
  {
    AddrText(a) + " -> " + IntText(n) + "\n"
  }

  /** The entries of `snap`, displayed in the order `order` visits them. */
  function Lines(snap: Snapshot, order: seq<SocketAddr>): string
    requires forall a :: a in order ==> a in snap
  {
    if order == [] then ""
    else
      var last := order[|order| - 1];
      Lines(snap, order[..|order| - 1]) + Line(last, snap[last])
  }

  /** `order` visits every address of `snap` exactly once (a `HashMap` iteration order). */
  ghost predicate Enumerates(order: seq<SocketAddr>, snap: Snapshot)
  {
    && |order| == |snap|
    && (forall i, j :: 0 <= i < j < |order| ==> order[i] != order[j])
    && (forall a :: a in snap <==> a in order)
  }

  /** Every displayed entry is exactly one line. */
  lemma {:induction false} LinesCount(snap: Snapshot, order: seq<SocketAddr>)
    requires forall a :: a in order ==> a in snap
    ensures NewlineCount(Lines(snap, order)) == |order|
  {
    if order != [] {
      var front := order[..|order| - 1];
      var last := order[|order| - 1];
      LinesCount(snap, front);
      var arrow, nl := " -> ", "\n";
      assert NewlineCount(arrow) == 0 && NewlineCount(nl) == 1;
      IntTextNoNewline(snap[last]);
      AddrTextNoNewline(last);
      NewlineCountAppend(AddrText(last), arrow);
      NewlineCountAppend(AddrText(last) + arrow, IntText(snap[last]));
      NewlineCountAppend(AddrText(last) + arrow + IntText(snap[last]), nl);
      NewlineCountAppend(Lines(snap, front), Line(last, snap[last]));
    }
  }

  /** Displaying a snapshot takes exactly one line per client. */
  lemma DisplayLines(snap: Snapshot, order: seq<SocketAddr>)
    requires Enumerates(order, snap)
    ensures NewlineCount(Lines(snap, order)) == |snap|
  {
    LinesCount(snap, order);
  }

  /**
    `impl Display for State`: one `<addr> -> <number>` line per client, in the
    table's iteration order, which the ghost `order` reports.
  */
  method Display(snap: Snapshot) returns (text: string, ghost order: seq<SocketAddr>)
    ensures Enumerates(order, snap)
    ensures text == Lines(snap, order)
  {
    text, order := "", [];
    var todo := snap.Keys;
    while todo != {}
      invariant Visiting(snap, order, todo)
      invariant text == Lines(snap, order)
      decreases todo
    {
      var a :| a in todo;
      VisitStep(snap, order, todo, a);
      LinesSnoc(snap, order, a);
      text := text + Line(a, snap[a]);
      order := order + [a];
      todo := todo - {a};
    }
    VisitDone(snap, order);
  }

  /** Part way through an iteration: `order` visited so far, each address once, `todo` still to visit. */
  ghost predicate Visiting(snap: Snapshot, order: seq<SocketAddr>, todo: set<SocketAddr>)
  {
    && todo <= snap.Keys
    && (forall i :: 0 <= i < |order| ==> order[i] in snap && order[i] !in todo)
    && (forall a :: a in snap ==> a in todo || a in order)
    && (forall i, j :: 0 <= i < j < |order| ==> order[i] != order[j])
    && |order| + |todo| == |snap|
  }

  lemma VisitStep(snap: Snapshot, order: seq<SocketAddr>, todo: set<SocketAddr>, a: SocketAddr)
    requires Visiting(snap, order, todo) && a in todo
    ensures Visiting(snap, order + [a], todo - {a})
  {
    var order' := order + [a];
    assert forall i :: 0 <= i < |order| ==> order'[i] == order[i];
  }

  lemma VisitDone(snap: Snapshot, order: seq<SocketAddr>)
    requires Visiting(snap, order, {})
    ensures Enumerates(order, snap)
  {
  }

  lemma LinesSnoc(snap: Snapshot, order: seq<SocketAddr>, a: SocketAddr)
    requires forall b :: b in order ==> b in snap
    requires a in snap
    ensures Lines(snap, order + [a]) == Lines(snap, order) + Line(a, snap[a])
  {
    assert (order + [a])[..|order|] == order;
  }

  /** `State`: the client table, owned by the state keeper alone. */
  class State {
    var clients: Table

    /** `State::new`: no clients. */
    constructor ()
      ensures clients == map[]
      ensures SnapshotOf(clients) == map[]
    {
      clients := map[];
    }

    /**
      `add_client`: the address now maps to number 0 and the given sender,
      replacing any earlier record of that address; nothing else changes.
    */
    method AddClient(address: SocketAddr, sender: ChannelId)
      modifies this
      ensures clients == old(clients)[address := ClientState(0, sender)]
      ensures clients.Keys == old(clients).Keys + {address}
      ensures clients[address] == ClientState(0, sender)
      ensures forall b :: b in old(clients) && b != address ==> clients[b] == old(clients)[b]
    {
      clients := clients[address := ClientState(0, sender)];
    }

    /** `remove_client`: the address is gone; no other record changes; a no-op when it is absent. */
    method RemoveClient(address: SocketAddr)
      modifies this
      ensures clients == old(clients) - {address}
      ensures clients.Keys == old(clients).Keys - {address}
      ensures forall b :: b in clients ==> clients[b] == old(clients)[b]
    {
      clients := clients - {address};
    }

    /**
      `set_client_number`: a present address gets the new number and keeps its
      sender; an absent one is not created; no other record changes.
    */
    method SetClientNumber(address: SocketAddr, newNumber: I64)
      modifies this
      ensures clients == if address in old(clients) then old(clients)[address := old(clients)[address].(number := newNumber)] else old(clients)
      ensures clients.Keys == old(clients).Keys
      ensures address in clients ==> clients[address] == old(clients)[address].(number := newNumber)
      ensures forall b :: b in clients && b != address ==> clients[b] == old(clients)[b]
    {
      if address in clients {
        clients := clients[address := clients[address].(number := newNumber)];
      }
    }

    /**
      `send_error_to_client`: one `Error` into the sender of a present address,
      nothing anywhere for an absent one; the table is left alone.
    */
    method SendErrorToClient(net: Channels, address: SocketAddr, message: string)
      modifies net
      ensures forall c :: net.Outbox(c) ==
                          old(net.Outbox(c)) + if address in clients && clients[address].sender == c then [Error(message)] else []
    {
      if address in clients {
        net.Send(clients[address].sender, Error(message));
      }
    }

    /**
      `distribute`: every client's sender gets one `StateUpdate` carrying the
      current snapshot, in the table's iteration order; the table is left alone.
    */
    method Distribute(net: Channels)
      modifies net
      ensures forall c :: net.Outbox(c) == old(net.Outbox(c)) + Broadcast(clients, c)
    {
      var update := StateUpdate(SnapshotOf(clients));
      var todo := clients.Keys;
      ghost var done: set<SocketAddr> := {};
      while todo != {}
        invariant todo !! done && todo + done == clients.Keys
        invariant forall c :: net.Outbox(c) == SentTo(clients, c, done, old(net.Outbox(c)), update)
        decreases todo
      {
        var a :| a in todo;
        forall c ensures SentTo(clients, c, done + {a}, old(net.Outbox(c)), update) ==
                         SentTo(clients, c, done, old(net.Outbox(c)), update) + if clients[a].sender == c then [update] else [] {
          SentStep(clients, c, done, a, old(net.Outbox(c)), update);
        }
        net.Send(clients[a].sender, update);
        todo := todo - {a};
        done := done + {a};
      }
    }
  }
}

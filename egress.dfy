/**
  A connection's writer (`client_sender_loop`, src/main.rs:143-168): it takes
  the messages of its channel in the order they were sent and writes each one
  out, counting them from 0; a snapshot gets an `Update #<count>:` header line
  and one line per client, an error is written after `Error: `.
*/
module Egress {
  import opened Text
  import opened IntParse
  import opened Messages
  import opened ClientTable

  /** `format!("Update #{}:\n", counter)`. */
  function Header(counter: int): string
  {
    "Update #" + IntText(counter) + ":\n"
  }

  /** How the message at position `k` of the channel, shown in `order`, is written out. */
  function Render(m: ClientMessage, k: int, order: seq<SocketAddr>): string
    requires m.StateUpdate? ==> forall a :: a in order ==> a in m.newState
  {
    match m
    case StateUpdate(s) => Header(k) + Lines(s, order)
    case Error(message) => "Error: " + message
  }

  /** `orders[i]` is a display order for the i-th message when it is a snapshot. */
  ghost predicate Orders(q: seq<ClientMessage>, orders: seq<seq<SocketAddr>>)
  {
    && |orders| == |q|
    && forall i :: 0 <= i < |q| && q[i].StateUpdate? ==> Enumerates(orders[i], q[i].newState)
  }

  /** The output for a channel's messages: each rendered in turn, the k-th with counter k. */
  function Transcript(q: seq<ClientMessage>, orders: seq<seq<SocketAddr>>): string
    requires Orders(q, orders)
  {
    if q == [] then ""
    else
      var n := |q| - 1;
      Transcript(q[..n], orders[..n]) + Render(q[n], n, orders[n])
  }

  /**
    `client_sender_loop`: the counter starts at 0 and goes up by one after
    every message, errors included; the output is the channel's messages
    rendered in order, each snapshot in the iteration order `orders` reports.
  */
  method ClientSenderLoop(queue: seq<ClientMessage>) returns (out: string, ghost orders: seq<seq<SocketAddr>>)
    ensures Orders(queue, orders)
    ensures out == Transcript(queue, orders)
  {
    var counter := 0;
    out, orders := "", [];
    var i := 0;
    while i < |queue|
      invariant 0 <= i <= |queue|
      invariant counter == i
      invariant Orders(queue[..i], orders)
      invariant out == Transcript(queue[..i], orders)
    {
      var update := queue[i];
      var s;
      ghost var order;
      s, order := Write(update, counter);
      SliceSnoc(queue, i);
      TranscriptSnoc(queue[..i], orders, update, order);
      out := out + s;
      orders := orders + [order];
      counter := counter + 1;
      i := i + 1;
    }
    SliceAll(queue);
  }

  /** The body of the loop: one message, written with the current counter. */
  method Write(update: ClientMessage, counter: int) returns (s: string, ghost order: seq<SocketAddr>)
    ensures update.StateUpdate? ==> Enumerates(order, update.newState)
    ensures s == Render(update, counter, order)
  {
    match update
    case StateUpdate(newState) =>
      var body;
      body, order := Display(newState);
      s := Header(counter) + body;
    case Error(message) =>
      order := [];
      s := "Error: " + message;
  }

  /** One more message rendered with the next counter value. */
  lemma TranscriptSnoc(q: seq<ClientMessage>, orders: seq<seq<SocketAddr>>, m: ClientMessage, order: seq<SocketAddr>)
    requires Orders(q, orders)
    requires m.StateUpdate? ==> Enumerates(order, m.newState)
    ensures Orders(q + [m], orders + [order])
    ensures Transcript(q + [m], orders + [order]) == Transcript(q, orders) + Render(m, |q|, order)
  {
    var q', o' := q + [m], orders + [order];
    assert q'[..|q|] == q && o'[..|q|] == orders;
    assert forall i :: 0 <= i < |q| ==> q'[i] == q[i] && o'[i] == orders[i];
  }

  /** The display orders of a prefix of the channel. */
  lemma OrdersPrefix(q: seq<ClientMessage>, orders: seq<seq<SocketAddr>>, k: nat)
    requires Orders(q, orders) && k <= |q|
    ensures Orders(q[..k], orders[..k])
  {
    assert forall i :: 0 <= i < k ==> q[..k][i] == q[i] && orders[..k][i] == orders[i];
  }

  /** Output is only ever appended: what the first `k` messages produce begins what all of them produce. */
  lemma {:induction false} TranscriptGrows(q: seq<ClientMessage>, orders: seq<seq<SocketAddr>>, k: nat)
    requires Orders(q, orders) && k <= |q|
    ensures Orders(q[..k], orders[..k])
    ensures Transcript(q[..k], orders[..k]) <= Transcript(q, orders)
    decreases |q| - k
  {
    OrdersPrefix(q, orders, k);
    if k < |q| {
      TranscriptGrows(q, orders, k + 1);
      OrdersPrefix(q, orders, k + 1);
      var q', o' := q[..k + 1], orders[..k + 1];
      assert q'[..k] == q[..k] && o'[..k] == orders[..k];
    } else {
      assert q[..k] == q && orders[..k] == orders;
    }
  }

  /**
    Streaming: message `k` is written, with counter `k`, right after what the
    messages before it produced, and all of that begins the whole output.
  */
  lemma TranscriptPrefix(q: seq<ClientMessage>, orders: seq<seq<SocketAddr>>, k: nat)
    requires Orders(q, orders) && k < |q|
    ensures Orders(q[..k], orders[..k])
    ensures Transcript(q[..k], orders[..k]) + Render(q[k], k, orders[k]) <= Transcript(q, orders)
  {
    TranscriptStep(q, orders, k);
    TranscriptGrows(q, orders, k + 1);
  }

  /** The first `k + 1` messages write what the first `k` write, then message `k`. */
  lemma TranscriptStep(q: seq<ClientMessage>, orders: seq<seq<SocketAddr>>, k: nat)
    requires Orders(q, orders) && k < |q|
    ensures Orders(q[..k], orders[..k]) && Orders(q[..k + 1], orders[..k + 1])
    ensures Transcript(q[..k + 1], orders[..k + 1]) == Transcript(q[..k], orders[..k]) + Render(q[k], k, orders[k])
  {
    OrdersPrefix(q, orders, k);
    OrdersPrefix(q, orders, k + 1);
    assert q[..k + 1][..k] == q[..k] && orders[..k + 1][..k] == orders[..k];
    assert q[..k + 1][k] == q[k] && orders[..k + 1][k] == orders[k];
  }

  /** The lines a message takes on the wire: a header and one per client, or those in the error text. */
  function LineTotal(q: seq<ClientMessage>): nat
  {
    if q == [] then 0
    else
      var m := q[|q| - 1];
      LineTotal(q[..|q| - 1]) + match m case StateUpdate(s) => 1 + |s| case Error(message) => NewlineCount(message)
  }

  /** The output has exactly as many lines as the header and client lines of its snapshots and the error lines. */
  lemma {:induction false} TranscriptLines(q: seq<ClientMessage>, orders: seq<seq<SocketAddr>>)
    requires Orders(q, orders)
    ensures NewlineCount(Transcript(q, orders)) == LineTotal(q)
  {
    if q != [] {
      var n := |q| - 1;
      assert forall i :: 0 <= i < n ==> q[..n][i] == q[i] && orders[..n][i] == orders[i];
      TranscriptLines(q[..n], orders[..n]);
      NewlineCountAppend(Transcript(q[..n], orders[..n]), Render(q[n], n, orders[n]));
      RenderLines(q[n], n, orders[n]);
    }
  }

  lemma RenderLines(m: ClientMessage, k: int, order: seq<SocketAddr>)
    requires m.StateUpdate? ==> Enumerates(order, m.newState)
    ensures NewlineCount(Render(m, k, order)) == match m case StateUpdate(s) => 1 + |s| case Error(message) => NewlineCount(message)
  {
    match m
    case StateUpdate(s) =>
      var number, colon := "Update #", ":\n";
      assert NewlineCount(number) == 0 && NewlineCount(colon) == 1;
      IntTextNoNewline(k);
      NewlineCountAppend(number, IntText(k));
      NewlineCountAppend(number + IntText(k), colon);
      LinesCount(s, order);
      NewlineCountAppend(Header(k), Lines(s, order));
    case Error(message) =>
      var prefix := "Error: ";
      assert NewlineCount(prefix) == 0;
      NewlineCountAppend(prefix, message);
  }

  /** The counter in a header reads back, as an `i64`, as the message's position in the channel. */
  lemma HeaderCounter(k: I64)
    ensures var h := Header(k);
            && |h| >= 10 && h[..8] == "Update #" && h[|h| - 2..] == ":\n"
            && ParseI64(h[8..|h| - 2]) == Ok(k)
  {
    var digits := IntText(k);
    var h := Header(k);
    assert h == "Update #" + digits + ":\n";
    IntTextEnds(k);
    assert h[..8] == "Update #" && h[8..|h| - 2] == digits && h[|h| - 2..] == ":\n";
    ParseDisplayed(k);
  }
}

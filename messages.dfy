/**
  The values that travel between the tasks of the server: a client's record in
  the state table (src/client_state.rs), the messages queued for a connection's
  writer (src/client_message.rs) and the events consumed by the state keeper
  (src/state_keeper_message.rs).
*/
module Messages {
  import opened Text
  import opened IntParse

  type Octet = x: int | 0 <= x < 0x100
  type Port = x: int | 0 <= x < 0x1_0000

  /**
    A peer's socket address. The server listens on an IPv4 loopback address,
    so every peer address is an IPv4 address and a port.
  */
  datatype SocketAddr = SocketAddrV4(a: Octet, b: Octet, c: Octet, d: Octet, port: Port)

  /** The `Display` of a `SocketAddrV4`: `a.b.c.d:port`. */
  function AddrText(addr: SocketAddr): string
  {
    IntText(addr.a) + "." + IntText(addr.b) + "." + IntText(addr.c) + "." + IntText(addr.d) + ":" + IntText(addr.port)
  }

  /** A displayed address is one line fragment: it holds no line terminator. */
  lemma AddrTextNoNewline(addr: SocketAddr)
    ensures NewlineCount(AddrText(addr)) == 0
  {
    IntTextNoNewline(addr.a);
    IntTextNoNewline(addr.b);
    IntTextNoNewline(addr.c);
    IntTextNoNewline(addr.d);
    IntTextNoNewline(addr.port);
    var dot, colon := ".", ":";
    assert NewlineCount(dot) == 0 && NewlineCount(colon) == 0;
    NewlineCountAppend(IntText(addr.a), dot);
    NewlineCountAppend(IntText(addr.a) + dot, IntText(addr.b));
    NewlineCountAppend(IntText(addr.a) + dot + IntText(addr.b), dot);
    NewlineCountAppend(IntText(addr.a) + dot + IntText(addr.b) + dot, IntText(addr.c));
    NewlineCountAppend(IntText(addr.a) + dot + IntText(addr.b) + dot + IntText(addr.c), dot);
    NewlineCountAppend(IntText(addr.a) + dot + IntText(addr.b) + dot + IntText(addr.c) + dot, IntText(addr.d));
    NewlineCountAppend(IntText(addr.a) + dot + IntText(addr.b) + dot + IntText(addr.c) + dot + IntText(addr.d), colon);
    NewlineCountAppend(IntText(addr.a) + dot + IntText(addr.b) + dot + IntText(addr.c) + dot + IntText(addr.d) + colon,
                       IntText(addr.port));
  }

  /**
    The identity of one connection's outbound channel (the `Sender` half of an
    unbounded channel); the acceptor makes a new one per connection.
  */
  type ChannelId = nat

  /** A client's record in the state table. */
  datatype ClientState = ClientState(number: I64, sender: ChannelId)

  /** The state as a client sees it: every address with its number, the senders left out. */
  type Snapshot = map<SocketAddr, I64>

  /** A message queued for one connection's writer. */
  datatype ClientMessage =
    | StateUpdate(newState: Snapshot)
    | Error(message: string)

  /** An event consumed by the state keeper. */
  datatype StateKeeperMessage =
    | NewClient(address: SocketAddr, sender: ChannelId)
    | ClientGone(address: SocketAddr)
    | Message(source: SocketAddr, text: string)
}

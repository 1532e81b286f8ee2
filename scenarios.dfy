/**
  A session of two clients, A and B, each with a channel of its own: A
  connects, B connects, A sends `5`, B sends `abc`, A disconnects.
*/
module Scenarios {
  import opened Text
  import opened IntParse
  import opened Messages
  import opened ClientTable
  import opened Keeper

  const A: SocketAddr := SocketAddrV4(127, 0, 0, 1, 50001)
  const B: SocketAddr := SocketAddrV4(127, 0, 0, 1, 50002)

  // The session event by event, with the line A sends and the line B sends.
  function Run1(): seq<StateKeeperMessage> { [NewClient(A, 1)] }
  function Run2(): seq<StateKeeperMessage> { Run1() + [NewClient(B, 2)] }
  function Run3(fromA: string): seq<StateKeeperMessage> { Run2() + [Message(A, fromA)] }
  function Run4(fromA: string, fromB: string): seq<StateKeeperMessage> { Run3(fromA) + [Message(B, fromB)] }
  function Session(fromA: string, fromB: string): seq<StateKeeperMessage> { Run4(fromA, fromB) + [ClientGone(A)] }

  lemma ParsesFive()
    ensures ParseLine("5\n") == Ok(5)
  {
    var line, five := "5\n", "5";
    assert !IsWhitespace(line[0]) && IsWhitespace(line[1]);
    assert TrimStart(line) == line;
    assert line[..1] == five;
    assert TrimEnd(five) == five;
    assert Trim(line) == five;
    assert five[1..] == [] && DigitValue(five[0]) == 5;
    assert Accumulate(five, 0, true) == Ok(5);
  }

  lemma RejectsAbc()
    ensures ParseLine("abc\n") == Err(InvalidDigit)
  {
    var abc := "abc";
    TrimPadded("", abc, "\n");
    assert "" + abc + "\n" == "abc\n";
    assert !IsDigit(abc[0]);
  }

  // The tables after each event of the session, and their snapshots.
  const T1: Table := map[A := ClientState(0, 1)]
  const T2: Table := map[A := ClientState(0, 1), B := ClientState(0, 2)]
  const T3: Table := map[A := ClientState(5, 1), B := ClientState(0, 2)]
  const T5: Table := map[B := ClientState(0, 2)]
  const S1: Snapshot := map[A := 0]
  const S2: Snapshot := map[A := 0, B := 0]
  const S3: Snapshot := map[A := 5, B := 0]
  const S5: Snapshot := map[B := 0]

  /** A broadcast of a table whose senders are A's channel 1 and B's channel 2. */
  lemma Reach(t: Table, snap: Snapshot)
    requires t.Keys <= {A, B} && SnapshotOf(t) == snap
    requires A in t ==> t[A].sender == 1
    requires B in t ==> t[B].sender == 2
    ensures Broadcast(t, 1) == if A in t then [StateUpdate(snap)] else []
    ensures Broadcast(t, 2) == if B in t then [StateUpdate(snap)] else []
  {
    assert DistinctSenders(t);
    BroadcastReach(t, 1);
    BroadcastReach(t, 2);
  }

  lemma Snapshots()
    ensures SnapshotOf(T1) == S1 && SnapshotOf(T2) == S2 && SnapshotOf(T3) == S3 && SnapshotOf(T5) == S5
  {
    assert A != B;
  }

  lemma Joins()
    ensures Apply(map[], NewClient(A, 1)) == T1
    ensures Apply(T1, NewClient(B, 2)) == T2
  {
  }

  lemma Leaves()
    ensures Apply(T3, ClientGone(A)) == T5
  {
    assert A != B;
  }

  lemma AfterRun1()
    ensures TableAfter(Run1()) == T1
    ensures Delivered(Run1(), 1) == [StateUpdate(S1)] && Delivered(Run1(), 2) == []
  {
    assert Run1() == [] + [NewClient(A, 1)];
    Extend([], NewClient(A, 1));
    Joins();
    Snapshots();
    Reach(T1, S1);
  }

  lemma AfterRun2()
    ensures TableAfter(Run2()) == T2
    ensures Delivered(Run2(), 1) == [StateUpdate(S1), StateUpdate(S2)] && Delivered(Run2(), 2) == [StateUpdate(S2)]
  {
    AfterRun1();
    Extend(Run1(), NewClient(B, 2));
    Joins();
    Snapshots();
    Reach(T2, S2);
  }

  lemma SetsA(fromA: string)
    requires ParseLine(fromA) == Ok(5)
    ensures Apply(T2, Message(A, fromA)) == T3
  {
  }

  lemma AfterRun3(fromA: string)
    requires ParseLine(fromA) == Ok(5)
    ensures TableAfter(Run3(fromA)) == T3
    ensures Delivered(Run3(fromA), 1) == [StateUpdate(S1), StateUpdate(S2), StateUpdate(S3)]
    ensures Delivered(Run3(fromA), 2) == [StateUpdate(S2), StateUpdate(S3)]
  {
    AfterRun2();
    Extend(Run2(), Message(A, fromA));
    SetsA(fromA);
    AcceptOut(fromA);
  }

  lemma AcceptOut(fromA: string)
    requires ParseLine(fromA) == Ok(5)
    ensures StepOut(T2, Message(A, fromA), 1) == [StateUpdate(S3)]
    ensures StepOut(T2, Message(A, fromA), 2) == [StateUpdate(S3)]
  {
    SetsA(fromA);
    Snapshots();
    Reach(T3, S3);
  }

  lemma AfterRun4(fromA: string, fromB: string)
    requires ParseLine(fromA) == Ok(5) && ParseLine(fromB) == Err(InvalidDigit)
    ensures TableAfter(Run4(fromA, fromB)) == T3
    ensures Delivered(Run4(fromA, fromB), 1) == [StateUpdate(S1), StateUpdate(S2), StateUpdate(S3)]
    ensures Delivered(Run4(fromA, fromB), 2) == [StateUpdate(S2), StateUpdate(S3), Error(ErrorText(InvalidDigit))]
  {
    AfterRun3(fromA);
    Extend(Run3(fromA), Message(B, fromB));
    RejectOut(fromB);
  }

  lemma RejectOut(fromB: string)
    requires ParseLine(fromB) == Err(InvalidDigit)
    ensures Apply(T3, Message(B, fromB)) == T3
    ensures StepOut(T3, Message(B, fromB), 1) == []
    ensures StepOut(T3, Message(B, fromB), 2) == [Error(ErrorText(InvalidDigit))]
  {
    RejectedStep(T3, B, fromB);
  }

  /**
    Every event but B's rejected line sends one snapshot of the new table to
    each client connected after it, and nothing to a client that is gone; B's
    line earns B alone one error.
  */
  lemma SessionDelivery(fromA: string, fromB: string)
    requires ParseLine(fromA) == Ok(5) && ParseLine(fromB) == Err(InvalidDigit)
    ensures TableAfter(Session(fromA, fromB)) == T5
    ensures Delivered(Session(fromA, fromB), 1) == [StateUpdate(S1), StateUpdate(S2), StateUpdate(S3)]
    ensures Delivered(Session(fromA, fromB), 2) ==
              [StateUpdate(S2), StateUpdate(S3), Error(ErrorText(InvalidDigit)), StateUpdate(S5)]
  {
    AfterRun4(fromA, fromB);
    Extend(Run4(fromA, fromB), ClientGone(A));
    Leaves();
    Snapshots();
    Reach(T5, S5);
  }

  /** One more event of a run, on the two channels of the session. */
  lemma Extend(p: seq<StateKeeperMessage>, e: StateKeeperMessage)
    ensures TableAfter(p + [e]) == Apply(TableAfter(p), e)
    ensures Delivered(p + [e], 1) == Delivered(p, 1) + StepOut(TableAfter(p), e, 1)
    ensures Delivered(p + [e], 2) == Delivered(p, 2) + StepOut(TableAfter(p), e, 2)
  {
    RunSnoc(p, e, 1);
    RunSnoc(p, e, 2);
  }

  /** The session as typed: A sends `5` and B sends `abc`, each with a line terminator. */
  lemma TypedSession()
    ensures TableAfter(Session("5\n", "abc\n")) == T5
    ensures Delivered(Session("5\n", "abc\n"), 1) == [StateUpdate(S1), StateUpdate(S2), StateUpdate(S3)]
    ensures Delivered(Session("5\n", "abc\n"), 2) ==
              [StateUpdate(S2), StateUpdate(S3), Error(ErrorText(InvalidDigit)), StateUpdate(S5)]
  {
    ParsesFive();
    RejectsAbc();
    SessionDelivery("5\n", "abc\n");
  }
}

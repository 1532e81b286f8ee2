/**
  The state keeper (`state_keeper_loop`, src/main.rs:170-199): the single task
  that owns the client table, takes one event at a time and, for each, changes
  the table and broadcasts, or answers a line that does not parse with an error
  to its sender alone.
*/
module Keeper {
  import opened Text
  import opened IntParse
  import opened Messages
  import opened Channel
  import opened ClientTable

  datatype Option<+T> = None | Some(value: T)

  /** `text.trim().parse::<i64>()`. */
  function ParseLine(text: string): Result<I64, IntErrorKind>
  {
    ParseI64(Trim(text))
  }

  /** `format!("{}\n", e)`: the text of the error sent back for a line that does not parse. */
  function ErrorText(kind: IntErrorKind): string
  {
    Describe(kind) + "\n"
  }

  /** A `Message` whose line does not parse. */
  predicate Rejected(ev: StateKeeperMessage)
  {
    ev.Message? && ParseLine(ev.text).Err?
  }

  // ----- one event, as a function of the table before it -----

  /** The table after the keeper handles `ev`. */
  function Apply(t: Table, ev: StateKeeperMessage): Table
  {
    match ev
    case NewClient(a, s) => t[a := ClientState(0, s)]
    case ClientGone(a) => t - {a}
    case Message(a, text) =>
      match ParseLine(text)
      case Ok(n) => if a in t then t[a := t[a].(number := n)] else t
      case Err(_) => t
  }

  /** What handling `ev` on table `t` sends into channel `c`. */
  function StepOut(t: Table, ev: StateKeeperMessage, c: ChannelId): seq<ClientMessage>
  {
    match ev
    case Message(a, text) =>
      (match ParseLine(text)
       case Ok(_) => Broadcast(Apply(t, ev), c)
       case Err(k) => if a in t && t[a].sender == c then [Error(ErrorText(k))] else [])
    case _ => Broadcast(Apply(t, ev), c)
  }

  /** The table after a run of events, starting from `State::new`. */
  function TableAfter(evs: seq<StateKeeperMessage>): Table
  {
    if evs == [] then map[] else Apply(TableAfter(evs[..|evs| - 1]), evs[|evs| - 1])
  }

  /** Everything a run of events sends into channel `c`, in order. */
  function Delivered(evs: seq<StateKeeperMessage>, c: ChannelId): seq<ClientMessage>
  {
    if evs == [] then []
    else
      var before := evs[..|evs| - 1];
      Delivered(before, c) + StepOut(TableAfter(before), evs[|evs| - 1], c)
  }

  // ----- the keeper -----

  /** The body of the keeper's loop: handle one event. */
  method Step(state: State, net: Channels, ev: StateKeeperMessage)
    modifies state, net
    ensures state.clients == Apply(old(state.clients), ev)
    ensures forall c :: net.Outbox(c) == old(net.Outbox(c)) + StepOut(old(state.clients), ev, c)
  {
    ghost var t := state.clients;
    StepOutCases(t, ev);
    match ev
    case NewClient(address, sender) =>
      state.AddClient(address, sender);
      state.Distribute(net);
    case ClientGone(address) =>
      state.RemoveClient(address);
      state.Distribute(net);
    case Message(source, text) =>
      match ParseLine(text)
      case Ok(newNumber) =>
        state.SetClientNumber(source, newNumber);
        state.Distribute(net);
      case Err(e) =>
        var message := ErrorText(e);
        state.SendErrorToClient(net, source, message);
  }

  /** What `StepOut` is for an event that broadcasts and for one that does not. */
  lemma StepOutCases(t: Table, ev: StateKeeperMessage)
    ensures !Rejected(ev) ==> forall c :: StepOut(t, ev, c) == Broadcast(Apply(t, ev), c)
    ensures Rejected(ev) ==> Apply(t, ev) == t
    ensures Rejected(ev) ==> forall c :: StepOut(t, ev, c) ==
                               if ev.source in t && t[ev.source].sender == c then [Error(ErrorText(ParseLine(ev.text).error))] else []
  {
  }

  /** `state_keeper_loop`: a fresh table, then every event in the order received. */
  method StateKeeperLoop(events: seq<StateKeeperMessage>, net: Channels) returns (state: State)
    modifies net
    ensures fresh(state)
    ensures state.clients == TableAfter(events)
    ensures forall c :: net.Outbox(c) == old(net.Outbox(c)) + Delivered(events, c)
  {
    state := new State();
    var i := 0;
    ghost var done: seq<StateKeeperMessage> := [];
    while i < |events|
      invariant 0 <= i <= |events| && done == events[..i]
      invariant state.clients == TableAfter(done)
      invariant forall c :: net.Outbox(c) == old(net.Outbox(c)) + Delivered(done, c)
    {
      var ev := events[i];
      label before:
      Step(state, net, ev);
      RunSnoc(done, ev, 0);
      forall c ensures net.Outbox(c) == old(net.Outbox(c)) + Delivered(done + [ev], c) {
        RunChain(old(net.Outbox(c)), old@before(net.Outbox(c)), net.Outbox(c), done, ev, c);
      }
      SliceSnoc(events, i);
      done := done + [ev];
      i := i + 1;
    }
    SliceAll(events);
  }

  // ----- what one event does -----

  /**
    `NewClient`: the address joins with number 0 and its sender (replacing an
    earlier record of it), and every client, the new one included, is sent
    snapshots of the new table, and nothing else; channels of no client get nothing.
  */
  lemma NewClientStep(t: Table, a: SocketAddr, s: ChannelId)
    ensures var t' := Apply(t, NewClient(a, s));
      && t'.Keys == t.Keys + {a} && t'[a] == ClientState(0, s)
      && (forall b :: b in t && b != a ==> t'[b] == t[b])
      && SnapshotOf(t')[a] == 0
      && (forall b :: b in t' ==> StepOut(t, NewClient(a, s), t'[b].sender) != [])
      && (forall c, m :: m in StepOut(t, NewClient(a, s), c) ==> m == StateUpdate(SnapshotOf(t')))
      && (forall c :: (forall b :: b in t' ==> t'[b].sender != c) ==> StepOut(t, NewClient(a, s), c) == [])
  {
    var t' := Apply(t, NewClient(a, s));
    forall c ensures (forall b :: b in t' ==> t'[b].sender != c) <==> Broadcast(t', c) == [] {
      BroadcastReach(t', c);
    }
  }

  /**
    `ClientGone`: the address is gone (a no-op if it was absent), the others
    keep their records, every remaining client is sent snapshots without it,
    and a channel no remaining client uses, such as the leaver's own, gets nothing.
  */
  lemma ClientGoneStep(t: Table, a: SocketAddr)
    ensures var t' := Apply(t, ClientGone(a));
      && t'.Keys == t.Keys - {a}
      && (forall b :: b in t' ==> t'[b] == t[b])
      && (forall b :: b in t' ==> StepOut(t, ClientGone(a), t'[b].sender) != [])
      && (forall c, m :: m in StepOut(t, ClientGone(a), c) ==> m.StateUpdate? && a !in m.newState)
      && (forall c :: (forall b :: b in t' ==> t'[b].sender != c) ==> StepOut(t, ClientGone(a), c) == [])
      && (DistinctSenders(t) && a in t ==> StepOut(t, ClientGone(a), t[a].sender) == [])
  {
    var t' := Apply(t, ClientGone(a));
    forall c ensures (forall b :: b in t' ==> t'[b].sender != c) <==> Broadcast(t', c) == [] {
      BroadcastReach(t', c);
    }
    if DistinctSenders(t) && a in t {
      assert forall b :: b in t' ==> t'[b].sender != t[a].sender;
    }
  }

  /**
    A `Message` whose line parses as `n`: a present sender's number becomes
    `n` (its channel kept); an absent one creates nothing; either way every
    client is sent snapshots of the table that results.
  */
  lemma AcceptedStep(t: Table, a: SocketAddr, text: string)
    requires ParseLine(text).Ok?
    ensures var n := ParseLine(text).value;
            var t' := Apply(t, Message(a, text));
      && t'.Keys == t.Keys
      && (a in t ==> t'[a] == ClientState(n, t[a].sender) && SnapshotOf(t')[a] == n)
      && (a !in t ==> t' == t)
      && (forall b :: b in t && b != a ==> t'[b] == t[b])
      && (forall b :: b in t' ==> StepOut(t, Message(a, text), t'[b].sender) != [])
      && (forall c, m :: m in StepOut(t, Message(a, text), c) ==> m == StateUpdate(SnapshotOf(t')))
  {
    var t' := Apply(t, Message(a, text));
    forall c ensures (forall b :: b in t' ==> t'[b].sender != c) <==> Broadcast(t', c) == [] {
      BroadcastReach(t', c);
    }
  }

  /**
    A `Message` whose line does not parse: the table is unchanged, no snapshot
    goes anywhere, and exactly one `Error` carrying the parse error and a line
    terminator goes to the sender's channel when the sender is present.
  */
  lemma RejectedStep(t: Table, a: SocketAddr, text: string)
    requires ParseLine(text).Err?
    ensures Apply(t, Message(a, text)) == t
    ensures forall c, m :: m in StepOut(t, Message(a, text), c) ==> m.Error?
    ensures forall c :: |StepOut(t, Message(a, text), c)| == if a in t && t[a].sender == c then 1 else 0
    ensures a in t ==> StepOut(t, Message(a, text), t[a].sender) == [Error(Describe(ParseLine(text).error) + "\n")]
  {
  }

  /**
    A line holding a displayed `i64`, with any surrounding whitespace and its
    line terminator, sets the sender's number to exactly that value.
  */
  lemma DisplayedLineAccepted(t: Table, a: SocketAddr, n: I64, lead: string, trail: string)
    requires AllWhitespace(lead) && AllWhitespace(trail)
    requires a in t
    ensures ParseLine(lead + IntText(n) + trail) == Ok(n)
    ensures Apply(t, Message(a, lead + IntText(n) + trail))[a].number == n
  {
    IntTextEnds(n);
    TrimPadded(lead, IntText(n), trail);
    ParseDisplayed(n);
  }

  // ----- runs of events -----

  predicate JoinsAt(evs: seq<StateKeeperMessage>, i: nat, a: SocketAddr)
    requires i < |evs|
  {
    evs[i].NewClient? && evs[i].address == a
  }

  predicate LeavesAt(evs: seq<StateKeeperMessage>, j: nat, a: SocketAddr)
    requires j < |evs|
  {
    evs[j].ClientGone? && evs[j].address == a
  }

  /** Some `NewClient` of `a` is not followed by a `ClientGone` of `a`. */
  ghost predicate StillJoined(evs: seq<StateKeeperMessage>, a: SocketAddr)
  {
    exists i: nat :: i < |evs| && JoinsAt(evs, i, a) && forall j: nat :: i < j < |evs| ==> !LeavesAt(evs, j, a)
  }

  /** The clients after a run are exactly the addresses that joined and have not left since. */
  lemma {:induction false} KeysAfter(evs: seq<StateKeeperMessage>, a: SocketAddr)
    ensures a in TableAfter(evs) <==> StillJoined(evs, a)
  {
    if evs != [] {
      var n := |evs| - 1;
      var p, e := evs[..n], evs[n];
      KeysAfter(p, a);
      assert forall k :: 0 <= k < n ==> evs[k] == p[k];
      if e.NewClient? && e.address == a {
        assert JoinsAt(evs, n, a);
      } else if e.ClientGone? && e.address == a {
        assert LeavesAt(evs, n, a);
      } else {
        assert a in TableAfter(evs) <==> a in TableAfter(p);
        if StillJoined(p, a) {
          var i: nat :| i < |p| && JoinsAt(p, i, a) && forall j: nat :: i < j < |p| ==> !LeavesAt(p, j, a);
          assert JoinsAt(evs, i, a);
          assert forall j: nat :: i < j < |evs| ==> !LeavesAt(evs, j, a) by {
            forall j: nat | i < j < |evs| ensures !LeavesAt(evs, j, a) {
              if j < n { assert !LeavesAt(p, j, a); }
            }
          }
        }
        if StillJoined(evs, a) {
          var i: nat :| i < |evs| && JoinsAt(evs, i, a) && forall j: nat :: i < j < |evs| ==> !LeavesAt(evs, j, a);
          assert i < n;
          assert JoinsAt(p, i, a);
          assert forall j: nat :: i < j < |p| ==> !LeavesAt(p, j, a) by {
            forall j: nat | i < j < |p| ensures !LeavesAt(p, j, a) {
              assert !LeavesAt(evs, j, a);
            }
          }
        }
      }
    }
  }

  /** The events after the latest `NewClient` of `a` (all of them when there is none). */
  function SinceJoin(evs: seq<StateKeeperMessage>, a: SocketAddr): seq<StateKeeperMessage>
  {
    if evs == [] then []
    else
      var e := evs[|evs| - 1];
      if e.NewClient? && e.address == a then [] else SinceJoin(evs[..|evs| - 1], a) + [e]
  }

  /** The value of the latest line from `a` among `evs` that parsed, if any. */
  function LastAccepted(evs: seq<StateKeeperMessage>, a: SocketAddr): Option<I64>
  {
    if evs == [] then None
    else
      var e := evs[|evs| - 1];
      if e.Message? && e.source == a && ParseLine(e.text).Ok? then Some(ParseLine(e.text).value)
      else LastAccepted(evs[..|evs| - 1], a)
  }

  /**
    A client's number is the value of the latest line it sent since it last
    joined that parsed, or 0 if there is none.
  */
  lemma {:induction false} NumberAfter(evs: seq<StateKeeperMessage>, a: SocketAddr)
    requires a in TableAfter(evs)
    ensures TableAfter(evs)[a].number == match LastAccepted(SinceJoin(evs, a), a) case Some(n) => n case None => 0
  {
    var n := |evs| - 1;
    var p, e := evs[..n], evs[n];
    if e.NewClient? && e.address == a {
    } else {
      assert a in TableAfter(p);
      NumberAfter(p, a);
      var since := SinceJoin(p, a);
      assert SinceJoin(evs, a) == since + [e];
      assert (since + [e])[..|since|] == since;
    }
  }

  /** Every `NewClient` brings a channel no earlier `NewClient` brought. */
  ghost predicate FreshChannels(evs: seq<StateKeeperMessage>)
  {
    forall i, j :: 0 <= i < j < |evs| && evs[i].NewClient? && evs[j].NewClient? ==> evs[i].sender != evs[j].sender
  }

  ghost predicate JoinedWith(evs: seq<StateKeeperMessage>, c: ChannelId)
  {
    exists i :: 0 <= i < |evs| && evs[i].NewClient? && evs[i].sender == c
  }

  /**
    When every connection brings its own channel, no two clients share one,
    and every client's channel is one some `NewClient` brought.
  */
  lemma {:induction false} SendersAfter(evs: seq<StateKeeperMessage>)
    requires FreshChannels(evs)
    ensures DistinctSenders(TableAfter(evs))
    ensures forall a :: a in TableAfter(evs) ==> JoinedWith(evs, TableAfter(evs)[a].sender)
  {
    if evs != [] {
      var n := |evs| - 1;
      var p, e := evs[..n], evs[n];
      assert forall k :: 0 <= k < n ==> evs[k] == p[k];
      assert FreshChannels(p);
      SendersAfter(p);
      var t := TableAfter(p);
      forall a | a in t ensures JoinedWith(evs, t[a].sender) {
        var i :| 0 <= i < |p| && p[i].NewClient? && p[i].sender == t[a].sender;
        assert evs[i] == p[i];
      }
      if e.NewClient? {
        assert JoinedWith(evs, e.sender) by { assert evs[n] == e; }
        forall b | b in t ensures t[b].sender != e.sender {
          var i :| 0 <= i < |p| && p[i].NewClient? && p[i].sender == t[b].sender;
          assert evs[i] == p[i];
        }
      }
    }
  }

  /**
    With a channel per connection, every handled event that broadcasts gives
    each client exactly one new snapshot: that of the table it leaves.
  */
  lemma OneSnapshotEach(evs: seq<StateKeeperMessage>)
    requires FreshChannels(evs) && evs != [] && !Rejected(evs[|evs| - 1])
    ensures var before := evs[..|evs| - 1];
      forall a :: a in TableAfter(evs) ==>
        Delivered(evs, TableAfter(evs)[a].sender) ==
          Delivered(before, TableAfter(evs)[a].sender) + [StateUpdate(SnapshotOf(TableAfter(evs)))]
  {
    var t' := TableAfter(evs);
    SendersAfter(evs);
    forall a | a in t' ensures Broadcast(t', t'[a].sender) == [StateUpdate(SnapshotOf(t'))] {
      BroadcastReach(t', t'[a].sender);
    }
  }

  /** The snapshots in a sequence of queued messages, in order. */
  function Updates(ms: seq<ClientMessage>): seq<Snapshot>
  {
    if ms == [] then []
    else
      var m := ms[|ms| - 1];
      Updates(ms[..|ms| - 1]) + if m.StateUpdate? then [m.newState] else []
  }

  lemma {:induction false} UpdatesAppend(x: seq<ClientMessage>, y: seq<ClientMessage>)
    ensures Updates(x + y) == Updates(x) + Updates(y)
  {
    if y != [] {
      var n := |y| - 1;
      assert (x + y)[..|x + y| - 1] == x + y[..n];
      UpdatesAppend(x, y[..n]);
    } else {
      assert x + y == x;
    }
  }

  /**
    A line that does not parse is invisible to everything after it: dropping
    it from the run changes neither the final table nor any snapshot any
    channel receives.
  */
  lemma {:induction false} RejectedInvisible(before: seq<StateKeeperMessage>, bad: StateKeeperMessage, after: seq<StateKeeperMessage>)
    requires Rejected(bad)
    ensures TableAfter(before + [bad] + after) == TableAfter(before + after)
    ensures forall c :: Updates(Delivered(before + [bad] + after, c)) == Updates(Delivered(before + after, c))
  {
    if after == [] {
      assert before + [bad] + after == before + [bad];
      assert before + after == before;
      RejectedLast(before, bad);
    } else {
      var n := |after| - 1;
      var front, e := after[..n], after[n];
      RejectedInvisible(before, bad, front);
      assert after == front + [e];
      Regroup(before, [bad], front, e);
      Regroup(before, [], front, e);
      assert before + [] == before;
      AgreeingRuns(before + [bad] + front, before + front, e);
    }
  }

  lemma Regroup(x: seq<StateKeeperMessage>, y: seq<StateKeeperMessage>, z: seq<StateKeeperMessage>, e: StateKeeperMessage)
    ensures x + y + (z + [e]) == x + y + z + [e]
  {
  }

  /** Two runs that end in the same table and sent the same snapshots keep doing so after one more event. */
  lemma AgreeingRuns(p: seq<StateKeeperMessage>, p': seq<StateKeeperMessage>, e: StateKeeperMessage)
    requires TableAfter(p) == TableAfter(p')
    requires forall c :: Updates(Delivered(p, c)) == Updates(Delivered(p', c))
    ensures TableAfter(p + [e]) == TableAfter(p' + [e])
    ensures forall c :: Updates(Delivered(p + [e], c)) == Updates(Delivered(p' + [e], c))
  {
    forall c ensures Updates(Delivered(p + [e], c)) == Updates(Delivered(p' + [e], c)) {
      var out := StepOut(TableAfter(p), e, c);
      RunSnoc(p, e, c);
      RunSnoc(p', e, c);
      UpdatesAppend(Delivered(p, c), out);
      UpdatesAppend(Delivered(p', c), out);
    }
    RunSnoc(p, e, 0);
    RunSnoc(p', e, 0);
  }

  /** A channel that held `Delivered(run, c)` past `start`, and then got one step's output, holds the longer run's. */
  lemma RunChain(start: seq<ClientMessage>, mid: seq<ClientMessage>, end: seq<ClientMessage>,
                 run: seq<StateKeeperMessage>, e: StateKeeperMessage, c: ChannelId)
    requires mid == start + Delivered(run, c)
    requires end == mid + StepOut(TableAfter(run), e, c)
    ensures end == start + Delivered(run + [e], c)
  {
    RunSnoc(run, e, c);
  }

  /** A run extended by one event: its table and its deliveries, one step further. */
  lemma RunSnoc(evs: seq<StateKeeperMessage>, e: StateKeeperMessage, c: ChannelId)
    ensures TableAfter(evs + [e]) == Apply(TableAfter(evs), e)
    ensures Delivered(evs + [e], c) == Delivered(evs, c) + StepOut(TableAfter(evs), e, c)
  {
    assert (evs + [e])[..|evs|] == evs;
  }

  /** The last step of `RejectedInvisible`: a rejected line at the end of a run. */
  lemma RejectedLast(before: seq<StateKeeperMessage>, bad: StateKeeperMessage)
    requires Rejected(bad)
    ensures TableAfter(before + [bad]) == TableAfter(before)
    ensures forall c :: Updates(Delivered(before + [bad], c)) == Updates(Delivered(before, c))
  {
    RunSnoc(before, bad, 0);
    forall c ensures Updates(Delivered(before + [bad], c)) == Updates(Delivered(before, c)) {
      var out := StepOut(TableAfter(before), bad, c);
      RunSnoc(before, bad, c);
      UpdatesAppend(Delivered(before, c), out);
      assert Updates(out) == [] by {
        if out != [] {
          assert out[..0] == [];
        }
      }
    }
  }
}

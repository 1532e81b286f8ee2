# multinet: the state keeper and its client writers

multinet is a small TCP server. Every client that connects gets an entry in a
shared table: its peer address and a number, which starts at 0. A client sets
its own number by sending a line holding an integer. After every change, every
connected client is sent the whole table. A line that does not parse earns its
sender alone an error message.

A single task, the state keeper, owns the table. The tasks that read from
connections send it events. Each connection has a writer task that turns the
messages queued for it into text on the socket.

A `NewClient` for an address already in the table replaces its record and
resets its number to 0 (`HashMap::insert`, src/main.rs:28). The `Update #n`
counter is local to each writer (src/main.rs:147, 164) and also counts error
messages.

This project models three parts of that core:

- **The client table `State`** (src/state.rs), in module `ClientTable`. The
  same logic, with a `(number, sender)` tuple in place of `ClientState`, is at
  src/main.rs:15-73; that copy is the one the binary is built from, since
  src/main.rs declares no modules. The behaviour is the same, and it is
  modelled once.
  - It is a class whose `clients` map the operations update in place.
  - `distribute` and `send_error_to_client` put messages into channels. Channels
    are a `Channels` object with one append-only queue per channel id
    (module `Channel`). Every record holds the id of its sender.
  - `Display` is a method that walks the map in an order it does not control.
    A ghost out-parameter reports the order it used.
- **The state keeper** (`state_keeper_loop`, src/main.rs:170-199), in module
  `Keeper`.
  - The state keeper is a method that consumes a sequence of events.
  - Two specification functions describe it: `TableAfter` gives the table
    after a run of events, and `Delivered` gives what each channel has
    received. The loop is proved against both.
  - Lemmas state what a run of events means. An address is in the table iff
    its last `NewClient` is not followed by a `ClientGone`. Its number is the
    last accepted line since it joined. When every connection brings its own
    channel, senders are distinct and each broadcast gives each client exactly
    one snapshot. A rejected line changes no table and no snapshot anyone
    receives.
  - Parsing follows Rust exactly (module `Text` for `str::trim`, module
    `IntParse` for `str::parse::<i64>`). This covers the sign, the digit check,
    overflow in both directions and the `ParseIntError` texts. A displayed
    `i64` parses back to itself.
- **A connection's writer** (`client_sender_loop`, src/main.rs:143-168), in
  module `Egress`.
  - The writer is a loop over the channel's queue.
  - It is proved to produce `Transcript`: each message in order, the k-th with
    counter k. A snapshot gets an `Update #k:` header and one line per client.
    An error is written as `Error: ` followed by its text.
  - Lemmas show that output is only appended, count its lines, and show that
    the header's counter reads back as the message's position.

Module `Scenarios` plays a two-client session through the model. A connects,
then B connects. A sends `5`, B sends `abc`, then A leaves. The scenario
states exactly what each channel receives.

## Model

| member | source | states |
|---|---|---|
| ClientTable.State.constructor | src/state.rs:15-19 | a new table has no clients, and its snapshot is empty |
| ClientTable.State.AddClient | src/state.rs:21-24 | the address maps to number 0 and the given sender, replacing any earlier record of it; the other records are unchanged |
| ClientTable.State.RemoveClient | src/state.rs:26-28 | the address is gone (a no-op when absent); every other record is unchanged |
| ClientTable.State.SetClientNumber | src/state.rs:30-34 | a present address gets the new number and keeps its sender; an absent address is not created; the keys and the other records are unchanged |
| ClientTable.State.SendErrorToClient | src/state.rs:36-46 | exactly one `Error` with the message goes to a present address's sender; no channel gets anything when the address is absent |
| ClientTable.State.Distribute | src/state.rs:48-58 | every channel gets one `StateUpdate` of the current snapshot per record that sends into it, and nothing else |
| Channel.Channels.Send | src/state.rs:52-55 | a send appends the message to its own channel's queue and leaves every other queue unchanged |
| ClientTable.SnapshotOf | src/state.rs:52-54 | the snapshot sent has exactly the table's addresses, each with its number |
| ClientTable.BroadcastReach | src/state.rs:48-58 | a channel gets nothing from a broadcast iff no record sends into it; with distinct senders, each client's channel gets exactly one snapshot |
| ClientTable.Display | src/state.rs:61-68 | the text is one `<addr> -> <number>` line per entry, visiting every address of the snapshot exactly once |
| ClientTable.LinesCount | src/state.rs:61-68 | displaying the entries of any visiting order has exactly one line terminator per entry |
| ClientTable.DisplayLines | src/state.rs:61-68 | a displayed snapshot has exactly as many lines as it has clients |
| Messages.AddrTextNoNewline | src/state.rs:64 | a displayed peer address holds no line terminator, so it stays within its line |
| Text.TrimStartShape | src/main.rs:184 | leading trim keeps a suffix of the text that does not start with whitespace, and drops only whitespace |
| Text.TrimEndShape | src/main.rs:184 | trailing trim keeps a prefix of the text that does not end with whitespace, and drops only whitespace |
| Text.TrimShape | src/main.rs:184 | a trimmed line is no longer than the line, and neither starts nor ends with whitespace |
| Text.TrimPadded | src/main.rs:184 | trimming text padded with whitespace on both sides gives the text back |
| Text.TrimEmpty | src/main.rs:184 | a line trims to nothing iff it is all whitespace |
| Text.NatTextDigits | src/state.rs:64 | a displayed natural number is a non-empty run of decimal digits with no leading zero, and its value is the number |
| Text.IntTextEnds | src/state.rs:64 | a displayed integer starts with a minus sign or a digit and ends with a digit |
| Text.IntTextNoNewline | src/state.rs:64 | a displayed integer holds no line terminator |
| IntParse.AccumulateDigits | src/main.rs:184 | over a run of digits, the loop yields the run's place value when it fits in `i64`, and otherwise the overflow in the direction of the sign |
| IntParse.AccumulateOkDigits | src/main.rs:184 | a successful digit loop only ever read decimal digits |
| IntParse.AccumulateNeverEmpty | src/main.rs:184 | the digit loop never reports an empty string |
| IntParse.ParseI64Accepts | src/main.rs:184 | parsing succeeds iff the text is a signed decimal literal whose value fits in `i64`, and the result is that value |
| IntParse.ParseI64Rejects | src/main.rs:184 | the empty-string error comes exactly from an empty text; a literal above `i64::MAX` or below `i64::MIN` reports the matching overflow |
| IntParse.DisplayedIsLiteral | src/main.rs:184 | a displayed integer is a decimal literal whose value is that integer |
| IntParse.ParseDisplayed | src/main.rs:184 | parsing a displayed `i64` gives it back |
| Keeper.Step | src/main.rs:174-196 | one event updates the table as `Apply` says and appends to each channel exactly what `StepOut` says |
| Keeper.StepOutCases | src/main.rs:174-196 | every event but a rejected line broadcasts the new table; a rejected line leaves the table alone and sends one error to its sender's channel only |
| Keeper.StateKeeperLoop | src/main.rs:170-199 | starting from an empty table, the loop ends with `TableAfter(events)`, and every channel gets exactly `Delivered(events, c)` appended |
| Keeper.NewClientStep | src/main.rs:175-178 | the address joins with number 0 and its sender (replacing an earlier record of it); every client's channel then gets only snapshots of the new table, including the new client's; channels of no client get nothing |
| Keeper.ClientGoneStep | src/main.rs:179-182 | the address leaves and the others keep their records; the remaining clients get snapshots without it; with distinct senders, the leaver's channel gets nothing |
| Keeper.AcceptedStep | src/main.rs:184-188 | a parsed line sets a present sender's number and keeps its channel; an absent sender creates nothing; every client's channel gets only snapshots of the result |
| Keeper.RejectedStep | src/main.rs:190-193 | an unparsable line leaves the table alone; exactly one `Error` carrying the parse error's text and a line terminator goes to the sender's channel; no channel gets anything else |
| Keeper.DisplayedLineAccepted | src/main.rs:184-188 | a line holding a displayed `i64` with surrounding whitespace sets the sender's number to exactly that value |
| Keeper.KeysAfter | src/main.rs:170-199 | after a run, an address is in the table iff some `NewClient` of it is not followed by its `ClientGone` |
| Keeper.NumberAfter | src/main.rs:170-199 | a present address's number is the value of its last accepted line since it last joined, or 0 when there is none |
| Keeper.SendersAfter | src/main.rs:175-178 | when every `NewClient` brings a fresh channel, no two records share a sender, and each record's sender came with a `NewClient` |
| Keeper.OneSnapshotEach | src/main.rs:170-199 | with fresh channels, each event that broadcasts gives each client exactly one new snapshot, that of the resulting table |
| Keeper.RejectedInvisible | src/main.rs:190-193 | removing a rejected line from a run changes neither the final table nor the snapshots any channel receives |
| Keeper.AgreeingRuns | src/main.rs:173-197 | two runs with the same table and the same snapshots per channel still agree after one more event |
| Egress.ClientSenderLoop | src/main.rs:143-168 | the output is the channel's messages rendered in order, the k-th with counter k, each snapshot in the iteration order it was displayed in |
| Egress.Write | src/main.rs:151-162 | a snapshot is written as the `Update #k:` header followed by its displayed lines; an error is written as `Error: ` followed by the message |
| Egress.TranscriptSnoc | src/main.rs:150-165 | one more queued message appends its rendering, with the next counter value, to the output |
| Egress.TranscriptStep | src/main.rs:150-165 | the first k+1 messages write what the first k write, followed by message k with counter k |
| Egress.TranscriptGrows | src/main.rs:150-165 | output is only appended: what a prefix of the queue produces is a prefix of what the whole queue produces |
| Egress.TranscriptPrefix | src/main.rs:150-165 | message k is written, with counter k, directly after the output of the messages before it, all within the whole output |
| Egress.RenderLines | src/main.rs:151-161 | a written snapshot takes one header line plus one line per client; a written error takes the lines of its message |
| Egress.TranscriptLines | src/main.rs:150-165 | the output's line count is the sum of the header and client lines of its snapshots and the lines of its errors |
| Egress.HeaderCounter | src/main.rs:153 | a header is `Update #`, the counter's digits and `:\n`, and those digits parse back as the counter |
| Scenarios.ParsesFive | src/main.rs:184 | the line `5\n` parses as 5 |
| Scenarios.RejectsAbc | src/main.rs:184 | the line `abc\n` fails with an invalid digit |
| Scenarios.SessionDelivery | src/main.rs:170-199 | in the two-client session, A's channel gets three snapshots; B's channel gets two snapshots, the invalid-digit error, then the snapshot without A; only B is left, with number 0 |
| Scenarios.TypedSession | src/main.rs:170-199 | the same outcome for the session typed as `5\n` and `abc\n` |

## Left out

- Accepting connections, binding the listener and `main` (src/main.rs:94-116, 201-204). These are network I/O. The model takes the keeper's event sequence and each writer's queue as inputs.
- `client_receiver_loop` (src/main.rs:118-141): reading lines from a socket is I/O. Its effect is the `Message` and `ClientGone` events it emits, which are inputs here.
- Concurrency. The tasks run as async tasks joined by unbounded channels. The model runs the keeper over one sequence of events and each writer over its channel's queue. How the tasks interleave is not modelled.
- Failure paths:
  - A failed send (`?` after a send, src/state.rs:43, 55) or a failed socket write (src/main.rs:154, 156, 160) ends the task in the source. The model treats sends and writes as always succeeding.
  - A failed `peer_addr` (src/main.rs:176) ends the keeper in the source. In the model, a `NewClient` event carries the peer address it resolved to.
- `write` may write only part of a buffer. The model assumes each `write` writes the whole string.
- Egress.ClientSenderLoop: the counter is an unbounded integer, whereas the source's `i32` counter overflows after 2^31 messages on one connection (a panic in debug builds, wrap-around in release builds).
- Peer addresses are IPv4 only: the server listens on 127.0.0.1. IPv6 addresses and their display are not modelled.
- `HashMap` iteration order is unspecified. `Display` and `distribute` pick the next key nondeterministically, and a ghost sequence reports the order used. Per channel the order of messages is modelled exactly; the order of sends across different channels within one broadcast is not recorded.
- A `StateUpdate` carries a clone of the whole `State`, senders included. The model carries the snapshot of addresses and numbers, which is all a writer displays.
- The `Display` impl of `State` propagates formatter errors (`?` at src/state.rs:64). Formatting into a `String` never fails, so this path is not modelled.

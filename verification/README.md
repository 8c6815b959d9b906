# qtalk-go: a verified model of qmux and its RPC layer

qtalk-go multiplexes channels over one byte transport (`mux/`) and runs calls over
those channels (`rpc/`). A qmux session is the channel part of the SSH connection
protocol (sections 5.1 to 5.3 of RFC 4254) with its own message numbers: each end keeps
a table of channels whose ids are reused, a credit window per channel and direction, a
linked-list receive buffer, and an open/confirm/EOF/close state machine.

The project states the protocol twice and connects the two. Module `Protocol` gives
every packet and every local call as a step function on values; the classes `Pending`,
`SendWindow`, `ChanList`, `Channel`, `Session`, `Encoder` and `Decoder` are the
imperative code, proved to do exactly those steps, down to the bytes written: a
`Session` works on `Channel` objects in memory, and module `Objects` ties each of them
to its channel of the model, for packets and for users' calls alike. All results about
runs are about sequences of those steps.

| module | content |
|---|---|
| `Wire` | the frame format, both directions, with the stateful encoder and decoder |
| `Window`, `Buffer` | the credit ledger and the linked-list byte queue |
| `Protocol` | one endpoint as step functions |
| `Chunking` | the loop of `Write` |
| `Mux` | the channel table and the channel object |
| `Objects`, `SessionLoop` | many channel objects in memory, each confined to its own part; the session object and its loop |
| `Link`, `System` | one channel between two ends and its invariant; two endpoints with any number of channels over FIFO links |
| `Guarantees` | what every reachable state of such a session satisfies |
| `Progress` | when a waiting writer can be released |
| `EndOfStream` | when a reader that has seen the end of the stream has seen everything |
| `WriteRule`, `LateWrites` | when a write is safe, what becomes of one that is not, and two sessions that show it |
| `Races` | three sessions of applications that keep their rules and get less than they expect |
| `AnyPeer`, `Flooding` | one endpoint against a peer that sends anything; when such a peer blocks the receive loop |
| `Handshake`, `Grants`, `LoopLaws` | the same endpoint in terms of what it says on the wire: how channels open, which packets end the session and what the others do, how much may be sent, what the loop makes of its bytes; limits are written out as numbers |
| `Router`, `Removal`, `Submux` | selector routing in one mux, what Remove does to it, and routing through graphs of muxes |
| `RpcFrame`, `RpcCall` | length-prefixed framing, and one call and its response |

## What the theorems rest on

- One handled packet is one step. Handing an accepted channel to the inbox and sending
  its confirmation (mux/session.go:212-218) are one step too; apart, an accepted channel
  could send Close before its confirmation. The automatic answer to a Close and the
  closing of the window behind it (mux/channel.go:200-204) are one step; an iteration of
  `Write` that falls between the two ends in the same state as one that reserved before
  the Close arrived, which is covered.
- `Write` is modelled both with atomic iterations and with the two halves apart: it
  tests `sentEOF` once and then loops (`Enter`, `Leave`), and between the reservation of a
  chunk and its encoding (`Reserving`, `Encoding`) anything may happen. At most one chunk
  per channel is between the two.
- Links between the two endpoints are reliable and ordered. A run may stop at any
  point, so every statement about reachable states also covers an end that stops.
- Waiting on a condition variable is a step that is not enabled. The race between Accept
  and the timer is a free choice at each delivery of an Open.
- `Read` is two steps, taking bytes and crediting them, so several readers and
  any delay between the two are covered.
- The results of `Guarantees` concern runs in which no data is sent on a channel behind
  a Close of its own end. With atomic iterations this is the rule of
  mux/channel.go:90-91: no Write after one's own Close while the window is open; writing
  to a channel that the peer has closed, or being half-way through a Write when its Close
  arrives, is covered, since such a Write sends nothing (`ClosedWindowSendsNothing`). A
  chunk that was reserved when the peer's Close arrived breaks it without any fault of the
  application. `WriteRule` shows that the condition is exactly what is needed. The RPC layer
  can break it too: the goroutine at rpc/client.go:52-58 closes the channel on
  cancellation while `call` may still be writing, and a handler can send after Return.
- Ids are unbounded in `System`; `WireCarriesTheLink` adds that they fit in 32 bits.

## Where the code does less than is promised

Each of these is kept as the code has it, shown by a concrete run or input where one is
short, and given the exact condition under which the promise holds.

- `Write` tests only `sentEOF`, and its frames bypass the gate in `send`, so data still
  goes out behind a Close. In every continuation that data goes astray, whatever the
  sender does next: it ends the peer's session (`CloseThenWriteCrashesThePeer`) or lands
  in the buffer of another channel that has taken the id
  (`LateDataReachesAnotherChannel`). `WriteIsSafeIffNotClosed` is the condition.
- An application that never writes after its own Close can still bring this about: a
  Write that has reserved a chunk when the peer's Close arrives encodes it behind the
  automatic answer, and the peer's session ends (`OvertakenWriteCrashesThePeer`).
- A CloseWrite that falls inside a Write lets data out behind the end-of-stream mark, and
  the reader sees the end before that data (`EndComesTooSoon`). It always has what was
  written before the CloseWrite (`EndOfStreamMeansComplete`), and everything when no
  CloseWrite falls inside a Write (`TidyStreamsAreComplete`); data can be missed if and
  only if it is sent after CloseWrite (`MissedIffAfterCloseWrite`).
- `Return` closes the channel, but the responder goes on accepting `Send`, `Return` and
  `Continue`; what they write is behind the Close (`ReturnThenMore`,
  `SendBehindCloseBreaksTheCaller`). This happens if and only if a handler makes any call
  after a Return (`LateIffAfterReturn`).
- `Write` of 2^32 bytes or more never finishes, because `min` converts the length to
  uint32: it stops at a multiple of 2^32 bytes and sends empty frames for ever
  (`WriteEnds`, `WriteFinishesIffShort`).
- A writer can wait for ever if its peer's `Open` was cancelled after the confirmation
  was sent (`StrandedIsReached`); closing its own channel is then the only release
  (`ReleasableIffHeldOrClosed`).
- A peer that confirms a channel and then refuses it makes the loop forget a channel that
  the application holds; its readers and writers are never woken
  (`StruckChannelStaysOpen`, `EndedClosesAllButStruck`).
- A peer that floods an Open with answers blocks the receive loop on the full `msg`
  queue (`FloodBlocksTheLoop`). This happens if and only if its answers to some Open
  outnumber the returns of that Open by more than sixteen (`WedgedIffFlooded`), and only
  that Open's own return lets the loop go on (`WedgedUntilOpenReturns`).
- `Remove` deletes from the map and not from the sorted index, so a removed prefix
  still answers (`RemovedPrefixStillAnswers`). One removal is honoured if and only if
  the pattern is not a prefix pattern (`RemoveIsHonouredIffExact`); after a whole run,
  answers follow the map if and only if every prefix pattern ever registered is still
  there with its first handler (`TruthfulIffFirstKept`).
- `Match` descends into a sub-mux only through a prefix match. A selector equal to the
  mount pattern returns the sub-mux itself. Mounts on "/" that form a cycle make `Match`
  recurse without end (`SelfMountIsACycle`, `MatchReturnsIffNoSlashCycle`).
- `Continue` with a single error leaves a nil on the channel that the caller does not
  read, so the next `Receive` is one value behind (`AlignedIff`).

## Model

| member | source | states |
|---|---|---|
| `Guarantees.NoPacketIsRejected` | mux/session.go:174-224 | after every run of two endpoints that send no data behind their Closes, with any interleaving of opens, time-outs, writes and their halves, reads, ends of stream, closes and id reuse, whatever is delivered next is accepted: no invalid channel, oversized or over-window data, bad window update or misplaced answer, and the loop does not hang |
| `Guarantees.CreditIsConserved` | mux/channel.go:103-170 | sender's window + bytes reserved and not yet encoded + data in flight + unread + read but not credited + credit in flight is 2^30 until the receiver sends Close, and at most 2^30 always |
| `Guarantees.StreamIsIntact` | mux/channel.go:98-141 | the bytes accepted by Write are those returned by Read, then those buffered, then those in flight, in order |
| `Guarantees.EndOfStreamMeansComplete` | mux/util_buffer.go:83-88 | a reader that sees the end of the stream has read at least everything written before the first CloseWrite, and a prefix of everything written; the writer has signalled EOF or Close |
| `EndOfStream.TidyStreamsAreComplete` | mux/channel.go:84-101 | in every run in which no CloseWrite falls inside a Write of the same channel, a reader that sees the end of the stream has read everything |
| `EndOfStream.MissedIffAfterCloseWrite` | mux/channel.go:98-101 | from any invariant state, there is a schedule of deliveries and reads after which the reader sees the end and has not read all, following a call that sends data, if and only if CloseWrite was called before that call |
| `Guarantees.FramesAreRoutable` | mux/session.go:183-193 | every frame in flight, not only the next one, is addressed to the slot that holds the channel it was sent for |
| `Guarantees.IdsAreUnambiguous` | mux/util_chanlist.go:16-45 | two frames in flight with the same id belong to the same incarnation of the channel |
| `Guarantees.IdFreedOnlyWhenClosed` | mux/channel.go:199-205 | an established channel is out of the table only after both sides have sent Close, with nothing left in flight towards it; until then the peer's Close is the last frame still to come |
| `Guarantees.WireCarriesTheLink` | mux/frame/encoder.go:19-29 | the frames in flight are recovered exactly from the bytes on the wire, as long as ids fit in 32 bits |
| `System.StepIsLocal` | mux/session.go:174-194 | from an invariant state no step fails, and a step is a step of exactly one channel: both ends and all in-flight frames of every other channel are unchanged |
| `System.DeliveryIsLocal` | mux/session.go:174-224 | the next frame finds its own channel, is accepted, and keeps that channel's invariant |
| `System.RunsKeepInv` | mux/session.go:154-158 | the two-endpoint invariant is inductive over every run that sends no data behind a Close of its own end; writes on a channel closed by the peer are allowed |
| `System.Mirror` | mux/session.go:44-56 | exchanging the endpoints throughout a run exchanges them in the result, so every one-sided result holds for both sides |
| `Link.OpKeepsGood` | mux/channel.go:84-170 | every local call, and each half of a Write's iteration, keeps the one-channel invariant in every phase of opening and closing, unless it sends data behind a Close of its own end |
| `Link.ClosedWindowSendsNothing` | mux/util_window.go:50-68 | once the window is closed, which the automatic answer to a Close sees to, an iteration of Write sends nothing and reserves nothing to send |
| `Link.HandleKeepsGood` | mux/channel.go:194-264 | the next packet of a channel in the invariant is accepted by handle, is addressed to the channel's own id, and keeps the invariant |
| `Link.AnswerKeepsGood` | mux/session.go:197-224 | answering an Open, accepted or timed out, sets up the one-channel invariant at both ends |
| `WriteRule.WriteIsSafeIffNotClosed` | mux/channel.go:90-124 | from any invariant state, after any call that sends data, be it a Write or the encoding of a chunk reserved before, every obedient continuation is free of failures and misrouted frames if and only if its end had not sent Close before |
| `WriteRule.LateFrameGoesAstray` | mux/channel.go:98-124 | in every continuation in which the receiver obeys the rule and the sender does anything at all, with more late data and any reuse of ids, nothing fails while data sent behind a Close is on its way, and when its turn comes its id selects no channel or another one; delivering it ends the session or corrupts that other channel's stream |
| `WriteRule.StrayFrameDoesHarm` | mux/session.go:188-193 | such a frame, with any frames behind it, ends the session, with "invalid channel" when the slot is empty, or its bytes end up in another channel's buffer |
| `LateWrites.CloseThenWriteCrashesThePeer` | mux/session.go:188-191 | open, close, write one byte: the peer's loop ends with "invalid channel" |
| `LateWrites.LateDataReachesAnotherChannel` | mux/util_chanlist.go:16-27 | open, close, write one byte, and the peer reuses the id before it arrives: the byte is in the buffer of the peer's new channel, which the writer has never seen |
| `Races.OvertakenWriteCrashesThePeer` | mux/channel.go:103-117 | reserve a chunk, answer the peer's Close, encode the chunk: the peer's loop ends with "invalid channel", although this end's application never called Close |
| `Races.EndComesTooSoon` | mux/channel.go:84-101 | a CloseWrite between Write's test and its first frame: the reader sees the end of the stream with the byte still in flight |
| `Races.StrandedIsReached` | mux/session.go:117-119 | open, accept, cancel, and 64 full chunks: a reachable state in which a writer waits on a channel whose Open was cancelled |
| `Progress.WriterCanBeReleased` | mux/util_window.go:50-68 | no credit deadlock: a waiting writer whose peer holds or will hold the channel, or whose own side has closed it, is released by a run of deliveries and the peer's own reading |
| `Progress.CancelledOpenStrandsWriter` | mux/session.go:117-119 | if the peer's Open was cancelled and its own side has not closed, the waiting writer waits through every run in which its own side does not close |
| `Progress.ReleasableIffHeldOrClosed` | mux/util_window.go:50-68 | in every reachable state a waiting writer can be released if and only if the peer's Open was not cancelled or its own side has sent Close |
| `AnyPeer.AlwaysOk` | mux/session.go:154-194 | against any peer the endpoint invariant (table, window ledger, close gate, life cycle, the queue a blocked loop waits on) holds after every sequence of packets, calls, opens and transport loss |
| `AnyPeer.WindowBoundsTheBuffer` | mux/channel.go:160-170 | against any peer, myWindow + unread + read but not credited is 2^30; the buffer never exceeds it and the addition never wraps |
| `AnyPeer.ClosedChannelsAreUnlisted` | mux/channel.go:172-205 | a table entry sits at its own id and was never closed, so close runs at most once and nothing is sent on a closed `msg` |
| `AnyPeer.AtMostOneClose` | mux/channel.go:143-158 | each channel emits at most one Close and nothing but data after it, however often closing is requested |
| `AnyPeer.EndedClosesAllButStruck` | mux/session.go:160-162 | after the loop has returned, a channel held by an application has buffer and window closed if and only if the peer did not refuse it after confirming it |
| `AnyPeer.StruckChannelStaysOpen` | mux/channel.go:230-236 | a peer that confirms and then refuses leaves a held channel open for ever |
| `Handshake.BadOpenIsRefused` | mux/session.go:198-202 | an Open is answered by one OpenFailure to its sender's id, with table and channels unchanged, if and only if its packet size is below 9 or above 2^31 |
| `Handshake.GoodOpenMakesAChannel` | mux/session.go:204-223 | any other Open makes exactly one channel, empty and at the lowest free id, that sends to the peer's id within the peer's packet size and window; accepted, it is held and confirmed with that id, 2^30 and 2^24; timed out, nobody holds it and the peer is told that it failed |
| `Handshake.OpenAnnounces` | mux/session.go:103-113 | Open makes one channel at the lowest free id, held by nobody and without credit, and sends that id, 2^30 and 2^24 |
| `Handshake.HeldChannelsHaveALimit` | mux/channel.go:217-228 | after every sequence of inputs from any peer, a channel that an application holds has a packet size from 9 to 2^31, so a Write of fewer than 2^32 bytes on it never spins |
| `Handshake.PacketEndsSessionIff` | mux/channel.go:194-264 | after every sequence of inputs, a packet ends the session if and only if it is not an Open and no listed channel takes it: data over 2^24 bytes or beyond the 2^30 that are unread and uncredited, an update that overflows uint32, an answer to a channel that the peer opened or with an unusable packet size, or an unknown id |
| `Handshake.PacketDoes` | mux/channel.go:194-264 | what a packet that is taken does to its channel (buffer, end of stream, one answer to Close, credit, peer's id and packet size, leaving the table), and that it does nothing to any other |
| `Grants.NeverSendsUngranted` | mux/channel.go:103-121 | after every sequence of inputs from any peer, the data frames of a channel are the bytes its Writes reported, they and a reserved chunk never exceed the credit the peer has granted, and while the window is open the balance is exactly the difference |
| `Flooding.WedgedIffFlooded` | mux/channel.go:217-236 | after every sequence of inputs, the loop waits on a full `msg` queue if and only if the answers taken in for some Open exceed the returns of that Open by more than sixteen |
| `Flooding.AnswersAreCounted` | mux/channel.go:217-236 | answers queued or held by the waiting loop, plus returns, are the answers taken in, for every channel and every sequence of inputs |
| `Flooding.FloodBlocksTheLoop` | mux/session.go:24-27 | an Open and seventeen answers block the loop |
| `Flooding.WedgedUntilOpenReturns` | mux/channel.go:224-236 | a loop that waits on a full `msg` queue, with the packet's other effects already made, goes on with a call if and only if that call is the pending return of the Open the queue belongs to |
| `SessionLoop.AnyBytesAreARun` | mux/session.go:154-171 | whatever the application and the peer have done before, and whatever bytes arrive then, the endpoint that the loop leaves, when it blocks, when it has failed and after its exit, is one that the results of `AnyPeer` are about |
| `SessionLoop.ProcessIsRun` | mux/session.go:154-194 | running the loop on bytes is feeding the decoded packets one by one, from any state, up to the packet it blocks on |
| `LoopLaws.LoopExplained` | mux/session.go:154-194 | from any state and any bytes, the packets the loop takes are the front of the stream without a gap; of its own accord it sends one answer to each Open and one Close to each Close of a channel that had not sent its own, with the fields written out, and nothing else; and it stops because what follows cannot be decoded, is refused with that reason, or blocks |
| `SessionLoop.Session.OnePacket` | mux/session.go:174-194 | decodes one packet and handles it on the channel objects as the step function does: state, bytes sent, and failure; a refused packet changes nothing, a blocked one has changed what the source changes before it blocks |
| `SessionLoop.Session.HandleOpen` | mux/session.go:197-224 | a packet size outside 9 to 2^31 changes nothing and is answered by the byte 102 and the sender's id; otherwise a new object takes the first free id and is confirmed or refused |
| `SessionLoop.Session.Dispatch` | mux/session.go:183-193 | of all channel objects only the one that the id selects changes; it leaves the table when handle says so, even when the loop then blocks |
| `SessionLoop.Session.Open` | mux/session.go:103-113 | a new object takes the first free id and announces it with the window and packet size |
| `SessionLoop.Session.ReceiveAll` | mux/session.go:154-158 | packets until one fails or blocks, with the final state of all objects, the reason and all bytes sent |
| `SessionLoop.Session.Exit` | mux/session.go:160-162 | exactly the objects in the table are closed, all others are untouched, and the table is emptied |
| `SessionLoop.Session.NewChannel` | mux/session.go:138-150 | a fresh object with the first free id, in the table, apart from all other objects |
| `SessionLoop.Configure` | mux/session.go:204-208 | the settings of an inbound channel, with the window update that cannot fail |
| `Objects.ChangeIsConfined` | mux/channel.go:34-74 | a change to one channel object, within its own memory, leaves every other object and its channel of the model as it was |
| `Objects.HandleAt` | mux/channel.go:194-241 | handle on one of many objects is the step of its channel, and the others still match the model |
| `Objects.TeardownAt` | mux/channel.go:172-182 | close on one of many objects, likewise |
| `Objects.WriteAt` | mux/channel.go:98-124 | a whole Write is a run of atomic Write steps of its channel, and its n bytes are what the model records as written |
| `Objects.ReadAt` | mux/channel.go:127-141 | a whole Read is the model's reading step and crediting step, and the bytes returned are what the model records as read |
| `Objects.CloseAt` | mux/channel.go:92-95 | Close is the model's closing step |
| `Objects.CloseWriteAt` | mux/channel.go:84-88 | CloseWrite is the model's end-of-stream step |
| `Objects.WriteStepsAre` | mux/channel.go:103-121 | iterating the atomic Write step gives the same frames, window and record as the loop |
| `Mux.Channel.Write` | mux/channel.go:98-124 | for data of any length the loop sends exactly the frames of `Chunking.WriteLoop`, returns the number of payload bytes sent, and sends nothing after EOF |
| `Mux.Channel.Read` | mux/channel.go:127-141 | returns the first bytes of the buffer, credits the peer the same amount unless Close was sent, and reports the end only on an empty closed buffer |
| `Mux.Channel.Send` | mux/channel.go:143-158 | the close gate: encodes unless Close was sent before, and records a Close |
| `Mux.Channel.CloseWrite` | mux/channel.go:84-88 | records EOF, and sends it through the gate |
| `Mux.Channel.Close` | mux/channel.go:92-95 | sends Close through the gate, once |
| `Mux.Channel.AdjustWindow` | mux/channel.go:160-170 | adds to the window in uint32 and sends the update through the gate |
| `Mux.Channel.Teardown` | mux/channel.go:172-182 | closes the buffer, the answer queue and the window, and shuts the gate |
| `Mux.Channel.HandleData` | mux/channel.go:243-264 | the three rejections in order, none of which changes the channel; otherwise window and buffer move by the payload |
| `Mux.Channel.Handle` | mux/channel.go:194-241 | every packet type: new channel state, bytes sent, and whether the channel leaves the table or the loop blocks |
| `Mux.ChanList.Add` | mux/util_chanlist.go:16-27 | the first free slot is reused before the table grows |
| `Mux.ChanList.GetChan` | mux/util_chanlist.go:30-37 | the entry at an id, none beyond the table |
| `Mux.ChanList.Delete` | mux/util_chanlist.go:39-45 | frees that slot and no other |
| `Mux.ChanList.DropAll` | mux/util_chanlist.go:48-61 | returns every entry in slot order and empties the table |
| `Mux.ListedMember` | mux/util_chanlist.go:48-61 | what dropAll returns is exactly what is in the table |
| `Chunking.WriteSendsAPrefix` | mux/channel.go:98-124 | the frames carry a prefix of the data in order, each with 1 to limit bytes but for the empty frame of a loop that spins; success exactly when the prefix is everything; credit drawn equals bytes sent; it waits only on an empty open window |
| `Chunking.WriteEnds` | mux/channel.go:19-24 | how Write ends, from length and window alone: done, waiting, end of stream, or spinning exactly when the data has at least 2^32 bytes and the window exceeds the length modulo 2^32 |
| `Chunking.ChunksAreFull` | mux/channel.go:19-24 | every frame but the last is exactly as large as the peer's limit allows, so Write sends no more frames than it must |
| `Chunking.SpinningIsForEver` | mux/channel.go:103-121 | a spinning loop sends the same empty frame and is left in the same state, again and again |
| `Chunking.LoopIsSteps` | mux/channel.go:103-121 | the loop is made of the atomic Write steps that runs of a session are made of |
| `Chunking.WriteFinishesIffShort` | mux/channel.go:98-124 | iterating the modelled Write step with credit at every turn can use up the data if and only if it is shorter than 2^32 bytes |
| `Chunking.ShortWritesFinish` | mux/channel.go:103-121 | below 2^32 bytes every iteration with credit makes progress, so as many iterations as bytes suffice |
| `Chunking.LongWritesStall` | mux/channel.go:103-121 | at or above 2^32 bytes, what is left never falls below a multiple of 2^32, whatever credit arrives |
| `Chunking.IterationsSplitTheData` | mux/channel.go:109-120 | however credit arrives, what was written and what is left make up the data |
| `Buffer.Pending.Write` | mux/util_buffer.go:40-47 | appends to the byte queue, also when empty |
| `Buffer.Pending.Read` | mux/util_buffer.go:60-93 | the first min(len, available) bytes of the queue, the rest of the destination untouched, EOF only when closed and drained; the loop terminates |
| `Buffer.Pending.EndOfFile` | mux/util_buffer.go:51-56 | closes without losing contents |
| `Buffer.Pending.constructor` | mux/util_buffer.go:28-36 | an empty open queue |
| `Window.AddIsExact` | mux/util_window.go:19-36 | the wrap-around test refuses an update exactly when the true sum reaches 2^32 |
| `Window.ReserveTakesTheMinimum` | mux/util_window.go:50-68 | reserve waits exactly on an empty open window, and otherwise takes the smaller of request and balance; the writer gets it exactly while the window is open |
| `Window.LedgerBalances` | mux/util_window.go:19-68 | over every sequence of add, reserve and close, the window is what was accepted minus what was granted |
| `Window.SendWindow.Grow` | mux/util_window.go:19-36 | adds exactly n or refuses and changes nothing |
| `Window.SendWindow.Take` | mux/util_window.go:50-68 | grants at most the request and the balance, never zero to a real request on an open window, also drains a closed window |
| `Window.SendWindow.Shut` | mux/util_window.go:40-45 | closes and keeps the balance |
| `Wire.DecodeEncode` | mux/frame/decoder.go:23-91 | decoding an encoded message returns it and leaves the suffix untouched |
| `Wire.EncodingLayout` | mux/frame/message.go:3-11 | the seven messages as bytes: type bytes 100 to 106, each field in its place, the payload last |
| `Wire.Be32Bytes` | mux/frame/message_eof.go:21-26 | a field is four bytes, most significant first |
| `Wire.DecodingLayout` | mux/frame/decoder.go:23-91 | those bytes, whatever follows them, decode to that message with its fields in place, and what follows is left |
| `Wire.DecodingErrors` | mux/frame/decoder.go:23-70 | which streams fail, and with which error |
| `Wire.StreamRoundTrip` | mux/frame/decoder.go:23-70 | repeated decoding of concatenated encodings returns the list and stops at the suffix |
| `Wire.EncodeDecode` | mux/frame/decoder.go:23-70 | bytes that decode are re-encoded to exactly the bytes consumed, and the message is well formed |
| `Wire.DecodesExactlyEncodings` | mux/frame/decoder.go:72-91 | decoding succeeds exactly on streams that begin with an encoding |
| `Wire.PrefixFree` | mux/frame/message_openconfirm.go:25-30 | no encoding is a proper prefix of another |
| `Wire.StreamInjective` | mux/frame/encoder.go:19-29 | the bytes determine the list of messages sent |
| `Wire.UnpackPack` | mux/frame/message_open.go:24-29 | big-endian fields survive packing |
| `Wire.PackUnpack` | mux/frame/decoder.go:60-62 | bytes survive unpacking into fields |
| `Wire.Encoder.DataBytes` | mux/frame/message_data.go:23-29 | the header filled in place, then the payload, is the encoding |
| `Wire.Encoder.Send` | mux/frame/encoder.go:19-29 | one message appends exactly its encoding, whose bytes `EncodingLayout` gives |
| `Wire.Decoder.Next` | mux/frame/decoder.go:23-70 | the step-by-step reader returns the message that `DecodingLayout` gives or the error that `DecodingErrors` gives, and consumes exactly one frame |
| `Router.CleanIsIdempotent` | rpc/handler.go:66-75 | cleaning a clean selector changes nothing |
| `Router.CleanMeans` | rpc/handler.go:66-75 | cleaning, character by character: a "/" in front where it is missing, every dot a slash |
| `Router.LongestPrefixWins` | rpc/handler.go:119-140 | with index and map in step, one level of Match is decided by the map alone: the exact entry; else the longest registered prefix p, where a leaf answers with itself and p, and a mux is asked for the rest with p + rest the cleaned selector; else nothing |
| `Router.LongestIsUnique` | rpc/handler.go:115-118 | the longest matching prefix is unique |
| `Router.FromMapIsUnique` | rpc/handler.go:115-118 | the map alone determines the answer to every selector |
| `Router.OrderDoesNotMatter` | rpc/handler.go:119-140 | two muxes with equal maps answer alike, whatever their indexes look like |
| `Router.RegistrationOrderDoesNotMatter` | rpc/handler.go:144-183 | the same registrations in any two orders answer every selector alike |
| `Router.RunsKeepOrder` | rpc/handler.go:104-183 | after any run of Handle and Remove the index is sorted by length and longer than the prefix patterns of the map by exactly the number of prefix patterns removed |
| `Router.RegistrationMeans` | rpc/handler.go:144-168 | Handle adds exactly one entry, under the cleaned pattern, with a "/" behind it if the handler is a mux and lacks one; it refuses nil, and exactly a pattern already registered |
| `Router.MuxesStayOnPrefixes` | rpc/handler.go:149-151 | after every run of Handle and Remove, each mux in map and index is mounted on a pattern that ends in "/" |
| `Router.RegisteredAnswers` | rpc/handler.go:119-168 | after an accepted Handle, a selector below the new prefix pattern, with no exact entry and no longer prefix, goes to the new handler, and a mux is asked for what is left of it |
| `Router.RegisteredExactly` | rpc/handler.go:122-126 | the selector that is the new pattern itself is answered by the new handler |
| `Router.SyncedIffNothingDropped` | rpc/handler.go:104-113 | index and map hold the same prefix patterns if and only if the run never removed a registered one |
| `Removal.RemoveAffectsOnlyTheExactSelector` | rpc/handler.go:104-113 | Remove changes the answer for no other selector |
| `Removal.RemovedIsGone` | rpc/handler.go:104-113 | Remove takes the cleaned pattern, and no other, out of the map |
| `Removal.RemovedPrefixStillAnswers` | rpc/handler.go:104-113 | a removed prefix still answers for what lies below it |
| `Removal.RemoveIsHonouredIffExact` | rpc/handler.go:104-113 | after removing a registered pattern from a mux in step, every selector is answered from the map if and only if the pattern does not end in "/" |
| `Removal.TruthfulIffFirstKept` | rpc/handler.go:104-183 | after any run of Handle and Remove, every selector is answered from the map if and only if each prefix pattern ever registered is still registered with the handler of its first registration |
| `Removal.TruthfulIffCurrent` | rpc/handler.go:128-137 | the same in terms of the index: the first entry of each pattern is the one in the map |
| `Removal.FirstRegistrationAnswers` | rpc/handler.go:170-183 | the index answers for a pattern with its first registration for ever, since later entries go behind it |
| `Router.RespondMux.Handle` | rpc/handler.go:144-168 | does what `RegistrationMeans` says of its state: registers a cleaned pattern, mounts a mux on a prefix, refuses nil and duplicates without change |
| `Router.RespondMux.AppendSorted` | rpc/handler.go:170-183 | the binary search inserts after all patterns that are at least as long |
| `Router.RespondMux.Remove` | rpc/handler.go:104-113 | returns the handler and edits only the map |
| `Router.RespondMux.Match` | rpc/handler.go:119-140 | the scan of the index computes one level of Match, which `LongestPrefixWins` states from the map |
| `Submux.MatchReturnsIffNoSlashCycle` | rpc/handler.go:119-140 | Match returns on every selector from every mux of a graph if and only if no cycle is made of "/" mounts alone |
| `Submux.SelfMountIsACycle` | rpc/handler.go:144-151 | a mux mounted in itself on "/" is a graph with such a cycle |
| `Submux.NoCycleIffChainsEnd` | rpc/handler.go:130-137 | no mux reaches itself through "/" mounts if and only if every chain of them ends, and then within as many steps as there are muxes |
| `Submux.DescentShrinks` | rpc/handler.go:130-137 | descending shortens the cleaned selector, except through a mount on "/", where its length stays |
| `Submux.MatchReturns` | rpc/handler.go:119-140 | termination by selector length, then distance along "/" mounts |
| `Submux.MatchMeans` | rpc/handler.go:119-140 | the law across levels: where answers follow the map, Match gives the exact entry, else for the longest prefix p the leaf or what the sub-mux gives for the rest behind p, else nothing |
| `Submux.CycleNeverReturns` | rpc/handler.go:132-134 | with a cycle, one long selector exhausts every bound |
| `Submux.MoreFuelSameAnswer` | rpc/handler.go:119-140 | the answer does not depend on the bound used to define it |
| `RpcFrame.FrameReadsBackIffShort` | rpc/frame.go:33-83 | a frame reads back if and only if its body is shorter than 2^32 bytes |
| `RpcFrame.FrameLayout` | rpc/frame.go:33-48 | a frame is the length of the body in four bytes, most significant first, and the body |
| `RpcFrame.UnframeMeans` | rpc/frame.go:65-77 | what any bytes read as: the announced body and what follows it, or io.EOF at the very end or right behind a prefix, or an unexpected end |
| `RpcFrame.FramesStayAligned` | rpc/frame.go:65-83 | a body that the codec refuses does not disturb the frames after it |
| `RpcFrame.ValuesRoundTrip` | rpc/frame.go:33-83 | with a codec that inverts itself, the values sent are the values received |
| `RpcFrame.PartialReadSeesPrefix` | rpc/frame.go:65-83 | a reader with part of the stream has seen a prefix of the frames sent |
| `RpcFrame.CompleteGrows` | rpc/frame.go:65-83 | more bytes only add frames |
| `RpcFrame.FramesOverChannel` | rpc/frame.go:11-83 | at any moment of any session run, in the middle of a frame too, the frames complete at one end are a prefix of those written completely at the other, and at end of stream include all that were complete at the CloseWrite |
| `RpcFrame.FrameDecoder.Decode` | rpc/frame.go:65-83 | the decoder's result depends on the concatenated bytes only, not on how the reader cuts them |
| `RpcFrame.FrameEncoder.Encode` | rpc/frame.go:33-48 | writes one frame, or nothing when the codec refuses |
| `RpcFrame.Reader.ReadFull` | rpc/frame.go:65-76 | pieces do not matter, only their concatenation |
| `RpcCall.ValuesAgree` | rpc/client.go:96-134 | a caller asking for as many replies as were returned gets exactly those, one nil standing for none; after Continue it next receives the handler's next send |
| `RpcCall.CallOverChannel` | rpc/client.go:96-134 | the same over a mux channel, for values and errors: at any moment of any session run, while the server is still writing, once enough frames have arrived the caller gets exactly the answer, then the sends that have arrived, in order |
| `RpcCall.RequestOverChannel` | rpc/client.go:71-94 | at any moment, while the caller is still writing header and arguments, the server has decoded nothing, or the caller's selector followed by the arguments that have arrived, each in its place; and every mux routes the decoded selector as it routes the caller's |
| `RpcCall.ClientRequest` | rpc/client.go:71-94 | writes the header with the caller's selector and then the arguments in order, each in one frame, up to the first that the codec refuses |
| `RpcCall.ReceiveMeans` | rpc/client.go:96-134 | what call returns on any items: nothing without a header, the error in the header, too few values, or exactly the values asked for, item by item, and what is left unread |
| `RpcCall.ExchangeMeans` | rpc/rpc.go:117-155 | a response item by item: header with error and flag, the values or one nil, then the sends |
| `RpcCall.ServeEmits` | rpc/rpc.go:105-155 | what the server sends is one header, the values, and after Continue the sends; after Return it closes right behind the values |
| `RpcCall.SilenceIsNil` | rpc/server.go:95-101 | a handler that never answers yields one nil, and the channel is closed behind it |
| `RpcCall.ErrorsAgree` | rpc/rpc.go:121-133 | a single error arrives as RemoteError with the same text whatever was asked for, leaving its nil, and after Continue the sends, unread |
| `RpcCall.AlignedIff` | rpc/client.go:113-134 | after Continue both ends are in step if and only if it was not a single error and the caller asked for as many values as were sent, counting none as one on both sides |
| `RpcCall.ErrorsStick` | rpc/rpc.go:129-137 | an error set by one response stays in every later header |
| `RpcCall.ClosedUnlessContinued` | rpc/server.go:95-101 | the channel is left open if and only if the handler continued and never returned |
| `RpcCall.LateIffAfterReturn` | rpc/rpc.go:150-152 | the server writes behind its own Close if and only if the handler makes any call after a Return |
| `RpcCall.ReturnThenMore` | rpc/rpc.go:105-155 | Return then Send, and Return twice, both write behind the Close |
| `RpcCall.ReturnEndsTheExchange` | rpc/rpc.go:150-152 | whatever follows the first Return, what was written before the Close is what had been written by then |
| `RpcCall.SendBehindCloseBreaksTheCaller` | rpc/rpc.go:105-107 | in every reachable state in which the server has closed and still has credit, the next value it sends makes the session unsafe |
| `RpcCall.RoutingIgnoresSpelling` | rpc/server.go:75 | cleaning the selector before routing does not change where it goes |
| `RpcCall.Responder.Respond` | rpc/rpc.go:117-155 | sets flag and header, sends header and values in order, then closes unless continued; only the first close counts |
| `RpcCall.Responder.SendAll` | rpc/rpc.go:144-148 | sends the values in order |
| `RpcCall.ServerRespond` | rpc/server.go:88-102 | any sequence of handler calls, then the default response and the close rule: what is written, and where the Close falls |
| `RpcCall.ClientReceive` | rpc/client.go:96-134 | the reply loop reads exactly the targets asked for, one value when there are none; it closes without a header, and otherwise unless continued, also when values are missing |

## Left out

- Transports, listeners, QUIC and WebRTC (`mux/dial_*.go`, `mux/listen*.go`, `talk/`, `x/`): replaced by byte streams and FIFO links.
- Transport write errors: `Encode` always succeeds, so error returns of `enc.Encode` are not modelled; a transport that stops is covered as a run that stops and, at one end, as `AnyPeer.Lost`.
- Mutexes, condition variables, timers, contexts and debug output: steps are atomic, and races are choices of the schedule.
- `x/cbor/mux`: a reduced copy of the mux without flow control; it would only repeat easier results.
- `fn/`, `exp/`, `cmd/qtalk`, `interop/`, `mux/proxy.go` and `rpc/proxy.go`: reflection, command line and copying between streams.
- JSON and CBOR codecs: a codec is any pair of functions, and where it matters one that inverts itself on the header and value items that travel. Decoding a value into a reply target of the wrong type is not modelled.
- `Session.Accept`, `Session.Wait` and `RespondMux.Handler`: they only wait, or only supply a default. Likewise `Session.Open` is cut at its wait; what it does with the answer is the step `OpenReturn` of module `Protocol`.
- Channels left in the table after a time-out or a cancelled Open are kept there, unowned; nothing is claimed about reclaiming them, because the code does not.
- Mux.Channel.Write: returns `Waiting` where the source blocks, and `Spinning` after the first empty frame where the source repeats it for ever.
- Mux.Channel.Read: takes a buffer of fewer than 2^32 bytes, which `AnyPeer.WindowBoundsTheBuffer` shows is always so; a wait is returned as `WouldBlock`.
- SessionLoop.Session.ReceiveAll: runs without users' calls in between; those are shown to keep the same view of memory one by one, in `Objects`.
- SessionLoop.Session.Exit: requires the table invariant, which `SessionLoop.AnyBytesAreARun` shows for every input.
- Router.RespondMux.Match: stops at the call of a sub-mux; `Submux` follows those calls through the graph of muxes.
- Submux.MatchReturns: Match across muxes is a bounded function, because it need not return; the bound is quantified away in `Submux.MatchReturnsIffNoSlashCycle`.
- RpcCall.ServerRespond: records what a handler writes after the Close as written; when the caller's Close has come back by then, the channel refuses it and nothing is sent. A handler is the list of calls it makes on its responder; what it reads from the request is not part of its behaviour.

# Verified model of wosh

wosh carries an SSH session from a browser to a host through a listener, over connections that die and are
replaced. This project models its hardest logic in Dafny 4.11 and proves what that logic is for. Check it with
`dafny verify dfyconfig.toml`.

## What is modelled

- **The resumable tunnel.** `Replay.dfy` (the replay record), `Framing.dfy` and `TunnelCodec.dfy` (frames and the
  incremental decoder, with `Bytes.dfy`, `Postcard.dfy` and `Utf8.dfy` below them), `ListenerSession.dfy` and
  `ClientSession.dfy` (what each task does between two awaits, as classes proved against functions on values), and
  `TunnelSystem.dfy`: client, listener and any number of connections as one step system of 24 steps. A connection
  is two FIFO directions that may be cut at any moment, losing any suffix of what was written and not read.
  `TunnelInvariant.dfy` and `TunnelSteps.dfy` prove one invariant kept by every step; `TunnelTheorems.dfy` draws
  exactly-once, in-order delivery from it. `TunnelWindow.dfy`, `TunnelHarm.dfy` and `TunnelHandover.dfy` show that
  two of its hypotheses are needed, and when; `TunnelLate.dfy` is a run in which a late Hello ends a healthy
  session; `TunnelPumps.dfy` has the stretches of a run they are built from.
  `ListenerRuns.dfy` has what the listener's half does over whole runs: ACK cadence, order of the queue, parks, ends.
- **The client's resume machine.** `ClientMachine.dfy`: every interleaving of reader, writer, prober, resume loop,
  page events; `ClientLiveness.dfy`: when the prober asks and gives up; `ClientResume.dfy`: what starts, holds back and
  ends a resume; `ClientFlow.dfy`: the client's streams and ACKs; `ResumeBudget.dfy`: how often the loop dials.
- **Bulk channels.** `BulkChannel.dfy` (one channel at the granularity of its mutex), `ChannelEnds.dfy` (which event
  ends it how, and what `finish` sets going) and `ChannelRegistry.dfy` (the registry and the one way to a closed
  session).
- **Parsers.** `KnownHosts.dfy`, `Sniffer.dfy`, `EcdsaDer.dfy` (two languages), `SftpNames.dfy`, `SftpFramer.dfy`,
  `Correlation.dfy`, `ConnStrings.dfy` over `RadixText.dfy`; `SshWire.dfy` has the SSH integers and strings.

## Hypotheses of the delivery theorem

- `Quiet`: between `resume_session`'s snapshot (listener-core/src/session.rs:784-795) and its attach (803) neither
  the replay nor the counter moves, for a connection the client waits on or uses. The code does not enforce this
  across the await at 797-799. For the client's open attempt the hypothesis is exact (`HarmlessIffQuiet`), and the
  two runs of `TunnelWindow` reach both kinds of harm, with no counter to show for either.
- `Clean`: when `reader_task` takes over from the handshake (wosh-client/src/lib.rs:1341) the handshake's decoder
  holds no part of a frame. The code does not enforce this: `reader_task` starts from an empty decoder (599), so what
  the old one held of a frame is lost and the rest of it is read as if it were a frame. `TornFrameGarbles` is such a
  run, and by `FreshDecoderIff` the frames that follow come out right only if the cut is at a frame boundary.
- `Narrow`: the spans the two ends convert to `usize` on a client's own resume stay below 2^32. While neither
  replay has overflowed this follows (`NoGapWithoutOverflow`), so it bounds only sessions that lost replay data.
- Built into the steps: a connection the client closed delivers nothing further to it, and is closed before Hello
  goes out on the next one (wosh-client/src/lib.rs:1038-1040). The first `consume_frames` of `reader_task_with`,
  which has no generation check, runs before its connection can be closed for the same reason.

Frames stand for their encodings in the step system. `DecoderYieldsPrefix` is the bridge to octets torn anywhere for
a decoder that reads its direction from the first octet, as the listener's does and the client's handshake does;
`FreshDecoderIff` is the bridge for the client's second decoder. A direction whose reader is out of step is read by
its octets in the step system too.
Counters are unbounded where the code has u64; 32-bit `usize`, u32 request ids, u32 lengths and JavaScript's
int32 shifts are written out.

## Where code and documentation differ

The code is followed.

- The protocol says that on a resume each side trims its replay to the peer's counter (tunnel/src/lib.rs:20-25);
  the client does (wosh-client/src/lib.rs:1183-1186), the listener only reads a tail
  (listener-core/src/session.rs:784).
- The comment at listener-core/src/session.rs:232-235 holds only under `Quiet`.
- The comment at wosh-client/src/lib.rs:1305-1306, that frames which arrived in the same packet as the reply are not
  lost, holds for whole frames; a partial one is lost and with it the framing.
- `Replay::ack` says that after an overflow it drains what is there, resume being invalid anyway
  (tunnel/src/lib.rs:329-331), while a recent tail is meant to stay replayable (tunnel/src/lib.rs:447-449). An ACK after
  an overflow drops octets that were neither acknowledged nor too old; exactly when is `AckKeepsTailIff`.
- `IdAllocator` says the correlator detects a collision; `insert` overwrites (sftp/src/lib.rs:926-929). When that
  can happen is `ExactlyOnceIff`.
- `glob_match` documents `*` as any run; a `*` in the value is taken literally first. When that matters is
  `GlobIsRightIff`.

## Model

| member | source | states |
|---|---|---|
| Replays.ReplayAfterAnyHistory | tunnel/src/lib.rs:292-354 | after any sequence of `sent` and `ack` calls, stale and nonsense acks included, the buffer is a suffix of everything sent and within REPLAY_CAP; for a span that fits `usize` a tail is handed out iff it is still buffered, overflow or not, and is exactly the stream from that offset; without overflow it exists iff acked <= received <= sent_total |
| Replays.TailExactIffSpanFits | tunnel/src/lib.rs:343-353 | a tail that is handed out equals the missing suffix if and only if the span fits the 32 bits of `usize` on wasm32 |
| Replays.TailDefinedIff | tunnel/src/lib.rs:343-353 | without overflow `tail_from` answers exactly on the unacknowledged range |
| Replays.HonestSpanFits | tunnel/src/lib.rs:310-353 | without overflow every counter a peer can honestly hold spans less than 2^32, so the tail is the missing suffix |
| Replays.WideSpanIsTruncated | tunnel/src/lib.rs:310-353 | a history with a wide span: after one `sent` of 2^32 + 1 octets and no ack, a peer that has none of them is sent the last octet as if it were the whole tail |
| Replays.SentTracks | tunnel/src/lib.rs:311-321 | `sent` keeps the buffer a suffix of the whole stream within the cap, and exact up to `acked` unless it overflowed |
| Replays.AckTracks | tunnel/src/lib.rs:324-334 | `ack` keeps the same; it moves `acked` only forward and never past what was sent |
| Replays.ReplayBuffer.constructor | tunnel/src/lib.rs:306-308 | starts with nothing sent |
| Replays.ReplayBuffer.Record | tunnel/src/lib.rs:311-321 | the new record is the specified one and still tracks the stream extended by the payload |
| Replays.ReplayBuffer.Acknowledge | tunnel/src/lib.rs:324-334 | the new record is the specified one and still tracks the same stream |
| Replays.ReplayBuffer.Tail | tunnel/src/lib.rs:343-353 | returns the specified tail; when the span fits it is the stream from `received` on |
| Replays.OverflowedIff | tunnel/src/lib.rs:311-321 | the flag is set iff some `sent` would have made the buffer exceed 4 MiB |
| Replays.AckKeepsTailIff | tunnel/src/lib.rs:324-353 | an ack whose own tail was still held leaves that tail held iff nothing unacknowledged had been dropped before, or nothing is missing |
| Replays.AckDropsUnacknowledged | tunnel/src/lib.rs:329-333 | the failing case as a history: 5 MiB sent, two acknowledged, and of the three the peer misses, which were all held, the tail is refused afterwards |
| TunnelCodec.HelloRoundTrip | tunnel/src/lib.rs:106-124 | every Hello parses back from its postcard encoding, with or without a resume |
| TunnelCodec.ReplyRoundTrip | tunnel/src/lib.rs:126-144 | so does every reply |
| TunnelCodec.FrameRoundTrip | tunnel/src/lib.rs:182-224 | every frame the two ends can build parses back from its type octet and body |
| TunnelCodec.NextOnPrefix | tunnel/src/lib.rs:250-286 | on a buffer that starts with an encoding, `next_frame` waits until the frame is whole and then takes exactly it |
| TunnelCodec.DecoderYieldsPrefix | tunnel/src/lib.rs:239-287 | any frame list, torn at any octet, fed in any chunks with `next_frame` calls anywhere, comes out as a prefix without error; all of it once all octets arrived |
| TunnelCodec.SplittingIsDecodable | wosh-client/src/lib.rs:801-811 | splitting before framing loses nothing, and every piece is a non-empty DATA frame the peer's decoder accepts |
| TunnelCodec.ReplayTailIsDecodable | listener-core/src/session.rs:246-249 | a replay tail of any size up to REPLAY_CAP, split by either writer and chopped anyhow, leaves a decoder that starts at its first octet in one piece; what one that starts elsewhere does is `FreshDecoderIff` |
| TunnelCodec.Decoder.Feed | tunnel/src/lib.rs:245-247 | appends to the buffer |
| TunnelCodec.Decoder.Take | tunnel/src/lib.rs:250-286 | hands out the next frame, waits, or reports corruption; a bad frame is drained first, an oversized header is not |
| TunnelCodec.GoldenFrames | tunnel/src/lib.rs:393-398 | type octet, length and body of DATA, ACK, PING and PONG on the wire, as the golden test of the repository has them |
| TunnelCodec.GoldenHandshake | tunnel/src/lib.rs:399-415 | and of a Hello with and without a resume and the three replies |
| TunnelCodec.BadFramesRefused | tunnel/src/lib.rs:182-286 | a word that is not eight octets and an unknown type are refused once the frame is whole, which is taken off |
| TunnelCodec.OversizedRefused | tunnel/src/lib.rs:250-262 | a header that announces more than a megabyte is refused at once and stays |
| Framing.TornStreamYieldsPrefix | tunnel/src/lib.rs:239-287 | the general statement behind both the tunnel decoder and the SFTP framer |
| TunnelTheorems.ExactlyOnceInOrder | listener-core/src/session.rs:236-257 | in every reachable state of client, listener and dying connections, under the three named hypotheses: what the listener queued for sshd is the first `received` octets the client recorded, what the core was fed is the first `received` octets the listener recorded, and sshd got a prefix of what the core produced |
| TunnelTheorems.NoGapWithoutOverflow | listener-core/src/session.rs:784-795 | without overflow the 32-bit hypothesis is not needed; the client's own Hello is offered, and a `Resumed` is answered with, exactly the suffix the other side is missing |
| TunnelTheorems.CountersAreHonest | tunnel/src/lib.rs:310-353 | acked <= the peer's received <= sent_total on both sides, in every reachable state, under the same hypotheses |
| TunnelTheorems.OwnHelloIsAnswered | listener-core/src/session.rs:784-795 | the claim in the client's current Hello is its own counter and `tail_from` on it is defined and exact |
| TunnelTheorems.AnswerIsResumable | wosh-client/src/lib.rs:1178-1201 | the offset in `Resumed` is the one the listener will read this connection from, and the client still holds everything after it |
| TunnelTheorems.LateHelloMeetsGapIff | listener-core/src/session.rs:784-794 | the late Hello of an abandoned attempt meets a gap, which ends a live session, exactly if its claim is older than what the client acknowledged since; the current attempt's Hello never does |
| TunnelTheorems.AttachKeepsIffQuiet | listener-core/src/session.rs:784-803 | attaching the connection the client waits on keeps the invariant if and only if neither the counter nor the replay moved since the snapshot |
| TunnelTheorems.ReachableInv | listener-core/src/session.rs:330-411 | the invariant relating both streams, every connection's undelivered payload, the job in flight, both queues and the client's decoder holds in every reachable state |
| TunnelTheorems.RunConserves | wosh-client/src/lib.rs:821-946 | whatever is not yet recorded waits in the outbox, and whatever is not yet at sshd waits in `inq`, in order |
| TunnelLate.LateHelloEndsSession | listener-core/src/session.rs:784-794 | and that happens: a run under all hypotheses at whose end an attached session that lost nothing meets a gap over the Hello of an attempt given up before |
| TunnelHarm.HarmlessIffQuiet | listener-core/src/session.rs:784-803 | the hypothesis is exact for the client's open attempt in a live session without overflow: no ordinary progress behind the attach ever loses or repeats an octet if and only if nothing moved in the window |
| TunnelHarm.UnquietAttachHarms | listener-core/src/session.rs:784-803 | from every such attach that is not quiet, a run of ordinary progress that loses or repeats octets |
| TunnelHandover.FreshDecoderIff | wosh-client/src/lib.rs:597-600 | a fresh decoder fed a stream from some octet on yields the frames not wholly behind it if and only if that octet is the first of a frame |
| TunnelHandover.TornFrameGarbles | wosh-client/src/lib.rs:1321-1342 | the decoder hypothesis is needed: in a quiet run without overflow whose reply arrives with five octets of the next frame, the core is fed an octet that sshd never sent as such, and the counter falls short |
| TunnelHandover.FullFrameIsTorn | wosh-client/src/lib.rs:119-119 | a read that brings any part of a full-sized frame along with the reply always leaves it torn |
| TunnelHandover.NextTakesItsSize | tunnel/src/lib.rs:250-286 | a decoded frame never came from fewer octets than it encodes to |
| TunnelWindow.WindowLosesOutput | listener-core/src/session.rs:784-803 | the snapshot hypothesis is needed: sshd output read between the snapshot and the attach never reaches the client, while later output does and no counter shows it |
| TunnelWindow.WindowRepeatsInput | listener-core/src/session.rs:795-803 | and a frame the superseded reader applies in that window is delivered to sshd twice |
| TunnelSteps.StepKeeps | listener-core/src/session.rs:201-411 | each of the 24 steps of client, listener and network keeps the invariant |
| TunnelSteps.AttachKeeps | listener-core/src/session.rs:236-257 | attaching clears the queue and queues the tail, and under the hypothesis that is exactly what the new connection still owes |
| TunnelSteps.ServeHelloKeeps | listener-core/src/session.rs:770-799 | the snapshot of tail and counter, and every refusal, keeps the invariant; the end of the session after a refused gap is a step of its own |
| TunnelSteps.ResumedKeeps | wosh-client/src/lib.rs:1178-1201 | taking the tail before the ack and retransmitting it without recording it again keeps the invariant |
| TunnelSteps.TakeOutboxKeeps | wosh-client/src/lib.rs:906-923 | so does recording an outbox entry before it is written |
| TunnelSteps.ClientReadKeeps | wosh-client/src/lib.rs:656-717 | and so does consuming a frame the decoder in charge has whole |
| TunnelSteps.HandOverKeeps | wosh-client/src/lib.rs:1321-1342 | and replacing an empty decoder by a fresh one |
| TunnelSteps.ListenerReadKeeps | listener-core/src/session.rs:434-489 | and applying a frame, current or superseded |
| TunnelSteps.TakeJobKeeps | listener-core/src/session.rs:201-226 | and taking a job off `outq`, flushing or retiring |
| TunnelSteps.JobWrittenKeeps | listener-core/src/session.rs:384-411 | and the end of its write, whether it worked, failed or was superseded |
| TunnelSteps.ParkKeeps | listener-core/src/session.rs:261-293 | and parking, with or without a grace period |
| ListenerSession.TimerEndsOnlyAbandonedSessions | listener-core/src/session.rs:296-313 | a grace timer ends a session only if nobody was attached at any moment since the very park that armed it |
| ListenerSession.GenerationCountsAttachesAndParks | listener-core/src/session.rs:236-293 | every attach and every park with a grace period raises `generation` by one, and nothing else does |
| ListenerSession.ParksOnceEach | listener-core/src/session.rs:384-411 | two parks are never the work of one attachment |
| ListenerSession.SupersededTasksAreInert | listener-core/src/session.rs:434-489 | after another attach or park nothing a superseded reader or writer does changes the session |
| ListenerSession.RunOrder | listener-core/src/session.rs:236-324 | death is final, and epochs and generations never go back |
| ListenerSession.Session.constructor | listener-core/src/session.rs:75-104 | a session starts unattached with nothing sent or received |
| ListenerSession.Session.AttachTo | listener-core/src/session.rs:236-257 | the whole new state, and the superseded connection it closes |
| ListenerSession.Session.ParkIt | listener-core/src/session.rs:261-293 | the whole new state, and the timer it arms, if any |
| ListenerSession.Session.Expire | listener-core/src/session.rs:302-312 | ends the session only if alive, unattached and still in the epoch of the timer |
| ListenerSession.Session.Offering | listener-core/src/session.rs:784-795 | the tail and the counter a resume is answered with, or nothing at a gap; the tail is the missing suffix of the recorded stream when the span fits |
| ListenerSession.Session.OnSshdRead | listener-core/src/session.rs:360-370 | records before it queues, in chunks; the replay then tracks the longer stream |
| ListenerSession.Session.TakeWriteJob | listener-core/src/session.rs:201-226 | which job pump B gets and what that takes from the state |
| ListenerSession.Session.OnWritten | listener-core/src/session.rs:386-403 | a superseded write changes nothing, a good one returns the stream, a failed one parks |
| ListenerSession.Session.TakeInbound | listener-core/src/session.rs:177-190 | the next chunk for sshd, in order |
| ListenerSession.Session.ApplyFrame | listener-core/src/session.rs:497-549 | the whole new state for each frame kind, and which frames are violations |
| ListenerSession.Session.OnFrame | listener-core/src/session.rs:448-472 | a superseded reader changes nothing; a violation parks after it was applied |
| ListenerSession.Session.OnReadEnded | listener-core/src/session.rs:474-486 | the end of the read side parks unless superseded or dead |
| ListenerSession.Registry.Bury | listener-core/src/session.rs:133-140 | removes the live entry and keeps the last 64 epitaphs |
| ListenerSession.Registry.EpitaphOf | listener-core/src/session.rs:142-149 | the reason on the oldest epitaph of the session that is kept |
| ListenerRuns.AcksKeepPace | listener-core/src/session.rs:497-515 | in every reachable state less than 128 KiB have been received since the client was last told the counter, by an answer or by a queued ACK; `ackedOut` is what it was told |
| ListenerRuns.AckIsQueued | listener-core/src/session.rs:507-511 | outside an attach `ackedOut` moves only together with exactly one ACK of the new counter at the end of the queue; an attach sets it to the counter |
| ListenerRuns.QueueIsFifo | listener-core/src/session.rs:201-257 | since the last attach, what the events so far owe the client (tail, output, one PONG a PING, one ACK a cadence) is what pump B was handed and then what waits in the queue, in order |
| ListenerRuns.FinishIffFlushed | listener-core/src/session.rs:203-224 | the stream of a dead session is finished iff everything owed to it was handed out; pump B retires iff the session is dead and unattached |
| ListenerRuns.WritesOneAtATime | listener-core/src/session.rs:203-218 | a write is started iff the write half is at hand and something is queued, and takes it away |
| ListenerRuns.ParkedIffLost | listener-core/src/session.rs:261-313 | a live session is parked iff its current attachment fails by write, read or protocol and there is a grace period, keeping both streams; it dies iff there is none, at its timer, or when it is ended |
| ListenerRuns.DeadIsNotParked | listener-core/src/session.rs:261-267 | a dead session stays dead and is never parked |
| ListenerRuns.AttachTakesOver | listener-core/src/session.rs:236-257 | an attach takes over connection, write half and generation and keeps both streams; a write that worked gives the write half back |
| ListenerRuns.AttachmentIsWhole | listener-core/src/session.rs:236-293 | in every reachable state a connection is held iff attached, and nothing is writable while unattached |
| ListenerRuns.TimerEndsIffAbandoned | listener-core/src/session.rs:296-313 | the timer of a park ends a live session iff nobody attached and nothing parked it since |
| ListenerRuns.InboundIsKept | listener-core/src/session.rs:497-515 | over every park and resume: what the attachments carried is what sshd was given and what waits for it, and `received` counts it |
| ListenerRuns.ReplayIsKept | listener-core/src/session.rs:360-370 | and the replay tracks everything sshd ever said |
| ListenerRuns.AcksTrimTheReplay | listener-core/src/session.rs:516-519 | an ACK on the current attachment trims the replay to it unless stale or nonsense, and nothing else does |
| ListenerRuns.LastBurialsRemembered | listener-core/src/session.rs:133-140 | after any burials exactly the last 64 epitaphs are kept, in order |
| ListenerRuns.EpitaphIsRemembered | listener-core/src/session.rs:133-149 | a session buried once is answered with its own reason until 64 others were buried after it |
| ClientMachine.ResumeMachineIsSound | wosh-client/src/lib.rs:959-998 | in every reachable state of a framed session neither detached nor down: never resuming and stalled at once, stalled only while suspended, and exactly one resume loop runs while resuming |
| ClientMachine.LostLinkIsNeverForgotten | wosh-client/src/lib.rs:959-986 | once the current link is reported lost, by a failed read or write, a protocol violation or the prober's verdict, the session stays resuming or stalled until a new connection is installed, it is declared dead, or it detaches |
| ClientMachine.VerdictIsSound | wosh-client/src/lib.rs:732-787 | the prober's verdict rests on a ping issued on this generation at least five seconds earlier, with no frame of any kind consumed and no wake that found the session attached since; so every such wake lies five seconds back, however the clock jumped |
| ClientMachine.OutstandingIsIssued | wosh-client/src/lib.rs:876-895 | an outstanding probe is a ping really put on the wire of this generation, at the stamped time, with nothing heard and no probing wake since |
| ClientMachine.DownIsForever | wosh-client/src/lib.rs:1001-1022 | a session that is down or detached stays so, and generations never go back |
| ClientMachine.StepSound | wosh-client/src/lib.rs:1234-1250 | every step of every task keeps at most one loop, of the current generation |
| ClientLiveness.VerdictIff | wosh-client/src/lib.rs:732-787 | a tick on a link it watches declares it dead iff a ping of this connection went out at least five seconds ago and since then no frame came in and no wake found the session attached |
| ClientLiveness.ProbesIff | wosh-client/src/lib.rs:757-765 | a tick asks iff nothing is being asked and nothing was heard for ten seconds; a write into a link quiet for two asks at once; back-dating by a wake is never taken for silence |
| ClientLiveness.SilenceIsNoticed | wosh-client/src/lib.rs:732-787 | once a ping is due, a turn of the writer and a tick five seconds later find the link dead if nothing came in, whatever else happened meanwhile |
| ClientLiveness.DuePingIsIssued | wosh-client/src/lib.rs:880-903 | a ping that is due stays due until the writer of this connection issues it |
| ClientLiveness.WakeAsksAfresh | wosh-client/src/lib.rs:2047-2061 | a wake that finds the session attached leaves a new ping due and none out |
| ClientLiveness.ProberRests | wosh-client/src/lib.rs:741-755 | the prober retires iff its connection was replaced or its session is over, and does nothing while the page is away or a resume is on |
| ClientLiveness.EveryPingIsEchoed | wosh-client/src/lib.rs:685-694 | the PINGs heard on this connection are the PONGs taken to be written and then those still due, in order |
| ClientLiveness.PingsAreNumbered | wosh-client/src/lib.rs:880-895 | pings are numbered through across connections, so no two carry the same word |
| ClientResume.ResumeBeginsIffReported | wosh-client/src/lib.rs:959-986 | a session with a link starts to wait for a new one iff that link is reported lost: with one loop while the page is there, standing still while it is away |
| ClientResume.UnframedDiesIffLost | wosh-client/src/lib.rs:970-972 | on the dialect without frames a live session ends iff its link is reported lost or the page detaches |
| ClientResume.DiesIffGivenUp | wosh-client/src/lib.rs:1099-1225 | a framed session dies iff its loop gives up, over budget, overflow, gap or refusal, or the page detaches |
| ClientResume.InstalledIffResumed | wosh-client/src/lib.rs:1178-1201 | the generation changes iff the loop of a live session is answered `Resumed`; the new connection starts with liveness of its own and the loop is gone |
| ClientResume.SupersededTasksAreInert | wosh-client/src/lib.rs:604-843 | once a connection is replaced, nothing its reader, writer or prober still does changes the session |
| ClientResume.AwayHoldsBack | wosh-client/src/lib.rs:1092-1098 | `suspended` is what the page said last; while it is set no attempt starts and a loop at its top stands down, and only a wake takes up a session that stood still |
| ClientResume.LoopComesBackOrLeaves | wosh-client/src/lib.rs:1055-1092 | a failed attempt brings the loop back to its top, and a loop leaves a session that is over as it is |
| ClientResume.CloseKindTellsReadiness | wosh-client/src/lib.rs:1001-1019 | the step that takes a session down sets its close kind for good: lost iff the session had become ready before; and no resume goes on |
| ClientFlow.AcksKeepPace | wosh-client/src/lib.rs:705-712 | from the end of any read on, over anything but another connection, an ACK is due or less than 128 KiB arrived since the listener was last told |
| ClientFlow.AckTaken | wosh-client/src/lib.rs:841-850 | an ACK that is due is taken with the number of octets that have arrived; a new connection owes none |
| ClientFlow.TrimmedByTheListener | wosh-client/src/lib.rs:1178-1188 | the replay is trimmed by the highest ACK read that is neither stale nor nonsense, and by a `Resumed` whose tail is held; that tail is what is sent again |
| ClientFlow.OutputIsKept | wosh-client/src/lib.rs:906-918 | what the core produced was taken and recorded or waits in the outbox, in order |
| ClientFlow.InputIsKept | wosh-client/src/lib.rs:674-684 | the core is fed exactly what arrived, counted once, deferred payload included |
| ClientFlow.ReadIs | wosh-client/src/lib.rs:656-704 | what one read does to streams, counters and replay, for any list of frames |
| ClientFlow.AckAskedIff | wosh-client/src/lib.rs:705-712 | a read asks for an ACK iff it met no violation and 128 KiB arrived since the listener was last told |
| ClientSession.Inner.constructor | wosh-client/src/lib.rs:314-404 | a session starts connected, with nothing sent or received |
| ClientSession.Inner.HearFrame | wosh-client/src/lib.rs:663-691 | any frame clears the outstanding probe and stamps the clock; a ping queues its echo on v3 |
| ClientSession.Inner.ConsumeFrame | wosh-client/src/lib.rs:662-704 | the whole new state for each frame kind, and which frames are violations |
| ClientSession.Inner.ConsumeFrames | wosh-client/src/lib.rs:656-717 | frames are consumed in order up to the first violation; the ACK is requested only if there was none |
| ClientSession.Inner.TakeAckFrame | wosh-client/src/lib.rs:841-850 | an ACK carries the counter at the moment it is taken |
| ClientSession.Inner.TakePongFrame | wosh-client/src/lib.rs:861-873 | echoes leave in arrival order |
| ClientSession.Inner.TakePingFrame | wosh-client/src/lib.rs:880-895 | a ping is stamped outstanding only when it is taken to be written, and never while one is outstanding |
| ClientSession.Inner.TakeOutboxEntry | wosh-client/src/lib.rs:906-918 | the entry is recorded in the replay as it is taken, and the recorded stream grows by exactly it |
| ClientSession.Inner.KeepaliveTickAt | wosh-client/src/lib.rs:741-765 | which of the four verdicts a tick reaches, and the probe it requests |
| ClientSession.Inner.OnLinkLost | wosh-client/src/lib.rs:959-986 | which report of a lost link starts the one resume |
| ClientSession.Inner.DeclareItDead | wosh-client/src/lib.rs:1001-1019 | the first verdict is kept, with the kind of close |
| ClientSession.Inner.StandItDown | wosh-client/src/lib.rs:1234-1242 | a suspended page turns resuming into stalled |
| ClientSession.Inner.ResumedAt | wosh-client/src/lib.rs:1179-1188 | the tail is taken before the ack trims it and is the missing suffix of the recorded stream when the span fits; nothing changes at a gap |
| ClientSession.Inner.FeedDeferred | wosh-client/src/lib.rs:1298-1301 | deferred payloads are fed and counted in order |
| ClientSession.Inner.InstallConnection | wosh-client/src/lib.rs:1284-1303 | the whole new state of an adopted connection: next generation, deferred payload counted, liveness afresh |
| ClientSession.Inner.SuspendIt | wosh-client/src/lib.rs:2021-2030 | only a live framed session is marked suspended |
| ClientSession.Inner.WakeIt | wosh-client/src/lib.rs:2034-2072 | a stalled session resumes; an attached v3 one forgets its stale probe and asks for a new one; any other only loses the mark |
| ResumeBudget.ResumeLoop | wosh-client/src/lib.rs:1055-1099 | for every clock: at most 44 dials, at least 19 before the budget ends the session, and if every attempt fails retryably that is how it ends; each other ending is tied to what the last pass met |
| ResumeBudget.WindowLastsBetween | wosh-client/src/lib.rs:1078-1099 | no clock spends the window in 18 passes and none has any left after 44 |
| ResumeBudget.SpentBetween | wosh-client/src/lib.rs:1055-1084 | each pass charges between the sleep it asked for and that plus the cap, whatever the clock does |
| ResumeBudget.BoundsAreTight | wosh-client/src/lib.rs:175-180 | a stopped clock dials 44 times and one that always reaches the cap 19 times |
| KnownHosts.GlobIsRightIff | hostkey/src/known.rs:149-176 | the backtracking matcher agrees with the recursive meaning of `*` and `?` on every pattern exactly for the values that contain no `*`; for each other value a pattern it gets wrong is given |
| KnownHosts.Glob | hostkey/src/known.rs:149-176 | the loop over `pi`, `vi` and the last star terminates and computes the specified matcher |
| KnownHosts.BacktrackIsMatch | hostkey/src/known.rs:151-171 | in every state of that loop on a star-free value, going on from here or letting the last star swallow more is all there is to try |
| KnownHosts.LookupKeysAreDistinct | hostkey/src/known.rs:38-48 | no two addresses share a lookup key, and every pattern is matched rightly on every key |
| KnownHosts.PatternsMatch | hostkey/src/known.rs:105-139 | covered iff some plain pattern matches and no negated one does, or the hash reproduces |
| KnownHosts.CoversByMeaning | hostkey/src/known.rs:105-125 | on real lookup keys that is by the recursive meaning of the patterns |
| KnownHosts.Lookup | hostkey/src/known.rs:55-95 | the first entry that lists or revokes the key decides; without one the other listed keys are reported in order, or the host is unknown; the loop computes the specified verdict |
| KnownHosts.WildcardsMean | hostkey/src/known.rs:141-176 | in the meaning a star stands for any run of characters and a question mark for exactly one |
| KnownHosts.PlainPattern | hostkey/src/known.rs:149-176 | a pattern without wildcards matches exactly itself, but for the case of ASCII letters |
| KnownHosts.CaseDoesNotMatter | hostkey/src/known.rs:149-151 | swapping the case of any letter in pattern or value changes no match |
| KnownHosts.KeyIs | hostkey/src/known.rs:38-48 | the bare host on port 22, else the bracketed host, a colon and the port |
| KnownHosts.DecimalReadsBack | hostkey/src/known.rs:43-47 | whose digits are the port's, without leading zeros |
| KnownHosts.IdleLinesDoNotMatter | hostkey/src/known.rs:60-83 | a line of another host, a certificate authority or a revocation of another key changes no verdict, wherever it stands |
| KnownHosts.FirstLineDecides | hostkey/src/known.rs:60-89 | the first line of this host that lists or revokes the key presented decides, whatever follows it |
| KnownHosts.OtherwiseListed | hostkey/src/known.rs:60-94 | where no line decides the verdict is unknown iff no key of the host is listed, and else a mismatch with all of them in order |
| Sniffing.ChunkingDoesNotMatter | hostkey/src/sniff.rs:91-175 | up to 512 KiB any split finds what a one-shot parse finds, beyond it the same key or none; the buffer never keeps more than the largest packet and three octets |
| Sniffing.RunIsOneShot | hostkey/src/sniff.rs:91-175 | exactly: a run is the one-shot parse of everything up to the chunk that crosses the cap |
| Sniffing.ReportedOnce | hostkey/src/sniff.rs:91-109 | at most one `feed` reports a key, and it is the one kept |
| Sniffing.KeptWasReported | hostkey/src/sniff.rs:91-109 | and every key kept was reported by some `feed` |
| Sniffing.DriveExtends | hostkey/src/sniff.rs:123-175 | what is decided on a buffer stays decided when more arrives |
| Sniffing.HandshakeScanned | hostkey/src/sniff.rs:123-244 | for any preamble lines, identification line and packets of RFC 4253 the scan finds the key k iff some packet is a message 30, 31 or 33 whose blob parses to k and no packet before it is NEWKEYS or such a message |
| Sniffing.LineTaken | hostkey/src/sniff.rs:194-210 | a CRLF line within 255 octets is consumed whole, and recognised if it starts with SSH- |
| Sniffing.PacketTaken | hostkey/src/sniff.rs:223-244 | a well-framed packet is split off with exactly its payload |
| Sniffing.Sniffer.constructor | hostkey/src/sniff.rs:63-70 | starts on the identification lines |
| Sniffing.Sniffer.GiveUp | hostkey/src/sniff.rs:115-119 | stops and releases the buffer |
| Sniffing.Sniffer.DriveOn | hostkey/src/sniff.rs:123-175 | the loop leaves exactly the state of the specified scan |
| Sniffing.Sniffer.FeedChunk | hostkey/src/sniff.rs:91-109 | the new state and the report are those of the specified feed |
| Sniffing.ReplyYieldsItsBlob | hostkey/src/sniff.rs:249-273 | a payload of message number, length and blob yields what the blob parses to if the number is 30, 31 or 33, and nothing for any other number |
| Sniffing.KeyInIffCarried | hostkey/src/sniff.rs:249-273 | and a payload yields a key iff it has that shape |
| Sniffing.PacketIff | hostkey/src/sniff.rs:223-244 | a packet is split off iff the buffer starts with a well-framed one |
| Sniffing.NeedPacketIff | hostkey/src/sniff.rs:223-244 | with the header there, the scan waits iff the buffer is a proper part of a well-framed packet |
| Sniffing.LineIff | hostkey/src/sniff.rs:194-210 | a line is consumed iff the buffer starts with one of at most 255 octets |
| Sniffing.NeedLineIff | hostkey/src/sniff.rs:194-210 | and the scan waits for one iff there are fewer than 255 octets and no LF |
| EcdsaDer.AcceptsExactlyCanonical | webauthn-ssh/src/lib.rs:434-475 | accepted, with these parts, iff the input is the minimal encoding of a sequence of two such integers, so re-encoding the parts gives the input back |
| EcdsaDer.CanonicalIffPositiveInteger | webauthn-ssh/src/lib.rs:477-504 | the accepted contents are exactly the minimal two's-complement contents of positive integers, one for each |
| EcdsaDer.TakeIsElement | webauthn-ssh/src/lib.rs:452-475 | one element is taken iff the input starts with its minimal encoding |
| EcdsaDer.Pad32IsFixedWidth | webauthn-ssh/src/lib.rs:646-658 | padding gives the 32 octets of the same value, and fails iff the value needs more |
| EcdsaDer.ConvertersAgree | site/passkey-store.ts:152-195 | on every accepted input the browser computes `pad32(r)` followed by `pad32(s)` and rejects the same over-wide scalars |
| EcdsaDer.ConverterChecksOnlyWidth | site/passkey-store.ts:152-195 | on two elements with any contents the browser converts, as unsigned numbers, exactly those below 2^256, whatever their sign or leading zeros |
| EcdsaDer.FitIsUnsigned | site/passkey-store.ts:183-190 | any octets give the 32 octets of their unsigned value, or fail iff it needs more |
| EcdsaDer.ConverterIsLaxer | site/passkey-store.ts:152-195 | so off the canonical set it need not reject: it converts a negative scalar |
| EcdsaDer.DerToRaw | site/passkey-store.ts:152-195 | the cursor form computes the specified conversion under JavaScript's arithmetic |
| EcdsaDer.ReadLengthAt | site/passkey-store.ts:158-163 | a length of either form, with 32-bit shifts and reads past the end |
| EcdsaDer.Fit | site/passkey-store.ts:183-190 | strips leading zeros only while wider than 32 octets |
| EcdsaDer.BlobRoundTrip | webauthn-ssh/src/lib.rs:375-384 | the two strings of the signature blob read back as the two scalars |
| EcdsaDer.ReadLengthIs | site/passkey-store.ts:158-163 | the converter reads a length of either form as X.690 says, reduced to 32 signed bits, with zeros for octets that are not there |
| EcdsaDer.ConverterIff | site/passkey-store.ts:152-195 | the converter accepts exactly a SEQUENCE that ends with the input and holds two INTEGERs, lengths of any form, the second ending with it too, both below 2^256, and gives back their unsigned values |
| SshWire.StrIff | webauthn-ssh/src/lib.rs:224-240 | a string is read iff it was written, with exactly its octets and what follows |
| SftpNames.NameRoundTrip | sftp/src/lib.rs:691-710 | decoding the encoding of any listing returns every file name, long name and raw mode word unchanged, for any flags and any EXTENDED pairs |
| SftpNames.AcceptedIsListing | sftp/src/lib.rs:691-710 | every accepted body is the encoding of some listing followed by octets that are not looked at |
| SftpNames.EntriesAreBounded | sftp/src/lib.rs:691-710 | no body yields more entries than a twelfth of its octets |
| SftpNames.AttrsRoundTrip | sftp/src/lib.rs:733-769 | an ATTRS block is walked field by field to its exact end |
| SftpNames.AttrsRead | sftp/src/lib.rs:733-769 | and whatever is accepted there is such a block |
| SftpNames.Decode | sftp/src/lib.rs:691-710 | the loop computes the specified decoding on arbitrary octets, with the bound |
| SftpNames.NextEntry | sftp/src/lib.rs:697-707 | one entry and the cursor after it |
| SftpNames.NextEntries | sftp/src/lib.rs:695-708 | a run of entries, or nothing if any is cut short |
| SftpNames.ParseAttrs | sftp/src/lib.rs:733-769 | the attributes, the raw mode word and how many octets they took |
| SftpNames.Reader.constructor | sftp/src/lib.rs:192-194 | the cursor starts at the front |
| SftpNames.Reader.TakeN | sftp/src/lib.rs:196-204 | the next octets and the cursor past them, or no move |
| SftpNames.Reader.Word32 | sftp/src/lib.rs:206-209 | a big-endian word |
| SftpNames.Reader.Word64 | sftp/src/lib.rs:211-216 | a big-endian double word |
| SftpNames.Reader.Text | sftp/src/lib.rs:220-223 | a length-prefixed string |
| SftpNames.Reader.SkipExtended | sftp/src/lib.rs:760-766 | the announced number of pairs is walked past, or the block is truncated |
| SftpNames.FlagBits | sftp/src/lib.rs:733-769 | which bit of the flags word announces which field |
| SftpNames.AttrsLayout | sftp/src/lib.rs:733-769 | the order of the fields on the wire, with every bit set |
| SftpFramer.PacketsSurviveChunking | sftp/src/lib.rs:821-873 | any list of bodies of 1 to MAX_PACKET_LEN octets survives any chunking and interleaving, in order, and never poisons the framer |
| SftpFramer.PoisonIsFinal | sftp/src/lib.rs:833-872 | poisoning changes nothing that is handed out: errors would never go away anyway |
| SftpFramer.PoisonedForever | sftp/src/lib.rs:847-850 | a poisoned framer never yields again |
| SftpFramer.Framer.Feed | sftp/src/lib.rs:833-837 | appends unless poisoned |
| SftpFramer.Framer.TakePacket | sftp/src/lib.rs:847-872 | hands out the next body or poisons itself, and says which error it was |
| SftpFramer.NextPacketIff | sftp/src/lib.rs:847-872 | a packet is handed out iff a body of 1 octet to 1 MiB is in front with its length, and the length is an error iff it is zero or above that |
| Correlation.ExactlyOnceIff | sftp/src/lib.rs:890-957 | every submission is handed out exactly once or still pending iff no submission is made while the one 2^32 before it is unanswered; none is ever handed out twice |
| Correlation.TagsFollowNumbers | sftp/src/lib.rs:926-938 | what waits under an id is the tag of the submission that was given it |
| Correlation.SubmitBalances | sftp/src/lib.rs:926-930 | a submission takes over its id from the one 2^32 before it, if that still waits, and touches no other |
| Correlation.Correlator.constructor | sftp/src/lib.rs:917-922 | starts with nothing pending |
| Correlation.Correlator.SubmitTag | sftp/src/lib.rs:926-930 | returns the id, wraps the counter, and overwrites what waited there |
| Correlation.Correlator.Take | sftp/src/lib.rs:936-938 | hands out what waits under the id, once |
| Correlation.Correlator.DrainPending | sftp/src/lib.rs:955-957 | hands out everything pending in ascending order of id and leaves nothing |
| Correlation.TakeHandsOut | sftp/src/lib.rs:936-938 | a take hands out the tag of the submission that waits under the id, iff one does, and removes that one alone |
| BulkChannel.Conservation | ssh-core/core/channel.go:332-604 | under every interleaving: until closed, read = drained ++ inbound (++ in hand) and accepted = written ++ in flight ++ outbound; both buffers stay within 256 KiB; the SSH EOF goes out only after every accepted octet was written |
| BulkChannel.PhasesOnlyAdvance | ssh-core/core/channel.go:450-604 | open, eof, closed and never back; between two moments at eof nothing more is fetched and the buffered tail stays drainable; after finish nothing is accepted; a closed channel takes and gives nothing |
| BulkChannel.StepInbound | ssh-core/core/channel.go:332-379 | every step keeps the inbound side conserved and within its cap |
| BulkChannel.StepOutbound | ssh-core/core/channel.go:413-448 | every step keeps the outbound side conserved and the EOF last |
| BulkChannel.Channel.constructor | ssh-core/core/channel.go:127-134 | born open and empty |
| BulkChannel.Channel.RoomNow | ssh-core/core/channel.go:365-379 | how much may be read, or park, or retire |
| BulkChannel.Channel.StoreRead | ssh-core/core/channel.go:343-351 | appended unless closed meanwhile |
| BulkChannel.Channel.StoreStderr | ssh-core/core/channel.go:387-405 | the first 8 KiB of diagnostics are kept |
| BulkChannel.Channel.NextJob | ssh-core/core/channel.go:414-442 | the whole buffer, the one EOF, a wait or the end |
| BulkChannel.Channel.RemoteEof | ssh-core/core/channel.go:461-467 | only an open channel moves to eof |
| BulkChannel.Channel.CloseFor | ssh-core/core/channel.go:475-502 | the first reason is latched with the stderr tail, and both buffers are dropped |
| BulkChannel.Channel.WriteData | ssh-core/core/channel.go:510-545 | accepts what fits, nothing when full, and refuses after finish or close |
| BulkChannel.Channel.DrainUpTo | ssh-core/core/channel.go:553-576 | hands out the front of the buffer |
| BulkChannel.Channel.FinishWriting | ssh-core/core/channel.go:593-604 | a no-op once closed |
| ChannelRegistry.NoChannelOutlivesItsSession | ssh-core/core/channel.go:192-247 | in every interleaving: once the session is closed nothing is registered or revived, and once `closeAllChannels` has finished every channel ever opened is closed for good |
| ChannelRegistry.OpenChannelsAreReachable | ssh-core/core/channel.go:192-247 | at every moment each channel that is not closed is registered or about to be marked |
| ChannelRegistry.RunOnward | ssh-core/core/session.go:350-369 | the end of the session is final and phases only advance |
| ChannelRegistry.Sessions.OpenChannel | ssh-core/core/channel.go:192-215 | registers a fresh open channel iff the session is ready and connected |
| ChannelRegistry.Sessions.ForgetChannel | ssh-core/core/channel.go:220-224 | drops it from the registry |
| ChannelRegistry.Sessions.CloseAllChannels | ssh-core/core/channel.go:235-247 | empties the registry and closes exactly what was in it |
| ChannelRegistry.Sessions.CloseWith | ssh-core/core/session.go:350-369 | the first close wins, a recorded wire failure names the cause, and every registered channel is closed |
| ChannelRegistry.OpensIffReady | ssh-core/core/channel.go:192-210 | a channel comes into being, registered and open, iff the session is ready and connected |
| ChannelRegistry.CloseCanFinish | ssh-core/core/channel.go:235-247 | a close that has begun can always be carried through, and then every channel is closed |
| ChannelRegistry.RegistryIsTidy | ssh-core/core/channel.go:217-224 | in every reachable state a closed channel that is still registered is about to be forgotten |
| ChannelRegistry.PhaseFollows | ssh-core/core/channel.go:461-502 | what a step does to one channel's phase and to the calls that forget it |
| ChannelRegistry.SessionFollows | ssh-core/core/session.go:350-369 | the session is as it was last told until it is closed |
| ConnStrings.TokenRoundTrip | connstring/src/lib.rs:186-207 | the 26 characters printed for a token read back as the token |
| ConnStrings.DecodesIffFoldsToEncoding | connstring/src/lib.rs:186-207 | a text is read as a token iff it folds onto what is printed for that token |
| ConnStrings.SameTokenIffSameFold | connstring/src/lib.rs:163-207 | two accepted texts give the same token exactly when their folds agree |
| ConnStrings.TypingDoesNotMatter | connstring/src/lib.rs:163-174 | the case of a letter, any of i I l L 1, of o O 0 and of b B 8 may stand for one another, and blanks, line breaks, hyphens, colons and underscores may stand anywhere |
| ConnStrings.ConnStringRoundTrip | connstring/src/lib.rs:273-330 | every connection string with a relay decodes to itself, table index or spelled out, with white space around it, and under any table that only grew |
| ConnStrings.WellKnownRoundTrip | connstring/src/lib.rs:112-117 | in particular with each of today's relays |
| ConnStrings.WellKnownRelaysAreIndexed | connstring/src/lib.rs:276-279 | a relay of the table rides as an index that means it |
| ConnStrings.PayloadRoundTrip | connstring/src/lib.rs:311-330 | the postcard payload of versions 2 and 3 inverts |
| ConnStrings.V1RoundTrip | connstring/src/lib.rs:332-362 | the fixed layout of version 1 decodes field by field, whatever the other flag bits |
| ConnStrings.Base64Iff | connstring/src/lib.rs:288-299 | base64url text decodes to some octets iff it is their encoding |
| ConnStrings.OnlyLookalikesAgree | connstring/src/lib.rs:163-207 | and nothing else is forgiven: two accepted texts that differ in one character give the same token iff the two look alike |
| ConnStrings.TokenIsPrinted | connstring/src/lib.rs:186-188 | what is printed is base32 of RFC 4648 group by group over the alphabet with 9 for I |
| ConnStrings.Base64ByGroups | connstring/src/lib.rs:288-288 | base64url is RFC 4648's, three octets in four characters of its alphabet |
| ConnStrings.VersionDecides | connstring/src/lib.rs:294-309 | 2 and 3 read the same payload, 1 the old layout, and a blob is refused for its version iff its first octet is none of them |
| ConnStrings.OlderVersionReads | connstring/src/lib.rs:273-309 | version 3 is written, and the same payload under version 2 still reads as the same connection |
| ConnStrings.ShorterTableReads | connstring/src/lib.rs:311-330 | a build with a shorter table reads the relay or names the index it lacks |
| ConnStrings.PayloadRefused | connstring/src/lib.rs:311-330 | octets behind the token, a relay of unknown kind and an empty relay, spelled out or in the table, are refused by name |
| ConnStrings.PayloadLayout | connstring/src/lib.rs:209-226 | the payload octet by octet: key, relay tag with index or URL, token |
| ConnStrings.RelaysInOrder | connstring/src/lib.rs:112-117 | which relay each index means |
| ConnStrings.V1Iff | connstring/src/lib.rs:332-362 | exactly the old layouts with a relay are read, and exactly the too short ones are called truncated |
| RadixText.BitsRoundTrip | connstring/src/lib.rs:186-188 | octets in a power-of-two alphabet decode to themselves |
| RadixText.OnlyEncodingsDecode | connstring/src/lib.rs:192-196 | and no octets have two spellings, since spare bits must be zero |
| RadixText.GroupsAreIndependent | connstring/src/lib.rs:186-188 | octets that fill whole symbols are spelled on their own, whatever follows |
| RadixText.SixBitGroups | connstring/src/lib.rs:288-288 | three, two or one octets in base64 |
| RadixText.FiveBitGroups | connstring/src/lib.rs:186-188 | five or one octets in base32 |
| ChannelEnds.ClosedIff | ssh-core/core/channel.go:450-502 | a channel is closed by exactly a refused open, a broken read, a failed write or the embedder; a far end that hangs up moves it to eof instead, and nothing else does |
| ChannelEnds.TailSurvives | ssh-core/core/channel.go:353-357 | after the far end hung up and until one of those events, everything it sent was handed to the embedder or still waits, in order |
| ChannelEnds.EndingWasReturned | ssh-core/core/channel.go:340-358 | whatever the reader ends with is what a read returned, with its octets counted first |
| ChannelEnds.DrainGives | ssh-core/core/channel.go:553-576 | a drain hands over the front of the buffer and less than asked for only if it empties it |
| ChannelEnds.ReaderParksIffFull | ssh-core/core/channel.go:365-379 | the reader parks iff 256 KiB are buffered, and else reads all the room there is up to 32 KiB |
| ChannelEnds.WriteAcceptsOrFills | ssh-core/core/channel.go:510-545 | a write is refused iff finished or closed, and else takes everything or fills the buffer to 256 KiB |
| ChannelEnds.FinishIsHonoured | ssh-core/core/channel.go:413-448 | from any reachable state of an unclosed channel, two turns of the writer write all that was accepted and then the EOF if asked |
| ChannelEnds.EofIsSentOnce | ssh-core/core/channel.go:420-428 | the SSH EOF is sent at most once, after `finish`, behind everything accepted |
| ChannelEnds.FinishAsks | ssh-core/core/channel.go:593-604 | `finish` is remembered on any channel that is not closed and changes nothing else |
| ChannelEnds.WriterWaitsIffIdle | ssh-core/core/channel.go:413-433 | the writer waits iff there is nothing to write and no EOF to send |
| ChannelEnds.ReaderTurn | ssh-core/core/channel.go:333-358 | one turn of the reader buffers what was read and acts on an error only behind it |
| ChannelEnds.ClosedIsInert | ssh-core/core/channel.go:332-448 | once closed nothing is buffered or accepted and each goroutine leaves when it next looks |
| ChannelEnds.GrantStarts | ssh-core/core/channel.go:303-323 | a grant starts both goroutines unless the channel was closed meanwhile |
| Utf8.ValidIff | tunnel/src/lib.rs:138-144 | the reason of a refusal is accepted as text iff it is the UTF-8 encoding of some sequence of Unicode scalar values |
| Postcard.VarintsFit | tunnel/src/lib.rs:110-144 | no varint is read that does not fit 64 bits, or 32 where it is a length |
| Postcard.TextAndTagIff | tunnel/src/lib.rs:110-144 | text is read iff it is UTF-8, an option tag iff it is 0 or 1 |

## Left out

- Cryptography, iroh and QUIC, x/crypto/ssh, WebAuthn ceremonies, key recovery, HMAC: pipes, or function parameters
  (`Parser` for a host key blob, `Mac` for a hashed host name).
- known_hosts line parsing: `Lookup` takes parsed entries; `IpAddr` text is any string over its characters.
- Typed `FileAttrs` (permission bits truncated, times converted by the library): the raw words are kept instead.
- `HarmlessIffQuiet`: for the attempt the client still waits on; on a connection it already installed `Quiet` is only
  shown to suffice.
- `TornFrameGarbles`: not every torn hand-over does harm, since the fresh decoder may meet a malformed frame first and
  the link is then replaced; which do is only decided for the decoder (`FreshDecoderIff`), not for whole runs.
- The octets of a frame torn by a dying connection: they are lost with it, also where a reader out of step would
  have taken some of them for a frame.
- Wakers, `Signal` and fairness: safety and bounded attempts only, no scheduling liveness.
- The v1 pipe, the transfer module, pairing checks, and the creator and session-id checks of a resume.
- The observer's refusal of a host key inside pump A: in the step system it is an `EndSession` step before the read.
- `wait_attached_or_dead`: pump A may read at any moment here, which allows more runs than the code has.
- `ExactlyOnceInOrder`: stated under `Quiet`, `Clean` and `Narrow`, because the code does not give it without them.
- `ResumeMachineIsSound`: the replay's overflow and the listener's answer are step parameters of that machine; the
  streams themselves are in the tunnel system, where the control flags are not.
- `NextInbound`: an empty queue is one case here; whether the pump then waits or ends depends on `dead`.
- Error texts, log lines and `close` codes; where a caller can tell errors apart they are distinct constructors.
- The host-key policy table, pairing enrolment, probes, garbage collection budgets: one branch settles each.
- User interface, storage, service worker, host bindings and argument parsing.

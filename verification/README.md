# Verified model of the transport core

This project models the state machines and the wire codec at the core of the QUIC transport, and
proves what they promise over all inputs and all runs.

- **Endpoint routing.** `EndpointState` gives the endpoint's tables as a value and one function
  for each thing that can happen to it. `EndpointInvariant` relates the tables to the live
  connections and pending attempts and proves which operations keep that; `EndpointRuns` carries
  it over whole runs. `EndpointComplete` adds when the tables kept by address and by reset token
  are complete, and states the result for the endpoint as a whole. `EndpointFiled` has what holds
  on every run, early returns included; `EndpointStray` and `EndpointStale` say exactly what such
  returns leave behind. `EndpointSteps` spells out what each operation gives and whom each packet
  reaches. `IdSupply`, `IdDemand` and `CidSpace` are about running out of connection IDs,
  `EndpointLimits` about what pending attempts can take, `StatelessReset` about the size and the
  pace of stateless resets. `EndpointObject` holds the endpoint itself: mutable objects whose
  methods are proved to take exactly those steps, valid on every run.
- **Remote connection IDs.** `RemoteCids` is the five-slot ring of IDs the peer has issued, proved
  to be a sparse sliding map.
- **Frames.** `Coding` has fixed-width and variable-length integers, `RangeSet` the sorted range
  set behind acknowledgements, `AckFrames` the ACK encoder, the validating scan and the lazy
  iterator, `Frames` the decoder, the encoders and the payload iterator, `WireForms` the octets of
  the frames made of numbers and counted data as RFC 9000 has them, `CloseFrames` the cutting of close reasons.
- **Engine selection.** `EngineSelection` is the counter protocol of the connection router as
  atomic steps of any number of concurrent callers.
- **Happy Eyeballs.** `HappyEyeballs` is the interleaving sort and the racing event loop.
- **Smaller machines.** `PendingBuffer` (bounded per-peer message queues), `NewReno` (congestion
  window), `ConnectionStrategy` (staged fallback and its two drivers).

`Prelude` holds types shared by all of them. Where the source updates something in place the model
does so too: an object with a `View` or `Contents`, and methods tied to a function of the old view.

## What the environment decides

Packet decoding, cryptography, token checks, session setup, slab keys, random draws, clocks and
the order of concurrent events are inputs, free in every theorem. The connection ID generator is
any set of IDs it can produce, together with any stream of draws from that set in which every ID
comes up sooner or later. The set need not be all IDs of the declared length: the generator the
endpoint uses by default can produce at most 2^24 IDs of eight octets.

## Where the code does less than it promises

Each of these is proved as an if-and-only-if over all inputs or runs, with a concrete failing case.

- `connect` and `accept` return early on some failures after they have registered connection IDs
  or taken the buffer out. The endpoint's invariant holds throughout a run if and only if no step
  takes such a return (`RunKeepsIff`, `ConnectKeepsIff`, `AcceptKeepsIff`). In
  `LeakedIdReachesStranger` an ID left by `connect` is routed to a connection that never owned it.
- What they leave is for good (`RunStrayIff`, `RunStaleIff`). After an abandoned `accept` a later
  packet with that ID finds no buffer, where the source panics, if and only if the attempt's slot is
  vacant, and is put into another attempt's buffer if and only if it is in use again
  (`MissingBufferIff`, `StrangersBufferIff`, `AbandonedAttempt`, `AbandonedReachesStranger`).
- The exhaustion check is there so that drawing a connection ID can be relied on to finish. Over all
  runs every draw does if and only if IDs are empty (`AllReliableIff`), and each kind of call has its
  own exact condition. The first draw of `connect` and of `accept` can fail if and only if the check
  would still pass with every producible ID in use (`RunsDryIff`, `ConnectReliableIff`); the default
  generator gets there within 2^24 connections (`HashedRunsDry`), where a comment in the source
  expects 2^40. `accept` draws up to two IDs after one check, and always returns if and only if the
  check refuses before all but one are in use (`AcceptReliableIff`, `SecondDrawFails`). No check
  stands before a connection's requests for more IDs, which with any non-empty IDs can find none
  left (`IssueReliableIff`); `OneOctetBurst` is such a run with forty connections. What a caller
  can rely on is a plan: at most n connections of at most k IDs each, and n * k IDs to draw from
  (`PlannedRunCompletes`).
- Draining a connection removes three entries by address and by reset token without looking whose
  they are. It removes its own entries and nothing else if and only if none of those is another
  connection's (`DrainExactIff`, `SharedTokenDrained`, `SharedRemoteDrained`). Over a run those
  tables are complete if and only if no two live connections come to share such an entry
  (`RunCompleteIff`).
- The congestion window starts above its maximum if and only if the initial window exceeds it, and
  a datagram size can lift it there later (`StartsWithinIff`, `RunWithinIff`, `BoundsCanFail`).
- Close frames set two octets aside for the error code. They keep to their room for every reason
  if and only if the code is below 2^14 (`CloseFitsIff`, `LongReasonOverruns`).
- The endpoint's fallback driver does not log what the strategy's plan says, except with IPv6
  enabled, hole punching unused and at most one relay (`DeployedFollowsPlanIff`,
  `LastRoundLoggedTwice`). It tries the first relay only, where the configuration says that relays
  are tried in order (`RelaysTriedIff`).

## Model

| member | source | states |
|---|---|---|
| `EndpointInvariant.ConnectKeepsIff` | src/endpoint.rs:677-730 | `connect` keeps the endpoint's invariant if and only if it does not return early after registering a non-empty ID. |
| `EndpointInvariant.AcceptKeepsIff` | src/endpoint.rs:890-1060 | The same for `accept` on all of its paths: refusals, exhausted IDs, bad parameters, failed sessions, a first packet that fails the handshake. |
| `EndpointInvariant.AcceptAbandons` | src/endpoint.rs:971-1006 | Returning early after the IDs were drawn keeps the invariant only when the attempt's own ID and all drawn IDs are empty. |
| `EndpointInvariant.DrainKeeps` | src/endpoint.rs:465-479 | After a connection was forgotten no entry of the five tables names it, every entry left belongs to something live, and no live ID or initial ID lost its entry. |
| `EndpointInvariant.GiveUpKeeps` | src/endpoint.rs:1186-1190 | Giving an attempt up finds its initial-ID entry, takes no more octets off the counter than are on it, and keeps the invariant. |
| `EndpointInvariant.IssueAllKeeps` | src/endpoint.rs:732-753 | A whole batch of new IDs, each drawn against the table as it then is, keeps the table the inverse of what connections own. |
| `EndpointInvariant.TokenKeeps` | src/endpoint.rs:319-326 | Recording a reset token drops the connection's previous one and keeps every token entry owned by a live connection. |
| `EndpointInvariant.TokensInsert` | src/endpoint.rs:1811-1837 | A token entry may displace another connection's; every entry left still belongs to a live connection with that token. |
| `EndpointInvariant.FirstPacketKeeps` | src/endpoint.rs:770-885 | A first Initial packet, whether refused, ignored or made an attempt, keeps the invariant and gives a pending attempt one index entry. |
| `EndpointInvariant.BufferKeeps` | src/endpoint.rs:551-576 | Buffering or discarding a datagram of a pending attempt keeps the global octet counter the sum over live buffers. |
| `EndpointInvariant.ReceiveKeeps` | src/endpoint.rs:485-607 | Every datagram, routed or not, keeps the invariant. |
| `EndpointRuns.RetireKeeps` | src/endpoint.rs:327-335 | Retiring an ID, known or not, with or without a replacement, keeps the invariant. |
| `EndpointRuns.StepKeepsIff` | src/endpoint.rs:309-480 | Each operation keeps the invariant (IDs and initial IDs mirrored, entries by address and token live, octets counted) if and only if it is not one of the early returns. |
| `EndpointRuns.RunKeepsIff` | src/endpoint.rs:677-1060 | Over every run the invariant holds in every state if and only if no step takes an early return. |
| `EndpointRuns.IdsAreInverse` | src/endpoint.rs:1192-1252 | Under the invariant a non-empty ID is filed under a connection if and only if that connection owns it. |
| `EndpointRuns.OneOwner` | src/endpoint.rs:755-768 | Under the invariant no non-empty ID is owned by two connections. |
| `EndpointRuns.RightfulIsFound` | src/endpoint.rs:1544-1582 | If some connection owns a packet's destination ID, or an attempt or connection began with it, the lookup finds exactly that one. |
| `EndpointRuns.FoundIsRightful` | src/endpoint.rs:1544-1582 | What the lookup finds is the rightful recipient; only when there is none is it a connection that announced the packet's last octets as reset token from that address. |
| `EndpointRuns.RoutesAreLive` | src/endpoint.rs:1437-1583 | Under the invariant nothing is ever routed to a connection or a buffer that is gone, zero-length IDs included. |
| `EndpointRuns.StepBuffers` | src/endpoint.rs:899-969 | Every operation, early returns included, keeps the octet counter the sum over live buffers. |
| `EndpointRuns.RunSizedAndCounted` | src/endpoint.rs:551-576 | On every run, early returns included, all IDs are the generator's and the octet counter is the sum over live buffers. |
| `EndpointRuns.StepNumbers` | src/endpoint.rs:732-753 | While a connection lives its issue count only grows and no sequence number passes to another ID. |
| `EndpointRuns.NumbersNeverReused` | src/endpoint.rs:732-753 | The same over every run for as long as the connection lives. |
| `EndpointRuns.LeakedIdReachesStranger` | src/endpoint.rs:699-709 | A failed session setup followed by a connection under the same slab key: the ID left behind is routed to a connection that does not own it. |
| `EndpointComplete.EndpointOverRuns` | src/endpoint.rs:1437-1583 | From an empty endpoint over every run without an early return: IDs the inverse of ownership, every lookup live, octets counted, the ID space not overdrawn; and without a clash all five tables mirror the live connections. |
| `EndpointComplete.DrainExactIff` | src/endpoint.rs:1528-1541 | Forgetting a connection removes its entries and nothing else from the five tables if and only if no other connection holds one of the three removed by address and by token. |
| `EndpointComplete.SharedTokenDrained` | src/endpoint.rs:1538-1540 | A run after which a live connection's reset token is no longer known. |
| `EndpointComplete.SharedRemoteDrained` | src/endpoint.rs:1535-1537 | A run with zero-length IDs after which a live connection is no longer found by its address. |
| `EndpointComplete.StepCompleteIff` | src/endpoint.rs:1498-1541 | Each operation keeps every live connection in the tables by address and by token if and only if it is not a clash with another live connection. |
| `EndpointComplete.RunCompleteIff` | src/endpoint.rs:1498-1541 | Over every run, early returns or not, these tables are complete in every state if and only if no step is a clash. |
| `EndpointComplete.TokenSetIff` | src/endpoint.rs:1811-1837 | Announcing a token leaves the token table complete if and only if no other live connection announced the same pair. |
| `EndpointSteps.ConnectGives` | src/endpoint.rs:677-730 | `connect` is refused if and only if IDs are running out, the address is unspecified or the version unsupported; otherwise, if the session starts, there is one more client connection, with the drawn ID as number 0, and nothing else changes about connections. |
| `EndpointSteps.AcceptGives` | src/endpoint.rs:1225-1247 | An `accept` that gets through all its checks adds one server connection with the attempt's ID and addresses, the ID drawn first as number 0 and, with a preferred address, the second as number 1; any other leaves the connections as they were. |
| `EndpointSteps.IssueGives` | src/endpoint.rs:732-753 | The i-th ID of a batch gets the i-th number from the connection's count on; older numbers keep their IDs and nothing else about any connection changes. |
| `EndpointSteps.IssueFiles` | src/endpoint.rs:732-768 | After a batch an ID is filed if and only if it was before or is a non-empty one of the batch, and those under the connection they were drawn for. |
| `EndpointSteps.RetireGives` | src/endpoint.rs:327-335 | Retiring a known number removes it and no other; with more allowed the next number goes to the ID drawn, which is filed, and the count grows by one, and without nothing is added. An unknown number changes nothing. |
| `EndpointSteps.RetiredIsGone` | src/endpoint.rs:327-335 | The retired ID is neither filed nor owned by anyone, unless it was drawn again at once. |
| `EndpointSteps.DatagramKeptIff` | src/endpoint.rs:551-576 | A datagram for a pending attempt is kept, behind those before it, if and only if it fits the limit of the attempt and that of all attempts; otherwise nothing changes. |
| `EndpointSteps.AttemptIff` | src/endpoint.rs:770-885 | An Initial packet that belongs nowhere is made an attempt if and only if it has 1200 octets, its keys, header and token are in order, IDs and room for attempts are not running out, and its ID has 8 octets or is one a Retry has given. |
| `EndpointSteps.ResetIff` | src/endpoint.rs:582-607 | Of packets that belong nowhere, exactly these are answered by a reset: Initial ones without a server and short ones with a valid non-empty ID, of 22 octets at least, with the interval passed. |
| `EndpointSteps.LookupIsExact` | src/endpoint.rs:1544-1582 | With tables that mirror the live connections the lookup finds a recipient if and only if it is the one the packet belongs to: by its ID, by its addresses if that is empty, and otherwise by the token in its last octets. |
| `EndpointSteps.RoutingOverRuns` | src/endpoint.rs:1437-1583 | The same for every packet after every run from an empty endpoint without an early return or a clash. |
| `EndpointFiled.StepFiled` | src/endpoint.rs:1470-1541 | On every run, early returns included, all live IDs, initial IDs and attempts stay filed, so that the assertion on removal never fires. |
| `EndpointStray.StepStrayIff` | src/endpoint.rs:699-709 | An operation leaves IDs filed under a handle that does not own them if and only if it is an early return that drew them, and none left behind ever goes. |
| `EndpointStray.RunStrayIff` | src/endpoint.rs:677-1060 | Over every run those IDs are exactly the ones drawn by early returns. |
| `EndpointStale.StepStaleIff` | src/endpoint.rs:909-1006 | An operation leaves an index entry behind if and only if it is an `accept` that returns early, and no entry left behind ever goes. |
| `EndpointStale.RunStaleIff` | src/endpoint.rs:909-1006 | Over every run the entries left behind are exactly those of the attempts so abandoned. |
| `EndpointStale.MissingBufferIff` | src/endpoint.rs:551-556 | On every run a datagram is looked up to a buffer that is gone, where the source panics, if and only if it has the ID of an abandoned attempt, not since given to a connection, and the attempt's slot is vacant. |
| `EndpointStale.StrangersBufferIff` | src/endpoint.rs:551-576 | It goes to another attempt's buffer if and only if, besides, the slot is in use again. |
| `EndpointStale.AbandonedAttempt` | src/endpoint.rs:909-919 | A run of four steps after which a packet is looked up to a missing buffer. |
| `EndpointStale.AbandonedReachesStranger` | src/endpoint.rs:551-576 | From there, a run after which that packet is buffered for another attempt. |
| `IdSupply.DrawEndsIff` | src/endpoint.rs:755-768 | The loop that draws an ID ends if and only if one of the generator's IDs is free. |
| `IdSupply.FreeIff` | src/endpoint.rs:755-768 | One is free if and only if the empty ID is produced or not all producible IDs are in use. |
| `IdSupply.NoUnderflow` | src/endpoint.rs:1394-1400 | On every run the table of IDs is no larger than the ID space, so the subtraction of the exhaustion check cannot go below zero. |
| `IdSupply.CheckIsQuarter` | src/endpoint.rs:1390-1400 | With IDs of one to four octets the check passes if and only if a quarter of all IDs of that length are unused. |
| `IdSupply.CheckLeavesRoom` | src/endpoint.rs:1390-1400 | For a generator of all IDs of one to four octets, whoever passes the check finds the two IDs free that `accept` may draw. |
| `IdSupply.RunsDryIff` | src/endpoint.rs:1390-1400 | Some run ends with the check passing and nothing to draw, so that the first draw of `connect` or `accept` never ends, if and only if IDs are not empty and the check would pass with every producible ID in use. |
| `IdDemand.CanDrawIff` | src/endpoint.rs:755-768 | So many IDs can be drawn one after the other if and only if there is room for them among the generator's. |
| `IdDemand.ConnectReliableIff` | src/endpoint.rs:684-696 | `connect` returns on every run if and only if IDs are empty or the check refuses before all are in use. |
| `IdDemand.AcceptReliableIff` | src/endpoint.rs:936-992 | `accept` returns on every run if and only if IDs are empty or the check refuses before all but one are in use. |
| `IdDemand.SecondDrawFails` | src/endpoint.rs:984-986 | With 193 IDs of one octet `connect` always returns and `accept` does not. |
| `IdDemand.FewerThanTwoIff` | src/endpoint.rs:1390-1400 | Some run ends with the check passing and fewer than two IDs free if and only if IDs are not empty and the check would pass with all but one in use. |
| `IdDemand.IssueReliableIff` | src/endpoint.rs:732-753 | Requests for more IDs, which no check stands before, are met on every run if and only if IDs are empty. |
| `IdDemand.RetireReliable` | src/endpoint.rs:327-335 | An ID that takes the place of a retired one is always found. |
| `IdDemand.AllReliableIff` | src/endpoint.rs:755-768 | Over all runs every draw the endpoint makes finds an ID if and only if IDs are empty. |
| `IdDemand.OneOctetBurst` | src/connection/mod.rs:4079-4093 | A run of forty connections with IDs of one octet, each asking for the usual seven more, in which the thirty-first request is never answered. |
| `IdDemand.IdsTotal` | src/endpoint.rs:1192-1252 | The table of IDs has exactly as many entries as the live connections have IDs. |
| `IdDemand.PlannedRunCompletes` | src/endpoint.rs:755-768 | On every run without an early return: with at most n connections at a time of at most k IDs each, and n * k IDs to draw from, every call that keeps to that completes. |
| `IdSupply.HashedSpace` | src/cid_generator.rs:147-183 | A generator whose ID is determined by its first three octets has at most 2^24 IDs, and that many if and only if it comes to all of them. |
| `IdSupply.HashedRunsDry` | src/config/mod.rs:86-92 | The default generator runs dry, with the check passing, within 2^24 connections. |
| `EndpointLimits.StepServer` | src/endpoint.rs:174-176 | Nothing but setting it changes the server configuration in force. |
| `EndpointLimits.StepBounded` | src/endpoint.rs:551-576 | No event takes the pending attempts, or the octets buffered for one or for all of them, over the limits in force. |
| `EndpointLimits.RunBounded` | src/config/mod.rs:460-506 | On every run, whatever arrives, attempts and buffered octets stay within the largest limits configured. |
| `CidSpace.SpaceBound` | src/cid_generator.rs:39-40 | No set of IDs of n octets has more than 256^n members. |
| `CidSpace.FreeIffRoom` | src/endpoint.rs:755-768 | An ID of n octets outside a set exists if and only if the set is smaller than the space. |
| `StatelessReset.ResetSizeBounds` | src/endpoint.rs:609-674 | Every reset has at least 21 octets and fewer than the packet that caused it, and room for an ID of any length if that packet had more than 42. |
| `StatelessReset.ResetSizesExactly` | src/endpoint.rs:625-658 | The sizes the random number can give are exactly 21 up to one less than the packet's, for packets of up to 42 octets, and 41 up to two less for longer ones. |
| `StatelessReset.ExchangeEnds` | src/endpoint.rs:609-674 | Two endpoints that answer each other's resets stop within initial length minus 21 answers. |
| `StatelessReset.StepReset` | src/endpoint.rs:617-674 | The time of the last reset changes exactly when a reset is sent, to the time of that. |
| `StatelessReset.ResetsAreSpaced` | src/endpoint.rs:617-674 | Over every run successive resets are at least the configured interval apart. |
| `EndpointObject.Endpoint.constructor` | src/endpoint.rs:144-171 | A new endpoint is empty, valid and meets the invariant, with any generator. |
| `EndpointObject.Endpoint.NewCid` | src/endpoint.rs:755-768 | The loop hangs if and only if none of the generator's IDs is free; otherwise it ends with an ID that is empty or was not in use, registered for the handle. |
| `EndpointObject.Endpoint.Connect` | src/endpoint.rs:677-730 | On every run: hangs if and only if its draw finds nothing, changing nothing; otherwise takes exactly the step of the model, and returns a handle if and only if all checks pass and the session starts. |
| `EndpointObject.Endpoint.SendStatelessReset` | src/endpoint.rs:609-674 | Sends if and only if the interval has passed and the packet is long enough, and then 21 octets or more, fewer than came in. |
| `EndpointObject.Endpoint.HandleFirstPacket` | src/endpoint.rs:770-885 | A new attempt, with the packet's ID, its addresses and whether it may be retried, if and only if server, length, keys, header, token, limits and ID length allow it; a refusal if and only if one of the named conditions after the keys fails; a reset only without a server; otherwise the packet is dropped. |
| `EndpointObject.Endpoint.Handle` | src/endpoint.rs:485-607 | On every run: routes by the lookup, panics if and only if that leads to a missing buffer, and says of what belongs nowhere exactly when it becomes an attempt, is refused or is answered by a reset; under the invariant it routes to live connections. |
| `EndpointObject.Endpoint.Lookup` | src/endpoint.rs:1544-1582 | The cascade of lookups is the model's lookup, whose result is characterised by `LookupIsExact`. |
| `EndpointObject.Endpoint.SetUp` | src/endpoint.rs:971-1060 | Draws one or two IDs, each free when drawn, hangs if and only if there is no room for them, and otherwise ends in the model's state on all paths; a connection that comes of it has the first ID as number 0 and the second as number 1. |
| `EndpointObject.Endpoint.Accept` | src/endpoint.rs:890-1060 | On every run: hangs if and only if one of its draws finds nothing; otherwise takes exactly the step of the model, and returns a handle, of a live connection with the drawn IDs numbered in order, if and only if every check passes. |
| `EndpointObject.Endpoint.HandleDrained` | src/endpoint.rs:465-479 | On every run the entry the source asserts to remove is there; takes the model's step, for unknown handles too. |
| `EndpointObject.Endpoint.CleanUp` | src/endpoint.rs:1186-1190 | On every run the counter and the index entry are there to be reduced. |
| `EndpointObject.Endpoint.Retry` | src/endpoint.rs:1112-1174 | Succeeds if and only if the attempt may be retried and token and header encode; otherwise the attempt stays pending and the tables are unchanged. An ID is taken from the generator, unregistered, even when encoding then fails. |
| `EndpointObject.Endpoint.SendNewIdentifiers` | src/endpoint.rs:732-753 | On every run and for every number: issues as many IDs as asked for, or as there are, numbered in their order from the connection's count on, and hangs if and only if there are fewer; the endpoint stays valid. |
| `EndpointObject.Endpoint.HandleRetire` | src/endpoint.rs:327-335 | On every run retiring leaves room for the replacement; the number is gone, all others keep their IDs, and the next number is given out if and only if more is allowed. |
| `RemoteCids.CidQueue.FirstOccupied` | src/cid_queue.rs:119-124 | The nearest occupied slot at or after a distance, through the wrap-around, or none if there is none. |
| `RemoteCids.CidQueue.Insert` | src/cid_queue.rs:50-100 | For every state and frame: rejects exactly what is retired or too far ahead, and otherwise drops the numbers below `retire_prior_to`, adds the new one, activates the least, and reports a range if and only if the active ID changed. |
| `RemoteCids.CidQueue.Next` | src/cid_queue.rs:104-116 | Drops the least number and activates the next one, or changes nothing if there is none. |
| `RemoteCids.CidQueue.UpdateInitialCid` | src/cid_queue.rs:127-130 | Replaces ID 0 only. |
| `RemoteCids.StepReports` | src/cid_queue.rs:74-99 | A range is reported if and only if the active ID was given up; it starts there, spans one to five numbers and carries the new ID's token, so the fallback exits are never taken. |
| `RemoteCids.StepLeaves` | src/cid_queue.rs:74-116 | The stored numbers a call removes are exactly those its report covers. |
| `RemoteCids.ReportsIncrease` | src/cid_queue.rs:50-116 | Over every run the reported ranges are disjoint and increasing. |
| `RemoteCids.LeftIffReported` | src/cid_queue.rs:50-116 | Over every run a number ever stored is no longer stored if and only if it was reported. |
| `RemoteCids.RetiredExactlyOnce` | src/cid_queue.rs:50-116 | Over every run each number that left the window is in exactly one reported range. |
| `Coding.ValueOfBigEndian` | src/coding.rs:38-85 | Fixed-width numbers are read back as written. |
| `Coding.BigEndianOfValue` | src/coding.rs:38-85 | Octets are the writing of the number they spell: the codec is a bijection at each width. |
| `Coding.ReadFixedBack` | src/coding.rs:38-130 | A fixed-width number is read back whatever follows it. |
| `Coding.ReadVarBack` | src/varint.rs:74-105 | Every value below 2^62 is read back from its shortest form, whatever follows, and that has the announced size. |
| `Coding.ReadVarBounds` | src/varint.rs:183-220 | Whatever is read, from any octets, is below 2^62 and used one to eight octets of the front. |
| `Coding.ReadVarLocal` | src/varint.rs:183-220 | What is read depends only on the octets used. |
| `RangeSet.ArrayRangeSet.Insert` | src/range_set/array_range_set.rs:95-157 | The set becomes its union with the range, stays sorted with gaps between non-empty ranges, and a change is reported if and only if something was missing. |
| `RangeSet.ArrayRangeSet.ExtendLeft` | src/range_set/array_range_set.rs:112-128 | Union, when an existing range reaches the new one's end. |
| `RangeSet.ArrayRangeSet.ExtendRight` | src/range_set/array_range_set.rs:129-148 | Union, when the new range goes beyond an existing one and may swallow later ones. |
| `AckFrames.ScanAckBlocks` | src/frame.rs:975-986 | The loop accepts and rejects as the reference scan does, and returns the octets covered. |
| `AckFrames.ScanMakesIterationSafe` | src/frame.rs:1023-1039 | On any octets: if the scan accepts n further blocks, the iterator never subtracts below zero and yields n + 1 non-empty, descending, non-adjacent ranges up to the largest. |
| `AckFrames.AckIter.Next` | src/frame.rs:1023-1039 | Yields the next of the ranges and leaves the rest. |
| `AckFrames.BlocksRoundTrip` | src/frame.rs:535-542 | The blocks of every well-formed set are scanned to their end and give the set back, highest range first. |
| `AckFrames.FewRanges` | src/frame.rs:534 | There are never more ranges than numbers, so the block count always has a wire form. |
| `AckFrames.WriteBlocks` | src/frame.rs:535-542 | The loop writes exactly the reference form of the set, without a failure. |
| `AckFrames.WriteEcn` | src/frame.rs:595-600 | Succeeds if and only if all three counts are below 2^62. |
| `AckFrames.TryEncodeAck` | src/frame.rs:511-547 | Succeeds if and only if the set is not empty and everything has a wire form; then appends exactly that. |
| `Frames.FrameRoundTrip` | src/frame.rs:751-933 | Every frame with a wire form is decoded from it, whatever follows. |
| `Frames.NumericBack` | src/frame.rs:1061-1068 | The same for frames that are numbers only. |
| `Frames.WithDataBack` | src/frame.rs:687-714 | The same for CRYPTO, NEW_TOKEN and the close frames. |
| `Frames.StreamBack` | src/frame.rs:641-665 | STREAM frames come back with and without a length, an offset and the last flag. |
| `Frames.DatagramBack` | src/frame.rs:1144-1163 | DATAGRAM frames come back with and without a length. |
| `Frames.NewConnectionIdBack` | src/frame.rs:1112-1120 | NEW_CONNECTION_ID frames come back, given that they do not retire themselves. |
| `Frames.ObservedBack` | src/frame.rs:1215-1265 | OBSERVED_ADDRESS frames of both families come back. |
| `Frames.AckBack` | src/frame.rs:809-828 | ACK frames come back with their blocks as they were. |
| `Frames.DecodedIsValid` | src/frame.rs:751-933 | On any octets: a decoded frame used at least one and has a wire form again, so what the decoder accepts is what the encoders can say; NEW_CONNECTION_ID thus has `retire_prior_to <= sequence`. |
| `Frames.Iter.Next` | src/frame.rs:941-958 | Yields the next item and leaves the rest; after an error nothing is left. |
| `Frames.ItemsBounded` | src/frame.rs:941-958 | On any octets: at most as many items as octets, and only the last can be an error. |
| `Frames.PayloadRoundTrip` | src/frame.rs:743-958 | Concatenated forms of any list of frames, optionally ended by a STREAM or DATAGRAM without length, parse back to exactly that list. |
| `Frames.AckRoundTrip` | src/frame.rs:511-547 | What the ACK encoder writes is decoded, whatever follows, to the same delay and ECN counts, and iterates over the set's ranges, highest first. |
| `Frames.DescendingAcks` | src/frame.rs:1023-1039 | Those ranges acknowledge exactly the numbers of the set. |
| `Frames.RangesOf` | src/range_set/array_range_set.rs:91-93 | Inserting numbers one by one in any order gives a well-formed set of exactly those. |
| `Frames.AckCoding` | src/frame.rs:1286-1310 | For all packet numbers in any order: collected, encoded, decoded and iterated, exactly they are acknowledged. |
| `WireForms.VarExamples` | src/varint.rs:92-110 | The four examples of Appendix A.1 of RFC 9000. |
| `WireForms.OneNumber` | src/frame.rs:139-182 | Type octet and number of the frames of sections 19.9, 19.11, 19.12, 19.14 and 19.16 of RFC 9000. |
| `WireForms.MoreNumbers` | src/frame.rs:1055-1094 | Type octet and order of fields of the frames of sections 19.4, 19.5, 19.10 and 19.13 of RFC 9000. |
| `WireForms.CountedOctets` | src/frame.rs:681-714 | Type octet, fields, length and octets of CRYPTO, NEW_TOKEN and the close frames, as in sections 19.6, 19.7 and 19.19 of RFC 9000. |
| `WireForms.StreamForms` | src/frame.rs:635-665 | The eight STREAM types and which fields each has, as in section 19.8 of RFC 9000. |
| `WireForms.DatagramForms` | src/frame.rs:1138-1163 | Both DATAGRAM forms, as in section 4 of RFC 9221. |
| `WireForms.NewConnectionIdIff` | src/frame.rs:829-860 | NEW_CONNECTION_ID is malformed if and only if it retires beyond its own number or its ID is empty or longer than 20 octets, and is read if and only if it is not and the ID and 16 octets of token are there. |
| `WireForms.UnknownTypeIff` | src/frame.rs:751-933 | On any octets the error for an unknown type comes up if and only if the type is none of the known ones. |
| `CloseFrames.CutRoundTrip` | src/frame.rs:381-398 | The receiver of a close frame gets the code, the type and the longest part of the reason there was room for, all of it if and only if it fits. |
| `CloseFrames.CloseFits` | src/frame.rs:436-448 | With an error code below 2^14 the frame keeps to its room, whatever the reason and the room. |
| `CloseFrames.CutFillsRoom` | src/frame.rs:381-448 | A frame whose reason had to be cut is as long as its room, but for what the code needs besides two octets and what the shorter length saves. |
| `CloseFrames.LongReasonOverruns` | src/frame.rs:436-448 | With any larger code a reason of 100 octets overruns a room of 100. |
| `CloseFrames.CloseFitsIff` | src/frame.rs:381-448 | Close frames keep to their room for every reason and room if and only if the code is below 2^14. |
| `EngineSelection.DecisionRight` | src/connection_router.rs:1118-1218 | From the flags alone: QUIC at once if and only if preferred and usable, the constrained engine at once if and only if that is wanted and available, each of them by fallback if and only if only it is usable, and none if and only if neither is. |
| `EngineSelection.DetailedRight` | src/connection_router.rs:1068-1094 | Without fallback the engine is QUIC if and only if QUIC is preferred and supported. |
| `EngineSelection.StepKeeps` | src/connection_router.rs:1068-1094 | Every atomic step of every caller keeps each counter equal to the number of callers that count on it. |
| `EngineSelection.RunKeeps` | src/connection_router.rs:1118-1218 | The same in every interleaving. |
| `EngineSelection.NeverClampsInRun` | src/connection_router.rs:1118-1218 | In every interleaving, a caller about to lower a counter finds at least one on it: the saturating decrement never clamps. |
| `EngineSelection.QuiescentCounts` | src/connection_router.rs:1068-1218 | With no call in progress each selection counter is the calls that got the engine plus those that got none and wanted it, and the fallback counter the calls that fell back, all three told from the flags of the calls. |
| `HappyEyeballs.Interleave` | src/happy_eyeballs.rs:209-230 | The loop over two iterators is the alternation of the two lists. |
| `HappyEyeballs.SortAddresses` | src/happy_eyeballs.rs:183-233 | Computes the sorted list that the lemmas below characterise: a rearrangement that keeps the order of the IPv6 and of the IPv4 addresses. |
| `HappyEyeballs.SortKeepsFamilies` | src/happy_eyeballs.rs:183-233 | The result is a permutation that keeps the order of the preferred addresses and of the others. |
| `HappyEyeballs.SortShape` | src/happy_eyeballs.rs:183-233 | Which positions are preferred: the first ones, as many as configured and available, then every second one until one family is used up. |
| `HappyEyeballs.SortKeepsOrder` | src/happy_eyeballs.rs:183-233 | The IPv6 addresses keep their order, and so do the IPv4 addresses. |
| `HappyEyeballs.FamilyAtEveryPlace` | src/happy_eyeballs.rs:183-233 | Whether IPv6 or IPv4 stands at each position, from the numbers of both in the input: with IPv6 preferred as many IPv6 as configured and available, then IPv4 and IPv6 by turns, then what is left; exchanged when IPv4 is. |
| `HappyEyeballs.StepStartsNext` | src/happy_eyeballs.rs:378-462 | The timer and every failure start the next address in order, as long as there is one; a success starts nothing and decides the race. |
| `HappyEyeballs.StepKeeps` | src/happy_eyeballs.rs:355-462 | Every event keeps attempts started equal to attempts in flight plus failures, as multisets of addresses, with some attempt in flight until the race is decided. |
| `HappyEyeballs.RunKeeps` | src/happy_eyeballs.rs:355-462 | Under every schedule that holds, and the events are no more than the race has left to spend. |
| `HappyEyeballs.WonByLastEvent` | src/happy_eyeballs.rs:355-462 | The first success received decides the race and is its outcome. |
| `HappyEyeballs.RaceDecided` | src/happy_eyeballs.rs:340-462 | Under every schedule the race takes at most twice as many events as addresses, and returns the first success or one error per address as a multiset. |
| `HappyEyeballs.RaceConnect` | src/happy_eyeballs.rs:340-462 | The event loop computes the outcome of the schedule it is given. |
| `PendingBuffer.EvictedIsLeast` | src/bounded_pending_buffer.rs:90-100 | A push keeps the longest suffix of the queue beside which the new message keeps to both limits, or nothing: every longer one breaks one of them. |
| `PendingBuffer.PushGives` | src/bounded_pending_buffer.rs:77-110 | A message over the limit changes nothing; any other stands behind that suffix, with the time of the push, what gave way is counted as dropped, none if there was room, and other peers keep their queues. |
| `PendingBuffer.RoomLosesNothing` | src/bounded_pending_buffer.rs:90-110 | A queue with room for the message in octets and in messages loses nothing. |
| `PendingBuffer.RetainedExactly` | src/bounded_pending_buffer.rs:164-184 | Expiry keeps an entry, as often as it is there, if and only if its age is below the time to live; an entry from the future has age zero. |
| `PendingBuffer.CleanupGives` | src/bounded_pending_buffer.rs:164-184 | After a cleanup every peer has exactly its entries younger than the time to live. |
| `PendingBuffer.PushedWithinLimits` | src/bounded_pending_buffer.rs:77-110 | After a push the octets are within the limit and the messages within the limit or one. |
| `PendingBuffer.RetainedIsSuffix` | src/bounded_pending_buffer.rs:164-184 | With entries in order of time, expiry removes a prefix. |
| `PendingBuffer.StepKeeps` | src/bounded_pending_buffer.rs:77-184 | Every operation keeps every queue non-empty and within its limits. |
| `PendingBuffer.StepConserves` | src/bounded_pending_buffer.rs:77-184 | Every operation accounts for each message: held, dropped, expired or taken. |
| `PendingBuffer.RunConserves` | src/bounded_pending_buffer.rs:77-184 | Over every run, whatever the clock does, accepted messages are those held, dropped, expired, popped and cleared. |
| `PendingBuffer.RunIsFifo` | src/bounded_pending_buffer.rs:77-184 | Over every run with a forward clock, what a peer's queue was given is, in order, what left it and what is left. |
| `PendingBuffer.PoppedInOrder` | src/bounded_pending_buffer.rs:113-132 | A peer's popped messages are a subsequence of its accepted ones. |
| `PendingBuffer.BoundedPendingBuffer.PushMessage` | src/bounded_pending_buffer.rs:77-110 | Refuses exactly what can never fit, and otherwise takes the model's step, with octets counted exactly; a queue with room loses nothing. |
| `PendingBuffer.BoundedPendingBuffer.MakeRoom` | src/bounded_pending_buffer.rs:90-100 | The loop drops the least number of oldest entries, and ends with room for the message or with nothing left. |
| `PendingBuffer.BoundedPendingBuffer.PopMessage` | src/bounded_pending_buffer.rs:113-124 | Hands out the oldest message; the saturating subtraction never saturates. |
| `PendingBuffer.BoundedPendingBuffer.PopAny` | src/bounded_pending_buffer.rs:127-132 | Returns nothing if and only if nothing is held, and otherwise some peer's oldest message. |
| `PendingBuffer.BoundedPendingBuffer.Stats` | src/bounded_pending_buffer.rs:187-195 | The figures are the totals the conservation laws are about. |
| `PendingBuffer.BoundedPendingBuffer.RetainFresh` | src/bounded_pending_buffer.rs:171-177 | The inner loop keeps exactly the entries within their time, octets counted exactly. |
| `PendingBuffer.BoundedPendingBuffer.CleanupExpired` | src/bounded_pending_buffer.rs:164-184 | In whatever order the peers come up, every queue loses exactly its expired entries and the counter gains their number. |
| `NewReno.StartsWithinIff` | src/congestion.rs:201-212 | The window starts within its bounds if and only if the initial window is no more than the maximum. |
| `NewReno.BoundsCanFail` | src/congestion.rs:201-263 | A maximum of 10000 is exceeded at once, and one of 100000 by a datagram size of 65535. |
| `NewReno.StepWithinIff` | src/congestion.rs:216-263 | Each event keeps the window in its bounds if and only if it is not a datagram size over half the maximum, or zero. |
| `NewReno.RunWithinIff` | src/congestion.rs:201-263 | Over every run the window stays in its bounds, and is never zero where it divides, if and only if it starts there and no such datagram size occurs. |
| `NewReno.PositiveIsDefined` | src/congestion.rs:216-263 | With positive bounds and datagram sizes no run divides by a zero window, also above the maximum. |
| `NewReno.AckFitsIn64Bits` | src/congestion.rs:229-236 | Within the bounds no intermediate value leaves 64 bits, for maxima and sizes below 2^48. |
| `NewReno.GrowthBound` | src/congestion.rs:233-236 | In congestion avoidance any acknowledgements together grow the window by at most their octets times the datagram size over the starting window. |
| `NewReno.OneDatagramPerWindow` | src/congestion.rs:233-236 | Acknowledging at most one window, in however many acknowledgements, grows it by at most one datagram (section 7.3.3 of RFC 9002). |
| `NewReno.WholeWindowGrowsByDatagram` | src/congestion.rs:233-236 | The bound is met by one acknowledgement of the whole window. |
| `NewReno.AckGrowsIff` | src/congestion.rs:216-237 | An acknowledgement grows the window if and only if the window was in use, the packet is from after the recovery period began, there is room below the maximum, and it covers an octet in slow start, or enough octets for one more in congestion avoidance; nothing else changes. |
| `NewReno.NewSizeIsUsed` | src/congestion.rs:259-263 | A datagram size reported is the growth per window from then on, and twice it the least window, also after persistent congestion. |
| `NewReno.SlowStartAddsAll` | src/congestion.rs:229-231 | Below the threshold all acknowledged octets are added, in however many acknowledgements, so one window doubles it (section 7.3.1 of RFC 9002). |
| `NewReno.StartsInSlowStart` | src/congestion.rs:201-231 | A new controller adds every octet acknowledged, up to its maximum, for packets sent after its creation. |
| `NewReno.EarlierPacketsIgnored` | src/congestion.rs:201-248 | Packets sent no later than that neither grow nor cut its window. |
| `NewReno.CutHalves` | src/congestion.rs:239-257 | A cut halves the window but for the minimum, makes that the threshold, and restarts from the minimum on persistent congestion (sections 7.3.2 and 7.6.2 of RFC 9002). |
| `NewReno.OnlyCutsShrink` | src/congestion.rs:216-263 | Over every run without a cut the window does not shrink. |
| `NewReno.OneCutPerPeriod` | src/congestion.rs:239-257 | Over every run that divides by no zero window each cut is for a packet sent after the cut before it (section 7.3.2 of RFC 9002). |
| `NewReno.CutsNeverOverlap` | src/congestion.rs:239-257 | With losses noticed no earlier than the packets were sent, that holds between any two cuts. |
| `NewReno.Controller.OnAck` | src/congestion.rs:216-237 | Takes the model's step; asks only that it does not divide by a zero window. |
| `ConnectionStrategy.FailAdvances` | src/connection_strategy.rs:355-487 | In every state a failure takes exactly the first thing off what remains of the plan and logs it. |
| `ConnectionStrategy.PlanAt` | src/connection_strategy.rs:31-54 | What the plan has at each place, from the configuration alone. |
| `ConnectionStrategy.NewCoordinatorIsUsed` | src/connection_strategy.rs:417-422 | A coordinator set is the one of every round left to try, also where there was none before, and the relays to try stay the same. |
| `ConnectionStrategy.Connector.Drive` | src/connection_strategy.rs:31-54 | For every configuration and every outcome the documented loop ends, having tried the plan in order up to the first success: connected by that, or failed with exactly the plan in its log. |
| `ConnectionStrategy.DeployedFollowsPlanIff` | src/p2p_endpoint.rs:2330-2547 | The log of the endpoint's driver when everything fails is what the plan promises if and only if IPv6 is enabled, hole punching unused, and at most one relay used. |
| `ConnectionStrategy.LastRoundLoggedTwice` | src/p2p_endpoint.rs:2427-2507 | A configuration of two rounds, logged as three. |
| `ConnectionStrategy.FailAdvancesDeployed` | src/p2p_endpoint.rs:2330-2547 | In every state on its way a failure takes exactly the first thing off what the endpoint's driver has left to try, and keeps what its log will be. |
| `ConnectionStrategy.DeployedPlanAt` | src/p2p_endpoint.rs:2330-2547 | What the endpoint's driver tries at each place, from the configuration alone. |
| `ConnectionStrategy.RelaysTriedIff` | src/p2p_endpoint.rs:2509-2538 | Every relay of the plan is tried by the endpoint's driver if and only if none differs from the first. |
| `ConnectionStrategy.Connector.DriveDeployed` | src/p2p_endpoint.rs:2278-2547 | For every configuration and outcome the endpoint's loop ends, having tried direct addresses, rounds and the first relay in order: connected by the first success, or by itself, stopped by a raced connection whose setup fails, or with everything tried and the log that `DeployedFollowsPlanIff` is about. |
| `ConnectionStrategy.Connector.DriveWithoutAddress` | src/p2p_endpoint.rs:2330-2340 | Without an address of the target nothing is tried: the loop stops at the first stage that needs one, or gives up with the direct stages in its log. |

## Left out

- TLS, packet protection, header decoding, retry tokens and reset-token derivation: their outcomes are inputs of the model.
- Version negotiation and packets that do not decode: they change nothing the model speaks of.
- `peer_connections`, hole-punch and address-update queues, relay forwarding and relay statistics of the endpoint: plain queues and counters.
- Bodies of the NAT-traversal extension frames: everything about frames is proved for an arbitrary codec of theirs.
- Writing in place by the simple frame encoders: their output is a value; only the ACK encoder appends to a writer.
- Encoders of DATA_BLOCKED, STREAM_DATA_BLOCKED and STREAMS_BLOCKED: the repository has none; their forms follow sections 19.12 to 19.14 of RFC 9000.
- `subtract`, `remove` and `pop_min` of the range set, and the B-tree range set: acknowledgement coding does not use them.
- EndpointState.Receive: where the source panics on a missing buffer the model leaves the state alone, so that what is proved of runs also covers runs past such a packet.
- EndpointObject.Endpoint.Accept: where it hangs, the state it leaves is not described, since the source never gets to use it again.
- IdSupply.NoUnderflow: for generators whose IDs have the length they declare.
- EngineSelection.QuiescentCounts: for fewer than 2^64 calls, after which the source's counters wrap.
- EngineSelection.NeverClampsInRun: the same.
- NewReno.Controller.OnAck: does not model 64-bit overflow; `AckFitsIn64Bits` says when there is none.
- PendingBuffer.RunIsFifo: requires a clock that does not run backwards, as the source's clock promises; `RunConserves` does not.
- Panics inside racing attempts, cancellation of the losers and timer values of Happy Eyeballs: the schedule of events is an input.
- The other congestion controllers, loss detection, streams, flow control and the connection itself.
- Candidate discovery, NAT traversal sessions, the relay protocol, node configuration and the async runtime.

/**
 What pending connection attempts can take of the endpoint's memory: the limits of the server
 configuration (src/config/mod.rs) over whole runs, whatever arrives.
 */
module EndpointLimits {
  import opened Prelude
  import opened EndpointState
  import opened EndpointRuns

  /** No limit of the configuration in force exceeds that of `m`. */
  predicate Under(config: Option<ServerConfig>, m: ServerConfig) {
    config.Some? ==>
      && config.value.maxIncoming <= m.maxIncoming
      && config.value.incomingBufferSize <= m.incomingBufferSize
      && config.value.incomingBufferSizeTotal <= m.incomingBufferSizeTotal
  }

  ghost predicate EachUnder(buffers: map<nat, IncomingBuffer>, size: nat) {
    forall i | i in buffers :: buffers[i].totalBytes <= size
  }

  ghost predicate Bounded(s: State, m: ServerConfig) {
    && |s.buffers| <= m.maxIncoming
    && s.totalBytes <= m.incomingBufferSizeTotal
    && EachUnder(s.buffers, m.incomingBufferSize)
  }

  predicate KeepsUnder(e: Event, m: ServerConfig) {
    e.SetServerConfigEvent? ==> Under(e.config, m)
  }

  lemma SmallerMap<V>(b: map<nat, V>, i: nat)
    requires i in b
    ensures |b - {i}| == |b| - 1
  {
    assert (b - {i}).Keys == b.Keys - {i};
    assert |(b - {i}).Keys| == |b - {i}| && |b.Keys| == |b|;
  }

  lemma LargerMap<V>(b: map<nat, V>, i: nat, v: V)
    ensures |b[i := v]| == if i in b then |b| else |b| + 1
  {
    assert b[i := v].Keys == b.Keys + {i};
    assert |b[i := v].Keys| == |b[i := v]| && |b.Keys| == |b|;
    if i in b {
      assert b.Keys + {i} == b.Keys;
    }
  }

  lemma DropBounded(s: State, m: ServerConfig, idx: nat)
    requires Bounded(s, m) && idx in s.buffers
    ensures Bounded(DropBuffer(s, idx), m)
  {
    SmallerMap(s.buffers, idx);
  }

  lemma BufferBounded(s: State, m: ServerConfig, idx: nat, len: nat)
    requires Bounded(s, m) && Under(s.server, m) && idx in s.buffers
    ensures Bounded(BufferDatagram(s, idx, len), m)
  {
    LargerMap(s.buffers, idx, IncomingBuffer(s.buffers[idx].datagrams + [len], s.buffers[idx].totalBytes + len));
  }

  lemma FirstBounded(c: Config, s: State, m: ServerConfig, now: Time, a: FourTuple, p: Packet,
                     in_: FirstPacketInputs, idx: nat)
    requires Bounded(s, m) && Under(s.server, m) && idx !in s.buffers && p.kind.InitialPacket?
    ensures Bounded(FirstPacket(c, s, now, a, p, in_, idx), m)
  {
    hide InsertInitial, CidsExhausted;
    LargerMap(s.buffers, idx, IncomingBuffer([], 0));
  }

  lemma ReceiveBounded(c: Config, s: State, m: ServerConfig, now: Time, a: FourTuple, p: Packet,
                       in_: FirstPacketInputs, idx: nat, cidValid: bool)
    requires Bounded(s, m) && Under(s.server, m) && idx !in s.buffers
    ensures Bounded(Receive(c, s, now, a, p, in_, idx, cidValid), m)
  {
    hide Get, FirstPacket, BufferDatagram;
    match Get(s.index, a, p)
    case Some(ToIncoming(i)) =>
      if i in s.buffers {
        BufferBounded(s, m, i, p.len);
      }
    case None =>
      if p.kind.InitialPacket? {
        FirstBounded(c, s, m, now, a, p, in_, idx);
      }
    case _ =>
  }

  /** Nothing but `set_server_config` changes the configuration in force. */
  lemma StepServer(c: Config, s: State, e: Event)
    requires Enabled(c, s, e)
    ensures Step(c, s, e).server == if e.SetServerConfigEvent? then e.config else s.server
  {
    hide ConnectProceeds, AcceptProceeds, Get, RemoveConn, InsertConn, RefusedEarly, CidsExhausted;
    match e
    case NeedIdentifiersEvent(ch, cids) => IssueAllServer(s, ch, cids);
    case _ =>
  }

  lemma {:induction false} IssueAllServer(s: State, ch: Handle, cids: seq<Cid>)
    requires ch in s.connections
    ensures IssueCids(s, ch, cids).server == s.server
  {
    if cids != [] {
      var n := |cids| - 1;
      IssueAllServer(s, ch, cids[..n]);
    }
  }

  lemma StepBounded(c: Config, s: State, m: ServerConfig, e: Event)
    requires Enabled(c, s, e) && Bounded(s, m) && Under(s.server, m)
    ensures Bounded(Step(c, s, e), m)
  {
    hide Bounded, Connect, Accept, Receive, RemoveConn, SetResetToken, RetireCid, Drain, IssueCids, Under,
         ConnectProceeds, AcceptProceeds, Drawn;
    match e
    case ConnectEvent(ch, remote, versionOk, remoteId, locCid, setupOk) =>
      ConnectBounds(c, s, ch, remote, versionOk, remoteId, locCid, setupOk);
      SameBuffers(s, Step(c, s, e), m);
    case ResetTokenEvent(ch, remote, token) =>
      TokenBuffers(s, ch, remote, token);
      SameBuffers(s, Step(c, s, e), m);
    case RetireCidEvent(ch, sequence, more, locCid) =>
      RetireBuffers(s, ch, sequence, more, locCid);
      SameBuffers(s, Step(c, s, e), m);
    case DatagramEvent(now, a, p, first, vacant, cidValid) =>
      ReceiveBounded(c, s, m, now, a, p, first, vacant, cidValid);
    case AcceptEvent(idx, config, inputs, ch, locCid, prefCid) =>
      AcceptBounds(c, s, idx, config, inputs, ch, locCid, prefCid);
      DropBounded(s, m, idx);
      SameBuffers(DropBuffer(s, idx), Step(c, s, e), m);
    case GiveUpEvent(idx) =>
      DropBounded(s, m, idx);
      SameBuffers(DropBuffer(s, idx), Step(c, s, e), m);
    case NeedIdentifiersEvent(ch, cids) =>
      IssueAllBuffers(s, ch, cids);
      SameBuffers(s, Step(c, s, e), m);
    case DrainedEvent(ch) =>
      DrainBounds(s, ch);
      SameBuffers(s, Step(c, s, e), m);
    case SetServerConfigEvent(config) => SameBuffers(s, Step(c, s, e), m);
  }

  lemma TokenBuffers(s: State, ch: Handle, remote: SocketAddr, token: Token)
    requires ch in s.connections
    ensures var t := SetResetToken(s, ch, remote, token); t.buffers == s.buffers && t.totalBytes == s.totalBytes
  {
    hide InsertToken, DropToken;
  }

  lemma RetireBuffers(s: State, ch: Handle, n: nat, more: bool, cid: Cid)
    requires ch in s.connections
    ensures var t := RetireCid(s, ch, n, more, cid); t.buffers == s.buffers && t.totalBytes == s.totalBytes
  {
  }

  lemma SameBuffers(s: State, t: State, m: ServerConfig)
    requires Bounded(s, m) && t.buffers == s.buffers && t.totalBytes == s.totalBytes
    ensures Bounded(t, m)
  {
  }

  /** On every run, whatever arrives, the pending attempts and the octets buffered for each and for
      all of them stay within the largest limits ever configured. */
  lemma {:induction false} RunBounded(c: Config, s: State, m: ServerConfig, es: seq<Event>)
    requires IsRun(c, s, es) && Bounded(s, m) && Under(s.server, m)
    requires forall i | 0 <= i < |es| :: KeepsUnder(es[i], m)
    ensures Bounded(After(c, s, es), m) && Under(After(c, s, es).server, m)
    decreases |es|
  {
    hide Step, Enabled, Bounded, Under;
    if es != [] {
      assert KeepsUnder(es[0], m);
      StepServer(c, s, es[0]);
      StepBounded(c, s, m, es[0]);
      RunBounded(c, Step(c, s, es[0]), m, es[1..]);
    }
  }
}

/**
 Whole runs of the endpoint: when its invariant holds throughout, what routing then means, what holds on
 every run whatsoever, and that sequence numbers are not used again.
 */
module EndpointRuns {
  import opened Prelude
  import opened EndpointState
  import opened EndpointInvariant

  // ----- one step -----

  /** The early returns that leave the index behind. */
  predicate Leaks(c: Config, s: State, e: Event)
    requires Enabled(c, s, e)
  {
    match e
    case ConnectEvent(ch, remote, versionOk, remoteId, locCid, setupOk) =>
      ConnectLeaks(c, s, remote, versionOk, locCid, setupOk)
    case AcceptEvent(idx, config, inputs, ch, locCid, prefCid) =>
      AcceptLeaks(c, s, s.held[idx], config, inputs, locCid, prefCid)
    case _ => false
  }

  lemma RetireKeeps(s: State, ch: Handle, n: nat, more: bool, cid: Cid)
    requires Inv(s) && ch in s.connections
    requires n in s.connections[ch].locCids && more ==> Acceptable(s.index.ids - {s.connections[ch].locCids[n]}, cid)
    ensures Inv(RetireCid(s, ch, n, more, cid))
  {
    hide Inv;
    if n in s.connections[ch].locCids {
      ForgetKeeps(s, ch, n);
      if more {
        IssueKeeps(Forget(s, ch, n), ch, cid);
      }
    }
  }

  /** A step keeps the invariant exactly when it is not one of those early returns. */
  lemma StepKeepsIff(c: Config, s: State, e: Event)
    requires Inv(s) && Enabled(c, s, e)
    ensures Inv(Step(c, s, e)) <==> !Leaks(c, s, e)
  {
    hide Inv, Connect, Accept, Receive, CleanUpIncoming, IssueCids, SetResetToken, RetireCid, Drain, ConnectLeaks,
         AcceptLeaks;
    match e
    case ConnectEvent(ch, remote, versionOk, remoteId, locCid, setupOk) =>
      assert [locCid][0] == locCid;
      ConnectKeepsIff(c, s, ch, remote, versionOk, remoteId, locCid, setupOk);
    case DatagramEvent(now, addresses, p, first, vacant, cidValid) =>
      ReceiveKeeps(c, s, now, addresses, p, first, vacant, cidValid);
    case AcceptEvent(idx, config, inputs, ch, locCid, prefCid) =>
      AcceptKeepsIff(c, s, idx, config, inputs, ch, locCid, prefCid);
    case GiveUpEvent(idx) => GiveUpKeeps(s, idx);
    case NeedIdentifiersEvent(ch, cids) => IssueAllKeeps(c, s, ch, cids);
    case ResetTokenEvent(ch, remote, token) => TokenKeeps(s, ch, remote, token);
    case RetireCidEvent(ch, sequence, more, locCid) =>
      assert [locCid][0] == locCid;
      RetireKeeps(s, ch, sequence, more, locCid);
    case DrainedEvent(ch) => DrainKeeps(s, ch);
    case SetServerConfigEvent(config) => ConfigKeeps(s, config);
  }

  lemma ConfigKeeps(s: State, config: Option<ServerConfig>)
    requires Inv(s)
    ensures Inv(s.(server := config))
  {
  }

  // ----- runs -----

  predicate IsRun(c: Config, s: State, es: seq<Event>)
    decreases |es|
  {
    es == [] || (Enabled(c, s, es[0]) && IsRun(c, Step(c, s, es[0]), es[1..]))
  }

  function After(c: Config, s: State, es: seq<Event>): State
    requires IsRun(c, s, es)
    decreases |es|
  {
    if es == [] then s else After(c, Step(c, s, es[0]), es[1..])
  }

  lemma RunEmpty(c: Config, s: State)
    ensures IsRun(c, s, []) && After(c, s, []) == s
  {
  }

  lemma RunPrepend(c: Config, s: State, e: Event, es: seq<Event>)
    requires Enabled(c, s, e) && IsRun(c, Step(c, s, e), es)
    ensures IsRun(c, s, [e] + es) && After(c, s, [e] + es) == After(c, Step(c, s, e), es)
  {
    hide Enabled, Step;
    assert ([e] + es)[1..] == es;
  }

  lemma {:induction false} RunAppend(c: Config, s: State, es: seq<Event>, more: seq<Event>)
    requires IsRun(c, s, es) && IsRun(c, After(c, s, es), more)
    ensures IsRun(c, s, es + more) && After(c, s, es + more) == After(c, After(c, s, es), more)
    decreases |es|
  {
    hide Enabled, Step;
    if es == [] {
      assert es + more == more;
    } else {
      RunAppend(c, Step(c, s, es[0]), es[1..], more);
      assert (es + more)[1..] == es[1..] + more;
    }
  }

  /** Some step of the run is one of the early returns that leave the index behind. */
  predicate RunLeaks(c: Config, s: State, es: seq<Event>)
    requires IsRun(c, s, es)
    decreases |es|
  {
    es != [] && (Leaks(c, s, es[0]) || RunLeaks(c, Step(c, s, es[0]), es[1..]))
  }

  ghost predicate AlwaysInv(c: Config, s: State, es: seq<Event>)
    requires IsRun(c, s, es)
    decreases |es|
  {
    Inv(s) && (es == [] || AlwaysInv(c, Step(c, s, es[0]), es[1..]))
  }

  /** The invariant holds in every state of a run if and only if no step leaks. */
  lemma {:induction false} RunKeepsIff(c: Config, s: State, es: seq<Event>)
    requires Inv(s) && IsRun(c, s, es)
    ensures AlwaysInv(c, s, es) <==> !RunLeaks(c, s, es)
    decreases |es|
  {
    hide Inv, Step, Leaks, Enabled;
    if es != [] {
      StepKeepsIff(c, s, es[0]);
      var t := Step(c, s, es[0]);
      if Leaks(c, s, es[0]) {
        NotAlways(c, t, es[1..]);
      } else {
        RunKeepsIff(c, t, es[1..]);
      }
    }
  }

  lemma NotAlways(c: Config, s: State, es: seq<Event>)
    requires IsRun(c, s, es) && !Inv(s)
    ensures !AlwaysInv(c, s, es)
  {
  }

  lemma {:induction false} EndKeeps(c: Config, s: State, es: seq<Event>)
    requires IsRun(c, s, es) && AlwaysInv(c, s, es)
    ensures Inv(After(c, s, es))
    decreases |es|
  {
    hide Inv, Step, Enabled;
    if es != [] {
      EndKeeps(c, Step(c, s, es[0]), es[1..]);
    }
  }

  // ----- what routing means -----

  ghost predicate Owns(s: State, ch: Handle, cid: Cid) {
    ch in s.connections && HasCid(s.connections[ch].locCids, cid)
  }

  /** The table of IDs is the inverse of what the connections own, and no ID has two owners. */
  lemma IdsAreInverse(s: State, ch: Handle, cid: Cid)
    requires Inv(s) && cid != []
    ensures cid in s.index.ids && s.index.ids[cid] == ch <==> Owns(s, ch, cid)
  {
    hide InitialInv, RemotesInv, TokensInv, BuffersInv;
    if Owns(s, ch, cid) {
      var n :| n in s.connections[ch].locCids && s.connections[ch].locCids[n] == cid;
      assert IdsFiled(s.index.ids, ch, s.connections[ch].locCids, s.connections[ch].cidsIssued);
    }
  }

  lemma OneOwner(s: State, a: Handle, b: Handle, cid: Cid)
    requires Inv(s) && cid != [] && Owns(s, a, cid) && Owns(s, b, cid)
    ensures a == b
  {
    hide Inv, Owns;
    IdsAreInverse(s, a, cid);
    IdsAreInverse(s, b, cid);
  }

  predicate Early(p: Packet) {
    p.kind.InitialPacket? || p.kind.ZeroRttPacket?
  }

  ghost predicate Began(s: State, ch: Handle, cid: Cid) {
    ch in s.connections && s.connections[ch].side == Server && s.connections[ch].initCid == cid
  }

  ghost predicate Unowned(s: State, cid: Cid) {
    forall ch :: !Owns(s, ch, cid)
  }

  /** Where a packet with a non-empty ID belongs: to the owner of the ID, or, before anyone owns
      it, to the connection or attempt that began with it. */
  ghost predicate Rightful(s: State, p: Packet, to: Route) {
    match to
    case ToConnection(ch) =>
      Owns(s, ch, p.dstCid) || (Unowned(s, p.dstCid) && Early(p) && Began(s, ch, p.dstCid))
    case ToIncoming(i) =>
      Unowned(s, p.dstCid) && Early(p) && i in s.held && s.held[i].dstCid == p.dstCid
  }

  /** The lookup finds the rightful recipient whenever there is one. */
  lemma RightfulIsFound(s: State, a: FourTuple, p: Packet, to: Route)
    requires Inv(s) && p.dstCid != [] && Rightful(s, p, to)
    ensures Get(s.index, a, p) == Some(to)
  {
    hide Owns, IdsInv;
    if p.dstCid in s.index.ids {
      IdsAreInverse(s, s.index.ids[p.dstCid], p.dstCid);
    }
    if to.ToConnection? {
      IdsAreInverse(s, to.ch, p.dstCid);
    }
  }

  /** What the lookup finds is the rightful recipient; only without one does it fall back to a
      connection that announced the packet's last octets as its reset token from that address. */
  lemma FoundIsRightful(s: State, a: FourTuple, p: Packet, to: Route)
    requires Inv(s) && p.dstCid != [] && Get(s.index, a, p) == Some(to)
    ensures || Rightful(s, p, to)
            || (&& (forall r :: !Rightful(s, p, r))
                && to.ToConnection? && to.ch in s.connections
                && p.tail.Some? && s.connections[to.ch].resetToken == Some((a.remote, p.tail.value)))
  {
    hide Owns, IdsInv;
    if p.dstCid in s.index.ids {
      IdsAreInverse(s, s.index.ids[p.dstCid], p.dstCid);
    } else {
      forall ch ensures !Owns(s, ch, p.dstCid) {
        IdsAreInverse(s, ch, p.dstCid);
      }
    }
    if !Rightful(s, p, to) {
      forall r ensures !Rightful(s, p, r) {
        if Rightful(s, p, r) {
          RightfulIsFound(s, a, p, r);
        }
      }
    }
  }

  predicate Live(s: State, to: Route) {
    match to
    case ToConnection(ch) => ch in s.connections
    case ToIncoming(i) => i in s.buffers && i in s.held
  }

  /** Nothing is ever routed to a connection or buffer that is gone. */
  lemma RoutesAreLive(s: State, a: FourTuple, p: Packet)
    requires Inv(s) && Get(s.index, a, p).Some?
    ensures Live(s, Get(s.index, a, p).value)
  {
  }

  // ----- on every run, leaks or not -----

  /** Registered IDs are the generator's, and not empty. */
  ghost predicate SizedIds(c: Config, ids: map<Cid, Handle>) {
    forall cid | cid in ids :: cid != [] && cid in c.space
  }

  ghost predicate SizedLocs(c: Config, conns: Conns) {
    forall ch, n | ch in conns && n in conns[ch].locCids :: conns[ch].locCids[n] in c.space
  }

  /** Every ID is one the generator can produce. */
  ghost predicate Sized(c: Config, s: State) {
    SizedIds(c, s.index.ids) && SizedLocs(c, s.connections)
  }

  lemma {:induction false} IssueAllSized(c: Config, s: State, ch: Handle, cids: seq<Cid>)
    requires Sized(c, s) && ch in s.connections && forall i | 0 <= i < |cids| :: cids[i] in c.space
    ensures Sized(c, IssueCids(s, ch, cids))
  {
    if cids != [] {
      IssueAllSized(c, s, ch, cids[..|cids| - 1]);
    }
  }

  lemma {:induction false} IssueAllBuffers(s: State, ch: Handle, cids: seq<Cid>)
    requires ch in s.connections
    ensures var t := IssueCids(s, ch, cids);
            t.buffers == s.buffers && t.held == s.held && t.totalBytes == s.totalBytes
  {
    if cids != [] {
      IssueAllBuffers(s, ch, cids[..|cids| - 1]);
    }
  }

  /** What `connect` and `accept` do to buffers and IDs on all of their paths. */
  lemma ConnectBounds(c: Config, s: State, ch: Handle, remote: SocketAddr, versionOk: bool, remoteId: Cid,
                      locCid: Cid, setupOk: bool)
    ensures var t := Connect(c, s, ch, remote, versionOk, remoteId, locCid, setupOk);
            && t.buffers == s.buffers && t.held == s.held && t.totalBytes == s.totalBytes
            && forall d | d in t.index.ids ::
              d in s.index.ids || (ConnectProceeds(c, s, remote, versionOk) && d == locCid != [])
  {
    hide ConnectProceeds;
  }

  lemma AcceptBounds(c: Config, s: State, idx: nat, config: Option<ServerConfig>, in_: AcceptInputs,
                     ch: Handle, locCid: Cid, prefCid: Cid)
    requires idx in s.buffers && idx in s.held
    ensures var t := Accept(c, s, idx, config, in_, ch, locCid, prefCid);
            && t.buffers == DropBuffer(s, idx).buffers && t.held == DropBuffer(s, idx).held
            && t.totalBytes == DropBuffer(s, idx).totalBytes
            && var k := AcceptConfig(s, config);
               forall d | d in t.index.ids :: d in s.index.ids
                 || (AcceptProceeds(c, s, k, in_) && d != [] && d in AcceptDraws(k.value, in_, locCid, prefCid))
  {
    hide AcceptProceeds, Drain, Establish;
    var k := AcceptConfig(s, config);
    var pref := k.Some? && k.value.hasPreferredAddress;
    assert k.Some? ==> locCid in AcceptDraws(k.value, in_, locCid, prefCid);
    assert pref && in_.paramsOk ==> prefCid in AcceptDraws(k.value, in_, locCid, prefCid);
    var r := Register(s.index, locCid, ch);
    var u := DropBuffer(s, idx).(index := if pref then Register(r, prefCid, ch) else r);
    EstablishBounds(u, s.held[idx], ch, locCid, if pref then Some(prefCid) else None);
    DrainBounds(Establish(u, s.held[idx], ch, locCid, if pref then Some(prefCid) else None), ch);
  }

  lemma ConnectLocs(c: Config, s: State, ch: Handle, remote: SocketAddr, versionOk: bool, remoteId: Cid,
                    locCid: Cid, setupOk: bool)
    requires SizedLocs(c, s.connections) && (ConnectProceeds(c, s, remote, versionOk) ==> locCid in c.space)
    ensures SizedLocs(c, Connect(c, s, ch, remote, versionOk, remoteId, locCid, setupOk).connections)
  {
    hide ConnectProceeds;
  }

  lemma AcceptLocs(c: Config, s: State, idx: nat, config: Option<ServerConfig>, in_: AcceptInputs,
                   ch: Handle, locCid: Cid, prefCid: Cid)
    requires idx in s.buffers && idx in s.held && SizedLocs(c, s.connections)
    requires var k := AcceptConfig(s, config);
             AcceptProceeds(c, s, k, in_) ==> forall d | d in AcceptDraws(k.value, in_, locCid, prefCid) :: d in c.space
    ensures SizedLocs(c, Accept(c, s, idx, config, in_, ch, locCid, prefCid).connections)
  {
    hide AcceptProceeds, RemoveConn, InsertConn;
    var k := AcceptConfig(s, config);
    assert k.Some? ==> locCid in AcceptDraws(k.value, in_, locCid, prefCid);
    assert k.Some? && k.value.hasPreferredAddress && in_.paramsOk ==>
           prefCid in AcceptDraws(k.value, in_, locCid, prefCid);
  }

  lemma EstablishBounds(s: State, inc: Incoming, ch: Handle, locCid: Cid, pref: Option<Cid>)
    ensures var t := Establish(s, inc, ch, locCid, pref);
            && t.buffers == s.buffers && t.held == s.held && t.totalBytes == s.totalBytes
            && forall d | d in t.index.ids :: d in s.index.ids || d == locCid != []
  {
  }

  lemma DrainBounds(s: State, ch: Handle)
    ensures var t := Drain(s, ch);
            && t.buffers == s.buffers && t.held == s.held && t.totalBytes == s.totalBytes
            && forall d | d in t.index.ids :: d in s.index.ids
  {
  }

  lemma RetireSized(c: Config, s: State, ch: Handle, n: nat, more: bool, cid: Cid)
    requires Sized(c, s) && ch in s.connections && (n in s.connections[ch].locCids && more ==> cid in c.space)
    ensures Sized(c, RetireCid(s, ch, n, more, cid))
  {
  }

  lemma DrainSized(c: Config, s: State, ch: Handle)
    requires Sized(c, s)
    ensures Sized(c, Drain(s, ch))
  {
    hide DropToken;
  }

  lemma TokenSized(c: Config, s: State, ch: Handle, remote: SocketAddr, token: Token)
    requires Sized(c, s) && ch in s.connections
    ensures Sized(c, SetResetToken(s, ch, remote, token))
  {
    hide DropToken, InsertToken;
  }

  lemma ReceiveSized(c: Config, s: State, now: Time, a: FourTuple, p: Packet, first: FirstPacketInputs,
                     vacant: nat, cidValid: bool)
    ensures var t := Receive(c, s, now, a, p, first, vacant, cidValid);
            t.index == s.index.(initial := t.index.initial) && t.connections == s.connections
  {
    hide Get, FirstPacket, BufferDatagram;
    match Get(s.index, a, p)
    case Some(ToConnection(_)) =>
    case Some(ToIncoming(i)) =>
      if i in s.buffers {
        BufferSized(s, i, p.len);
      }
    case None =>
      if p.kind.InitialPacket? {
        FirstSized(c, s, now, a, p, first, vacant);
      }
  }

  lemma BufferSized(s: State, idx: nat, len: nat)
    requires idx in s.buffers
    ensures var t := BufferDatagram(s, idx, len);
            t.index == s.index && t.connections == s.connections && t.held == s.held
  {
  }

  lemma FirstSized(c: Config, s: State, now: Time, a: FourTuple, p: Packet, first: FirstPacketInputs, vacant: nat)
    requires p.kind.InitialPacket?
    ensures var t := FirstPacket(c, s, now, a, p, first, vacant);
            t.index == s.index.(initial := t.index.initial) && t.connections == s.connections
  {
    hide RefusedEarly;
  }

  lemma StepSized(c: Config, s: State, e: Event)
    requires Sized(c, s) && Enabled(c, s, e)
    ensures Sized(c, Step(c, s, e))
  {
    hide Connect, Accept, Receive, IssueCids, RetireCid, Drain, SetResetToken, ConnectProceeds, AcceptProceeds,
         AcceptDraws;
    match e
    case NeedIdentifiersEvent(ch, cids) => IssueAllSized(c, s, ch, cids);
    case ConnectEvent(ch, remote, versionOk, remoteId, locCid, setupOk) =>
      assert [locCid][0] == locCid;
      ConnectBounds(c, s, ch, remote, versionOk, remoteId, locCid, setupOk);
      ConnectLocs(c, s, ch, remote, versionOk, remoteId, locCid, setupOk);
    case AcceptEvent(idx, config, inputs, ch, locCid, prefCid) =>
      AcceptBounds(c, s, idx, config, inputs, ch, locCid, prefCid);
      AcceptLocs(c, s, idx, config, inputs, ch, locCid, prefCid);
    case RetireCidEvent(ch, sequence, more, locCid) =>
      assert [locCid][0] == locCid;
      RetireSized(c, s, ch, sequence, more, locCid);
    case DrainedEvent(ch) => DrainSized(c, s, ch);
    case ResetTokenEvent(ch, remote, token) => TokenSized(c, s, ch, remote, token);
    case DatagramEvent(now, a, p, first, vacant, cidValid) => ReceiveSized(c, s, now, a, p, first, vacant, cidValid);
    case _ =>
  }

  /** The octet counter is the total of the live buffers on every run, so that no subtraction from
      it goes below zero. */
  lemma StepBuffers(c: Config, s: State, e: Event)
    requires BuffersInv(s) && Enabled(c, s, e)
    ensures BuffersInv(Step(c, s, e))
  {
    hide Sum, SumLens, Connect, Accept, Receive;
    match e
    case NeedIdentifiersEvent(ch, cids) => IssueAllBuffers(s, ch, cids);
    case ConnectEvent(ch, remote, versionOk, remoteId, locCid, setupOk) =>
      ConnectBounds(c, s, ch, remote, versionOk, remoteId, locCid, setupOk);
    case AcceptEvent(idx, config, inputs, ch, locCid, prefCid) =>
      BuffersDrop(s, idx);
      AcceptBounds(c, s, idx, config, inputs, ch, locCid, prefCid);
    case GiveUpEvent(idx) => BuffersDrop(s, idx);
    case DatagramEvent(now, a, p, first, vacant, cidValid) => ReceiveBuffers(c, s, now, a, p, first, vacant, cidValid);
    case _ =>
  }

  lemma ReceiveBuffers(c: Config, s: State, now: Time, a: FourTuple, p: Packet, first: FirstPacketInputs,
                       vacant: nat, cidValid: bool)
    requires BuffersInv(s) && vacant !in s.buffers
    ensures BuffersInv(Receive(c, s, now, a, p, first, vacant, cidValid))
  {
    hide Get, RefusedEarly;
    var t := Receive(c, s, now, a, p, first, vacant, cidValid);
    match Get(s.index, a, p)
    case Some(ToIncoming(i)) =>
      if i in s.buffers {
        BufferCounts(s, i, p.len);
      }
    case None =>
      if vacant in t.buffers {
        BuffersArrive(s, vacant, Incoming(p.dstCid, a, first.mayRetry), t);
      }
    case _ =>
  }

  lemma {:induction false} RunSizedAndCounted(c: Config, s: State, es: seq<Event>)
    requires IsRun(c, s, es) && Sized(c, s) && BuffersInv(s)
    ensures Sized(c, After(c, s, es)) && BuffersInv(After(c, s, es))
    decreases |es|
  {
    hide Step, Sized, Enabled;
    if es != [] {
      StepSized(c, s, es[0]);
      StepBuffers(c, s, es[0]);
      RunSizedAndCounted(c, Step(c, s, es[0]), es[1..]);
    }
  }

  // ----- sequence numbers -----

  /** Numbers below `from` that `later` still uses are those `earlier` used, for the same IDs. */
  ghost predicate NoReuse(earlier: map<nat, Cid>, later: map<nat, Cid>, from: nat) {
    forall n | n in later && n < from :: n in earlier && later[n] == earlier[n]
  }

  lemma {:induction false} IssueAllNumbers(s: State, ch: Handle, cids: seq<Cid>, other: Handle)
    requires ch in s.connections && other in s.connections
    ensures var t := IssueCids(s, ch, cids);
            && other in t.connections
            && t.connections[other].cidsIssued == s.connections[other].cidsIssued + (if other == ch then |cids| else 0)
            && NoReuse(s.connections[other].locCids, t.connections[other].locCids, s.connections[other].cidsIssued)
  {
    if cids != [] {
      IssueAllNumbers(s, ch, cids[..|cids| - 1], other);
    }
  }

  lemma ConnectSpares(c: Config, s: State, ch: Handle, remote: SocketAddr, versionOk: bool, remoteId: Cid,
                      locCid: Cid, setupOk: bool, other: Handle)
    requires other in s.connections && other != ch
    ensures var t := Connect(c, s, ch, remote, versionOk, remoteId, locCid, setupOk);
            other in t.connections && t.connections[other] == s.connections[other]
  {
    hide ConnectProceeds;
  }

  lemma AcceptSpares(c: Config, s: State, idx: nat, config: Option<ServerConfig>, in_: AcceptInputs,
                     ch: Handle, locCid: Cid, prefCid: Cid, other: Handle)
    requires idx in s.buffers && idx in s.held && other in s.connections && other != ch
    ensures var t := Accept(c, s, idx, config, in_, ch, locCid, prefCid);
            other in t.connections && t.connections[other] == s.connections[other]
  {
    hide CidsExhausted, RemoveConn, InsertConn;
  }

  /** While a connection lives, its count of issued numbers only grows and no number is given to
      another ID. */
  lemma StepNumbers(c: Config, s: State, e: Event, ch: Handle)
    requires Enabled(c, s, e) && ch in s.connections && ch in Step(c, s, e).connections
    ensures var m, m' := s.connections[ch], Step(c, s, e).connections[ch];
            m.cidsIssued <= m'.cidsIssued && NoReuse(m.locCids, m'.locCids, m.cidsIssued)
  {
    hide Connect, Accept, Get, RefusedEarly, RemoveConn;
    match e
    case ConnectEvent(h, remote, versionOk, remoteId, locCid, setupOk) =>
      ConnectSpares(c, s, h, remote, versionOk, remoteId, locCid, setupOk, ch);
    case AcceptEvent(idx, config, inputs, h, locCid, prefCid) =>
      AcceptSpares(c, s, idx, config, inputs, h, locCid, prefCid, ch);
    case NeedIdentifiersEvent(h, cids) => IssueAllNumbers(s, h, cids, ch);
    case _ =>
  }

  predicate StaysLive(c: Config, s: State, es: seq<Event>, ch: Handle)
    requires IsRun(c, s, es)
    decreases |es|
  {
    ch in s.connections && (es == [] || StaysLive(c, Step(c, s, es[0]), es[1..], ch))
  }

  lemma {:induction false} NumbersNeverReused(c: Config, s: State, es: seq<Event>, ch: Handle)
    requires IsRun(c, s, es) && StaysLive(c, s, es, ch)
    ensures ch in After(c, s, es).connections
    ensures var m, m' := s.connections[ch], After(c, s, es).connections[ch];
            m.cidsIssued <= m'.cidsIssued && NoReuse(m.locCids, m'.locCids, m.cidsIssued)
    decreases |es|
  {
    hide Step, Enabled;
    if es != [] {
      var t := Step(c, s, es[0]);
      assert StaysLive(c, t, es[1..], ch) && ch in t.connections;
      StepNumbers(c, s, es[0], ch);
      NumbersNeverReused(c, t, es[1..], ch);
    }
  }

  // ----- steps of concrete runs -----

  const ALL_OK := FirstPacketInputs(true, true, true, true)

  /** The first packet of an attempt, at an endpoint that has neither connections nor tokens. */
  lemma Arrives(c: Config, s: State, k: ServerConfig, a: FourTuple, p: Packet)
    requires p.kind.InitialPacket? && p.len >= MIN_INITIAL_SIZE && |p.dstCid| >= 8
    requires s.server == Some(k) && s.buffers == map[] && k.maxIncoming > 0
    requires s.index.ids == map[] && s.index.tokens == map[] && p.dstCid !in s.index.initial
    ensures var e := DatagramEvent(0, a, p, ALL_OK, 0, true);
            && Enabled(c, s, e)
            && Step(c, s, e) == s.(buffers := map[0 := IncomingBuffer([], 0)],
                                   index := s.index.(initial := s.index.initial[p.dstCid := ToIncoming(0)]),
                                   held := s.held[0 := Incoming(p.dstCid, a, true)])
  {
    assert p.dstCid != [];
    assert !CidsExhausted(c.cidLen, 0);
    assert s.buffers[0 := IncomingBuffer([], 0)] == map[0 := IncomingBuffer([], 0)];
    hide CidsExhausted;
  }

  lemma ConfigStep(c: Config, s: State, k: Option<ServerConfig>)
    ensures Enabled(c, s, SetServerConfigEvent(k)) && Step(c, s, SetServerConfigEvent(k)) == s.(server := k)
  {
  }

  // ----- a leak, concretely -----

  /** A failed session setup leaves its ID behind, filed under a handle that the next connection
      is given: its packets then reach a stranger. */
  lemma LeakedIdReachesStranger(c: Config, cid: Cid, cid': Cid, remote: SocketAddr, a: FourTuple, p: Packet)
    requires c.cidLen > 4 && [] !in c.space && cid in c.space && cid' in c.space && cid != cid'
    requires !Unroutable(remote) && p.dstCid == cid
    ensures var failed := ConnectEvent(0, remote, true, cid, cid, false);
            var next := ConnectEvent(0, remote, true, cid, cid', true);
            && IsRun(c, EMPTY, [failed, next])
            && RunLeaks(c, EMPTY, [failed, next])
            && var s := After(c, EMPTY, [failed, next]);
               Get(s.index, a, p) == Some(ToConnection(0)) && 0 in s.connections && !Owns(s, 0, cid)
  {
    var failed := ConnectEvent(0, remote, true, cid, cid, false);
    var next := ConnectEvent(0, remote, true, cid, cid', true);
    var s1 := Step(c, EMPTY, failed);
    assert [failed, next][1..] == [next] && [next][1..] == [];
    assert Enabled(c, s1, next);
    assert s1.index.ids == map[cid := 0];
    var s := Step(c, s1, next);
    assert IsRun(c, s, []) && IsRun(c, s1, [next]);
    assert After(c, s1, [next]) == After(c, s, []) == s;
  }
}

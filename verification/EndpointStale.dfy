/**
 What early returns of `accept` leave behind (src/endpoint.rs:909-919, 973-980, 996-1006): index
 entries for initial destination IDs whose attempt is gone.  They stay for good.  A datagram that
 meets one finds no buffer, which makes the source panic, or the buffer of a later attempt that was
 given the same slot.
 */
module EndpointStale {
  import opened Prelude
  import opened EndpointState
  import opened EndpointInvariant
  import opened EndpointRuns
  import opened EndpointFiled

  /** The entry for `cid` points to slot `i`, where no attempt with that ID is pending. */
  predicate Stale(initial: map<Cid, Route>, held: map<nat, Incoming>, cid: Cid, i: nat) {
    cid in initial && initial[cid] == ToIncoming(i) && !(i in held && held[i].dstCid == cid)
  }

  predicate StaleAt(s: State, cid: Cid, i: nat) {
    Stale(s.index.initial, s.held, cid, i)
  }

  /** `accept` returns early, with the attempt's buffer gone and its index entry left. */
  predicate Abandons(c: Config, s: State, e: Event)
    requires Enabled(c, s, e)
  {
    && e.AcceptEvent? && s.held[e.idx].dstCid != []
    && var config := AcceptConfig(s, e.config);
       config.None? || (AcceptProceeds(c, s, config, e.inputs) && !(e.inputs.paramsOk && e.inputs.sessionOk))
  }

  // ----- one step -----

  lemma RemoveKeepsStale(s: State, gone: Cid, held': map<nat, Incoming>, cid: Cid, i: nat)
    requires InitialFiled(s.index.initial, s.connections, s.held)
    requires held' == s.held || exists idx :: idx in s.held && held' == s.held - {idx} && s.held[idx].dstCid == gone
    requires held' == s.held ==>
               gone == [] || exists ch ::
                 ch in s.connections && s.connections[ch].side == Server && s.connections[ch].initCid == gone
    ensures Stale(if gone == [] then s.index.initial else s.index.initial - {gone}, held', cid, i)
       <==> Stale(s.index.initial, s.held, cid, i)
  {
  }

  lemma ArriveKeepsStale(initial: map<Cid, Route>, held: map<nat, Incoming>, vacant: nat, inc: Incoming, cid: Cid,
                         i: nat)
    requires vacant !in held && inc.dstCid !in initial
    ensures Stale(if inc.dstCid == [] then initial
                  else initial[inc.dstCid := ToIncoming(vacant)], held[vacant := inc], cid, i)
       <==> Stale(initial, held, cid, i)
  {
  }

  lemma RerouteKeepsStale(initial: map<Cid, Route>, conns: Conns, held: map<nat, Incoming>, idx: nat, ch: Handle,
                          cid: Cid, i: nat)
    requires InitialFiled(initial, conns, held) && idx in held
    ensures var dst := held[idx].dstCid;
            Stale(if dst == [] then initial else initial[dst := ToConnection(ch)], held - {idx}, cid, i)
            <==> Stale(initial, held, cid, i)
  {
  }

  lemma AbandonMakesStale(initial: map<Cid, Route>, conns: Conns, held: map<nat, Incoming>, idx: nat, cid: Cid, i: nat)
    requires InitialFiled(initial, conns, held) && idx in held
    ensures Stale(initial, held - {idx}, cid, i)
       <==> Stale(initial, held, cid, i) || (idx == i && held[idx].dstCid == cid != [])
  {
  }

  /** Operations that touch neither that table nor the pending attempts. */
  lemma InitialUntouched(c: Config, s: State, e: Event)
    requires Enabled(c, s, e) && !e.DatagramEvent? && !e.AcceptEvent? && !e.GiveUpEvent? && !e.DrainedEvent?
    ensures Step(c, s, e).index.initial == s.index.initial && Step(c, s, e).held == s.held
  {
    hide ConnectProceeds, InsertToken, DropToken, Drawn;
    match e
    case NeedIdentifiersEvent(ch, cids) => IssueAllInitial(s, ch, cids);
    case _ =>
  }

  lemma {:induction false} IssueAllInitial(s: State, ch: Handle, cids: seq<Cid>)
    requires ch in s.connections
    ensures IssueCids(s, ch, cids).index.initial == s.index.initial && IssueCids(s, ch, cids).held == s.held
  {
    if cids != [] {
      IssueAllInitial(s, ch, cids[..|cids| - 1]);
    }
  }

  lemma DrainKeepsStale(s: State, ch: Handle, cid: Cid, i: nat)
    requires Filed(s)
    ensures StaleAt(Drain(s, ch), cid, i) <==> StaleAt(s, cid, i)
  {
    hide IdsAllFiled, BuffersInv, DropToken, Stale;
    if ch in s.connections && s.connections[ch].side == Server {
      RemoveKeepsStale(s, s.connections[ch].initCid, s.held, cid, i);
    }
  }

  lemma GiveUpKeepsStale(s: State, idx: nat, t: State, cid: Cid, i: nat)
    requires Filed(s) && idx in s.held && idx in s.buffers
    requires t.index.initial == RemoveInitial(s.index, s.held[idx].dstCid).initial && t.held == s.held - {idx}
    ensures StaleAt(t, cid, i) <==> StaleAt(s, cid, i)
  {
    hide IdsAllFiled, BuffersInv, Stale;
    assert s.held - {idx} != s.held by { assert idx !in s.held - {idx}; }
    RemoveKeepsStale(s, s.held[idx].dstCid, t.held, cid, i);
  }

  lemma ReceiveKeepsStale(c: Config, s: State, now: Time, a: FourTuple, p: Packet, in_: FirstPacketInputs,
                          vacant: nat, cidValid: bool, cid: Cid, i: nat)
    requires Filed(s) && vacant !in s.buffers
    ensures StaleAt(Receive(c, s, now, a, p, in_, vacant, cidValid), cid, i) <==> StaleAt(s, cid, i)
  {
    hide Filed, RefusedEarly, Stale, Get;
    FiledHeld(s);
    if Get(s.index, a, p).None? && p.kind.InitialPacket? {
      NotInitial(s.index, a, p);
      ArriveKeepsStale(s.index.initial, s.held, vacant, Incoming(p.dstCid, a, in_.mayRetry), cid, i);
    }
  }

  lemma FiledHeld(s: State)
    requires Filed(s)
    ensures s.buffers.Keys == s.held.Keys
  {
  }

  /** What a completed `accept` does to the table of initial IDs and to the pending attempts. */
  lemma SetupInitial(s: State, inc: Incoming, pref: bool, in_: AcceptInputs, ch: Handle, locCid: Cid, prefCid: Cid)
    ensures var t := AcceptSetup(s, inc, pref, in_, ch, locCid, prefCid);
            && t.held == s.held
            && (!(in_.paramsOk && in_.sessionOk) ==> t.index.initial == s.index.initial)
            && (in_.paramsOk && in_.sessionOk && in_.handshakeOk ==>
                  t.index.initial == if inc.dstCid == [] then s.index.initial
                                     else s.index.initial[inc.dstCid := ToConnection(ch)])
            && (in_.paramsOk && in_.sessionOk && !in_.handshakeOk ==>
                  t.index.initial == if inc.dstCid == [] then s.index.initial else s.index.initial - {inc.dstCid})
  {
    hide DropToken;
  }

  lemma AcceptStaleIff(c: Config, s: State, e: Event, cid: Cid, i: nat)
    requires Filed(s) && e.AcceptEvent? && Enabled(c, s, e)
    ensures StaleAt(Step(c, s, e), cid, i)
       <==> StaleAt(s, cid, i) || (Abandons(c, s, e) && e.idx == i && s.held[i].dstCid == cid)
  {
    hide IdsAllFiled, BuffersInv, InitialFiled, Stale, CidsExhausted, AcceptSetup, Drawn;
    var u, inc, config, t := DropBuffer(s, e.idx), s.held[e.idx], AcceptConfig(s, e.config), Step(c, s, e);
    AbandonMakesStale(s.index.initial, s.connections, s.held, e.idx, cid, i);
    if config.Some? && !AcceptProceeds(c, s, config, e.inputs) {
      GiveUpKeepsStale(s, e.idx, t, cid, i);
    } else if config.Some? {
      SetupInitial(u, inc, config.value.hasPreferredAddress, e.inputs, e.ch, e.locCid, e.prefCid);
      RerouteKeepsStale(s.index.initial, s.connections, s.held, e.idx, e.ch, cid, i);
      if e.inputs.paramsOk && e.inputs.sessionOk && !e.inputs.handshakeOk {
        GiveUpKeepsStale(s, e.idx, t, cid, i);
      }
    }
  }

  /** A step leaves an entry behind exactly when it is an abandoned `accept`, and none ever goes. */
  lemma StepStaleIff(c: Config, s: State, e: Event, cid: Cid, i: nat)
    requires Filed(s) && Enabled(c, s, e)
    ensures StaleAt(Step(c, s, e), cid, i)
       <==> StaleAt(s, cid, i) || (Abandons(c, s, e) && e.idx == i && s.held[i].dstCid == cid)
  {
    hide Filed, Accept, Receive, Drain, Stale;
    if e.AcceptEvent? {
      AcceptStaleIff(c, s, e, cid, i);
    } else if e.DatagramEvent? {
      ReceiveKeepsStale(c, s, e.now, e.addresses, e.packet, e.first, e.vacant, e.cidValid, cid, i);
    } else if e.GiveUpEvent? {
      GiveUpKeepsStale(s, e.idx, Step(c, s, e), cid, i);
    } else if e.DrainedEvent? {
      DrainKeepsStale(s, e.ch, cid, i);
    } else {
      InitialUntouched(c, s, e);
    }
  }

  // ----- runs -----

  /** The attempts whose `accept` was abandoned, by initial destination ID and slot. */
  function Abandoned(c: Config, s: State, es: seq<Event>): set<(Cid, nat)>
    requires IsRun(c, s, es)
    decreases |es|
  {
    if es == [] then {}
    else
      (if Abandons(c, s, es[0]) then {(s.held[es[0].idx].dstCid, es[0].idx)} else {})
      + Abandoned(c, Step(c, s, es[0]), es[1..])
  }

  /** Over every run the entries left behind are exactly those of abandoned attempts. */
  lemma {:induction false} RunStaleIff(c: Config, s: State, es: seq<Event>, cid: Cid, i: nat)
    requires Filed(s) && IsRun(c, s, es)
    ensures StaleAt(After(c, s, es), cid, i) <==> StaleAt(s, cid, i) || (cid, i) in Abandoned(c, s, es)
    decreases |es|
  {
    hide Filed, Step, Enabled, StaleAt, Abandons;
    if es != [] {
      StepFiled(c, s, es[0]);
      StepStaleIff(c, s, es[0], cid, i);
      RunStaleIff(c, Step(c, s, es[0]), es[1..], cid, i);
      assert Abandons(c, s, es[0]) ==> es[0].AcceptEvent? && es[0].idx in s.held by { AbandonsAccept(c, s, es[0]); }
    }
  }

  lemma AbandonsAccept(c: Config, s: State, e: Event)
    requires Enabled(c, s, e)
    ensures Abandons(c, s, e) ==> e.AcceptEvent? && e.idx in s.held
  {
  }

  /** The datagram is looked up to slot `i`. */
  predicate Reaches(s: State, a: FourTuple, p: Packet, i: nat) {
    Get(s.index, a, p) == Some(ToIncoming(i))
  }

  lemma ReachesIff(s: State, a: FourTuple, p: Packet, i: nat)
    requires Filed(s)
    ensures Reaches(s, a, p, i)
       <==> && Early(p) && p.dstCid !in s.index.ids
            && p.dstCid in s.index.initial && s.index.initial[p.dstCid] == ToIncoming(i)
  {
  }

  /** On every run of an endpoint, a datagram is looked up to a buffer that is gone, where the source
      panics, if and only if it is an Initial or 0-RTT packet with the ID of an abandoned attempt,
      not since given to a connection, and the attempt's slot is vacant. */
  lemma MissingBufferIff(c: Config, server: Option<ServerConfig>, es: seq<Event>, a: FourTuple, p: Packet, i: nat)
    requires IsRun(c, EMPTY.(server := server), es)
    ensures var s0 := EMPTY.(server := server);
            var s := After(c, s0, es);
            Reaches(s, a, p, i) && i !in s.buffers
            <==> Early(p) && p.dstCid !in s.index.ids && (p.dstCid, i) in Abandoned(c, s0, es) && i !in s.buffers
  {
    hide Early, Get, Step, Enabled;
    var s0 := EMPTY.(server := server);
    StartFiled(server);
    RunFiled(c, s0, es);
    RunStaleIff(c, s0, es, p.dstCid, i);
    ReachesIff(After(c, s0, es), a, p, i);
    if i !in After(c, s0, es).buffers {
      StaleOrPending(After(c, s0, es), p.dstCid, i);
    }
  }

  /** It is put into the buffer of an attempt with another ID if and only if, besides, that slot is
      in use again. */
  lemma StrangersBufferIff(c: Config, server: Option<ServerConfig>, es: seq<Event>, a: FourTuple, p: Packet, i: nat)
    requires IsRun(c, EMPTY.(server := server), es)
    ensures var s0 := EMPTY.(server := server);
            var s := After(c, s0, es);
            Reaches(s, a, p, i) && i in s.held && s.held[i].dstCid != p.dstCid
            <==> Early(p) && p.dstCid !in s.index.ids && (p.dstCid, i) in Abandoned(c, s0, es) && i in s.held
  {
    hide Early, Get, Step, Enabled;
    var s0 := EMPTY.(server := server);
    StartFiled(server);
    RunFiled(c, s0, es);
    RunStaleIff(c, s0, es, p.dstCid, i);
    ReachesIff(After(c, s0, es), a, p, i);
  }

  lemma StartFiled(server: Option<ServerConfig>)
    ensures Filed(EMPTY.(server := server))
  {
    EmptyInv();
    ConfigKeeps(EMPTY, server);
    InvFiled(EMPTY.(server := server));
  }

  lemma StaleOrPending(s: State, cid: Cid, i: nat)
    requires Filed(s) && i !in s.buffers
    ensures cid in s.index.initial && s.index.initial[cid] == ToIncoming(i) <==> StaleAt(s, cid, i)
  {
    FiledHeld(s);
  }

  // ----- concretely -----

  /** Accepting the attempt in slot 0 when there is no server configuration. */
  lemma AcceptedWithout(c: Config, s: State, in_: AcceptInputs)
    requires s.server.None? && s.connections == map[] && 0 in s.held && s.buffers == map[0 := IncomingBuffer([], 0)]
    ensures var e := AcceptEvent(0, None, in_, 0, [], []);
            && Enabled(c, s, e) && (s.held[0].dstCid != [] ==> Leaks(c, s, e) && Abandons(c, s, e))
            && Step(c, s, e) == s.(buffers := map[], held := s.held - {0})
  {
    assert s.buffers - {0} == map[];
    hide CidsExhausted;
  }

  function PacketArrives(a: FourTuple, p: Packet, vacant: nat): Event {
    DatagramEvent(0, a, p, ALL_OK, vacant, true)
  }

  function AbandonedState(k: Option<ServerConfig>, p: Packet): State {
    EMPTY.(server := k, index := EMPTY.index.(initial := map[p.dstCid := ToIncoming(0)]))
  }

  /** A server configuration is set, a packet arrives, the configuration is taken back, the attempt
      is accepted: the same packet is then looked up to a buffer that is gone. */
  lemma AbandonedAttempt(c: Config, k: ServerConfig, a: FourTuple, p: Packet, in_: AcceptInputs)
    requires p.kind.InitialPacket? && p.len >= MIN_INITIAL_SIZE && |p.dstCid| >= 8 && k.maxIncoming > 0
    ensures var es := [SetServerConfigEvent(Some(k)), PacketArrives(a, p, 0), SetServerConfigEvent(None),
                       AcceptEvent(0, None, in_, 0, [], [])];
            && IsRun(c, EMPTY, es) && After(c, EMPTY, es) == AbandonedState(None, p)
            && Reaches(After(c, EMPTY, es), a, p, 0) && 0 !in After(c, EMPTY, es).buffers
  {
    hide Enabled, IsRun, After, Step;
    var e1, e2, e3, e4 := SetServerConfigEvent(Some(k)), PacketArrives(a, p, 0), SetServerConfigEvent(None),
                          AcceptEvent(0, None, in_, 0, [], []);
    var s1 := EMPTY.(server := Some(k));
    ConfigStep(c, EMPTY, Some(k));
    Arrives(c, s1, k, a, p);
    var s2 := Step(c, s1, e2);
    assert EMPTY.index.initial[p.dstCid := ToIncoming(0)] == map[p.dstCid := ToIncoming(0)];
    ConfigStep(c, s2, None);
    var s3 := s2.(server := None);
    AcceptedWithout(c, s3, in_);
    var s4 := Step(c, s3, e4);
    assert s3.held - {0} == map[];
    assert s4 == AbandonedState(None, p);
    RunEmpty(c, s4);
    assert [e4] + [] == [e4];
    RunPrepend(c, s3, e4, []);
    RunPrepend(c, s2, e3, [e4]);
    RunPrepend(c, s1, e2, [e3] + [e4]);
    RunPrepend(c, EMPTY, e1, [e2] + ([e3] + [e4]));
    assert [e1] + ([e2] + ([e3] + [e4])) == [e1, e2, e3, e4];
  }

  /** From there, with the slot given to another attempt, the first one's packet is buffered for that. */
  lemma AbandonedReachesStranger(c: Config, k: ServerConfig, a: FourTuple, p: Packet, b: FourTuple, q: Packet)
    requires p.kind.InitialPacket? && p.len >= MIN_INITIAL_SIZE && |p.dstCid| >= 8 && k.maxIncoming > 0
    requires q.kind.InitialPacket? && q.len >= MIN_INITIAL_SIZE && |q.dstCid| >= 8 && q.dstCid != p.dstCid
    requires p.len <= k.incomingBufferSize && p.len <= k.incomingBufferSizeTotal
    ensures var s := AbandonedState(None, p);
            var es := [SetServerConfigEvent(Some(k)), PacketArrives(b, q, 0), PacketArrives(a, p, 1)];
            && IsRun(c, s, es)
            && var t := After(c, s, es);
               t.held == map[0 := Incoming(q.dstCid, b, true)] && t.buffers == map[0 := IncomingBuffer([p.len], p.len)]
  {
    hide Enabled, IsRun, After, Step;
    var e1, e2, e3 := SetServerConfigEvent(Some(k)), PacketArrives(b, q, 0), PacketArrives(a, p, 1);
    var s := AbandonedState(None, p);
    ConfigStep(c, s, Some(k));
    var s1 := AbandonedState(Some(k), p);
    Arrives(c, s1, k, b, q);
    var s2 := Step(c, s1, e2);
    assert s1.held[0 := Incoming(q.dstCid, b, true)] == map[0 := Incoming(q.dstCid, b, true)];
    Astray(c, s2, k, a, p);
    var s3 := Step(c, s2, e3);
    RunEmpty(c, s3);
    assert [e3] + [] == [e3];
    RunPrepend(c, s2, e3, []);
    RunPrepend(c, s1, e2, [e3]);
    RunPrepend(c, s, e1, [e2] + [e3]);
    assert [e1] + ([e2] + [e3]) == [e1, e2, e3];
  }

  lemma Astray(c: Config, s: State, k: ServerConfig, a: FourTuple, p: Packet)
    requires p.kind.InitialPacket? && p.dstCid in s.index.initial && s.index.initial[p.dstCid] == ToIncoming(0)
    requires s.server == Some(k) && s.index.ids == map[] && s.totalBytes == 0
             && s.buffers == map[0 := IncomingBuffer([], 0)]
    requires p.len <= k.incomingBufferSize && p.len <= k.incomingBufferSizeTotal
    ensures var e := PacketArrives(a, p, 1);
            && Enabled(c, s, e)
            && Step(c, s, e).held == s.held && Step(c, s, e).buffers == map[0 := IncomingBuffer([p.len], p.len)]
  {
    var b := s.buffers[0];
    assert b.datagrams + [p.len] == [p.len];
    assert s.buffers[0 := IncomingBuffer([p.len], p.len)] == map[0 := IncomingBuffer([p.len], p.len)];
  }
}

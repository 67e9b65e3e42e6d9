/**
 What holds on every run of the endpoint, early returns included: everything live stays filed
 under its IDs, and the octets stay counted.
 */
module EndpointFiled {
  import opened Prelude
  import opened EndpointState
  import opened EndpointInvariant
  import opened EndpointRuns

  /** All that is live can be found by its IDs, and the octets are counted: what the source's
      assertions and subtractions rely on. */
  ghost predicate Filed(s: State) {
    && IdsAllFiled(s.index.ids, s.connections)
    && InitialFiled(s.index.initial, s.connections, s.held)
    && BuffersInv(s)
  }

  lemma InvFiled(s: State)
    requires Inv(s)
    ensures Filed(s)
  {
  }

  // ----- connection IDs -----

  lemma FiledRegister(ids: map<Cid, Handle>, conns: Conns, cid: Cid, ch: Handle)
    requires IdsAllFiled(ids, conns) && cid !in ids
    ensures IdsAllFiled(ids[cid := ch], conns)
  {
    forall o | o in conns ensures IdsFiled(ids[cid := ch], o, conns[o].locCids, conns[o].cidsIssued) {
      assert IdsFiled(ids, o, conns[o].locCids, conns[o].cidsIssued);
    }
  }

  lemma FiledChange(ids: map<Cid, Handle>, conns: Conns, ch: Handle, m: ConnectionMeta)
    requires IdsAllFiled(ids, conns) && IdsFiled(ids, ch, m.locCids, m.cidsIssued)
    ensures IdsAllFiled(ids, conns[ch := m])
  {
  }

  /** Removing IDs of one connection leaves the others'. */
  lemma FiledForgets(ids: map<Cid, Handle>, conns: Conns, ch: Handle, gone: set<Cid>)
    requires IdsAllFiled(ids, conns) && ch in conns && gone <= conns[ch].locCids.Values
    ensures IdsAllFiled(ids - gone, conns - {ch})
  {
    var m := conns[ch];
    assert IdsFiled(ids, ch, m.locCids, m.cidsIssued);
    forall o | o in conns && o != ch ensures IdsFiled(ids - gone, o, conns[o].locCids, conns[o].cidsIssued) {
      assert IdsFiled(ids, o, conns[o].locCids, conns[o].cidsIssued);
      assert forall cid | cid in gone && cid != [] :: ids[cid] == ch;
    }
  }

  lemma FiledIssueOne(s: State, ch: Handle, cid: Cid)
    requires Filed(s) && ch in s.connections && Acceptable(s.index.ids, cid)
    ensures Filed(IssueCid(s, ch, cid))
  {
    hide InitialFiled, IdsFiled;
    var m := s.connections[ch];
    var ids' := if cid == [] then s.index.ids else s.index.ids[cid := ch];
    FiledIssue(s.index.ids, ch, m.locCids, m.cidsIssued, cid, ids');
    if cid != [] {
      FiledRegister(s.index.ids, s.connections, cid, ch);
    }
    FiledChange(ids', s.connections, ch, m.(cidsIssued := m.cidsIssued + 1, locCids := m.locCids[m.cidsIssued := cid]));
    InitialSame(s, IssueCid(s, ch, cid));
  }

  /** The table of initial IDs does not depend on what else connections have. */
  lemma InitialSame(s: State, t: State)
    requires InitialFiled(s.index.initial, s.connections, s.held)
    requires t.index.initial == s.index.initial && t.held == s.held && t.connections.Keys == s.connections.Keys
    requires forall ch | ch in t.connections ::
               t.connections[ch].side == s.connections[ch].side
                 && t.connections[ch].initCid == s.connections[ch].initCid
    ensures InitialFiled(t.index.initial, t.connections, t.held)
  {
  }

  lemma {:induction false} FiledIssueAll(c: Config, s: State, ch: Handle, cids: seq<Cid>)
    requires Filed(s) && ch in s.connections && Drawn(c, s.index.ids, cids)
    ensures Filed(IssueCids(s, ch, cids))
    ensures forall d | d in IssueCids(s, ch, cids).index.ids :: d in s.index.ids || d in cids
  {
    hide Filed;
    if cids != [] {
      var n := |cids| - 1;
      FiledIssueAll(c, s, ch, cids[..n]);
      FiledIssueOne(IssueCids(s, ch, cids[..n]), ch, cids[n]);
    }
  }

  lemma FiledForgetOne(s: State, ch: Handle, n: nat)
    requires Filed(s) && ch in s.connections && n in s.connections[ch].locCids
    ensures Filed(Forget(s, ch, n))
  {
    hide InitialFiled;
    var m := s.connections[ch];
    var gone := {m.locCids[n]};
    assert IdsFiled(s.index.ids, ch, m.locCids, m.cidsIssued);
    FiledForgets(s.index.ids, s.connections, ch, gone);
    var m' := m.(locCids := m.locCids - {n});
    FiledForget(s.index.ids, ch, m.locCids, m.cidsIssued, n);
    FiledChange(s.index.ids - gone, s.connections - {ch}, ch, m');
    assert (s.connections - {ch})[ch := m'] == s.connections[ch := m'];
    InitialSame(s, Forget(s, ch, n));
  }

  lemma FiledRetire(s: State, ch: Handle, n: nat, more: bool, cid: Cid)
    requires Filed(s) && ch in s.connections
    requires n in s.connections[ch].locCids && more ==> Acceptable(s.index.ids - {s.connections[ch].locCids[n]}, cid)
    ensures Filed(RetireCid(s, ch, n, more, cid))
  {
    hide Filed;
    if n in s.connections[ch].locCids {
      FiledForgetOne(s, ch, n);
      if more {
        FiledIssueOne(Forget(s, ch, n), ch, cid);
      }
    }
  }

  // ----- connections coming and going -----

  lemma FiledDrain(s: State, ch: Handle)
    requires Filed(s)
    ensures Filed(Drain(s, ch))
  {
    hide IdsFiled, DropToken;
    if ch in s.connections {
      FiledForgets(s.index.ids, s.connections, ch, s.connections[ch].locCids.Values);
    }
  }

  lemma FiledNew(ids: map<Cid, Handle>, conns: Conns, ch: Handle, locCid: Cid, pref: Option<Cid>, m: ConnectionMeta)
    requires IdsAllFiled(ids, conns) && ch !in conns
    requires Acceptable(ids, locCid) && (pref.Some? ==> Acceptable(ids, pref.value))
    requires pref.Some? && locCid != [] ==> locCid != pref.value
    requires m == NewMeta(m.initCid, locCid, pref, m.addresses, m.side)
    ensures IdsAllFiled(WithIds(ids, ch, locCid, pref), conns[ch := m])
  {
    hide IdsFiled;
    if locCid != [] {
      FiledRegister(ids, conns, locCid, ch);
    }
    var one := if locCid == [] then ids else ids[locCid := ch];
    if pref.Some? && pref.value != [] {
      FiledRegister(one, conns, pref.value, ch);
    }
    NewIsFiled(ids, ch, locCid, pref, m);
    hide IdsAllFiled;
    assert WithIds(ids, ch, locCid, pref) == if pref.Some? && pref.value != [] then one[pref.value := ch] else one;
    FiledChange(WithIds(ids, ch, locCid, pref), conns, ch, m);
  }

  lemma NewIsFiled(ids: map<Cid, Handle>, ch: Handle, locCid: Cid, pref: Option<Cid>, m: ConnectionMeta)
    requires pref.Some? && locCid != [] ==> locCid != pref.value
    requires m == NewMeta(m.initCid, locCid, pref, m.addresses, m.side)
    ensures IdsFiled(WithIds(ids, ch, locCid, pref), ch, m.locCids, m.cidsIssued)
  {
  }

  lemma InitialClient(initial: map<Cid, Route>, conns: Conns, held: map<nat, Incoming>, ch: Handle, m: ConnectionMeta)
    requires InitialFiled(initial, conns, held) && ch !in conns && m.side == Client
    ensures InitialFiled(initial, conns[ch := m], held)
  {
  }

  lemma FiledConnect(c: Config, s: State, ch: Handle, remote: SocketAddr, versionOk: bool, remoteId: Cid,
                     locCid: Cid, setupOk: bool)
    requires Filed(s) && ch !in s.connections
    requires ConnectProceeds(c, s, remote, versionOk) ==> Acceptable(s.index.ids, locCid)
    ensures Filed(Connect(c, s, ch, remote, versionOk, remoteId, locCid, setupOk))
  {
    hide ConnectProceeds, IdsAllFiled, InitialFiled;
    if ConnectProceeds(c, s, remote, versionOk) {
      var m := NewMeta(remoteId, locCid, None, FourTuple(remote, None), Client);
      InitialClient(s.index.initial, s.connections, s.held, ch, m);
      FiledNew(s.index.ids, s.connections, ch, locCid, None, m);
      if locCid != [] {
        FiledRegister(s.index.ids, s.connections, locCid, ch);
      }
    }
  }

  // ----- attempts -----

  lemma FiledDropBuffer(s: State, idx: nat)
    requires Filed(s) && idx in s.buffers
    ensures Filed(DropBuffer(s, idx))
  {
    hide IdsAllFiled;
    BuffersDrop(s, idx);
  }

  /** An attempt given up has its entry, which alone goes. */
  lemma FiledGiveUp(s: State, idx: nat)
    requires Filed(s) && idx in s.buffers && idx in s.held
    ensures Filed(CleanUpIncoming(s, idx))
    ensures s.held[idx].dstCid != [] ==>
              s.held[idx].dstCid in s.index.initial && s.index.initial[s.held[idx].dstCid] == ToIncoming(idx)
    ensures s.buffers[idx].totalBytes <= s.totalBytes
  {
    hide IdsAllFiled;
    BuffersDrop(s, idx);
  }

  lemma FiledDecline(s: State, idx: nat, t: State)
    requires Filed(s) && idx in s.buffers && idx in s.held
    requires var u := DropBuffer(s, idx); t == u.(index := RemoveInitial(u.index, s.held[idx].dstCid))
    ensures Filed(t)
  {
    hide Filed;
    FiledGiveUp(s, idx);
    assert t == CleanUpIncoming(s, idx);
  }

  lemma FiledEstablish(s: State, idx: nat, x: Index, ch: Handle, locCid: Cid, pref: Option<Cid>, t: State)
    requires Filed(s) && idx in s.held && idx in s.buffers && ch !in s.connections
    requires Acceptable(s.index.ids, locCid) && (pref.Some? ==> Acceptable(s.index.ids, pref.value))
    requires pref.Some? && locCid != [] ==> locCid != pref.value
    requires x == (var r := Register(s.index, locCid, ch); if pref.Some? then Register(r, pref.value, ch) else r)
    requires t == Establish(DropBuffer(s, idx).(index := x), s.held[idx], ch, locCid, pref)
    ensures Filed(t)
  {
    hide IdsAllFiled, InitialFiled, Establish, WithIds, InsertConn;
    var inc := s.held[idx];
    var m := NewMeta(inc.dstCid, locCid, pref, inc.addresses, Server);
    EstablishFields(DropBuffer(s, idx), x, inc, ch, locCid, pref, m, t);
    FiledNew(s.index.ids, s.connections, ch, locCid, pref, m);
    InitialEstablish(s.index.initial, s.connections, s.held, idx, ch, m);
    BuffersDrop(s, idx);
  }

  lemma InitialEstablish(initial: map<Cid, Route>, conns: Conns, held: map<nat, Incoming>, idx: nat, ch: Handle,
                         m: ConnectionMeta)
    requires InitialFiled(initial, conns, held) && idx in held && ch !in conns
    requires m.side == Server && m.initCid == held[idx].dstCid
    ensures InitialFiled(if m.initCid == [] then initial
                         else initial[m.initCid := ToConnection(ch)], conns[ch := m], held - {idx})
  {
  }

  lemma FiledStray(s: State, idx: nat, ch: Handle, locCid: Cid, prefCid: Cid)
    requires Filed(s) && idx in s.held && idx in s.buffers && ch !in s.connections
    requires Acceptable(s.index.ids, locCid) && Acceptable(s.index.ids, prefCid) && (locCid != [] ==> locCid != prefCid)
    ensures Filed(DropBuffer(s, idx).(index := Register(Register(s.index, locCid, ch), prefCid, ch)))
  {
    hide IdsAllFiled, InitialFiled;
    var ids := s.index.ids;
    if locCid != [] {
      FiledRegister(ids, s.connections, locCid, ch);
      ids := ids[locCid := ch];
    }
    if prefCid != [] {
      FiledRegister(ids, s.connections, prefCid, ch);
    }
    FiledDropBuffer(s, idx);
  }

  lemma FiledAccept(c: Config, s: State, e: Event)
    requires Filed(s) && e.AcceptEvent? && Enabled(c, s, e)
    ensures Filed(Step(c, s, e))
  {
    hide Filed, CidsExhausted, Drain, Establish;
    var config := AcceptConfig(s, e.config);
    var t := Step(c, s, e);
    if config.None? {
      FiledDropBuffer(s, e.idx);
    } else if !AcceptProceeds(c, s, config, e.inputs) {
      FiledDecline(s, e.idx, t);
    } else {
      var hasPref := config.value.hasPreferredAddress && e.inputs.paramsOk;
      var draws := AcceptDraws(config.value, e.inputs, e.locCid, e.prefCid);
      assert draws[0] == e.locCid && (hasPref ==> draws[1] == e.prefCid);
      if e.inputs.paramsOk && e.inputs.sessionOk {
        var pref := if hasPref then Some(e.prefCid) else None;
        var r := Register(s.index, e.locCid, e.ch);
        var x := if pref.Some? then Register(r, e.prefCid, e.ch) else r;
        var u := Establish(DropBuffer(s, e.idx).(index := x), s.held[e.idx], e.ch, e.locCid, pref);
        FiledEstablish(s, e.idx, x, e.ch, e.locCid, pref, u);
        FiledDrain(u, e.ch);
      } else {
        FiledStray(s, e.idx, e.ch, e.locCid, if hasPref then e.prefCid else []);
      }
    }
  }

  lemma FiledReceive(c: Config, s: State, now: Time, a: FourTuple, p: Packet, in_: FirstPacketInputs,
                     idx: nat, cidValid: bool)
    requires Filed(s) && idx !in s.buffers
    ensures Filed(Receive(c, s, now, a, p, in_, idx, cidValid))
  {
    hide Filed, IdsAllFiled, InitialFiled, BuffersInv, Get, FirstPacket, BufferDatagram;
    FiledParts(s);
    var t := Receive(c, s, now, a, p, in_, idx, cidValid);
    ReceiveBuffers(c, s, now, a, p, in_, idx, cidValid);
    ReceiveSized(c, s, now, a, p, in_, idx, cidValid);
    match Get(s.index, a, p) {
      case Some(ToConnection(_)) =>
      case Some(ToIncoming(i)) =>
        if i in s.buffers {
          BufferSized(s, i, p.len);
        }
      case None =>
        if p.kind.InitialPacket? {
          FirstFiled(c, s, now, a, p, in_, idx);
        }
    }
    FiledWhole(t);
  }

  lemma FiledParts(s: State)
    requires Filed(s)
    ensures IdsAllFiled(s.index.ids, s.connections) && InitialFiled(s.index.initial, s.connections, s.held)
            && BuffersInv(s)
  {
  }

  lemma FiledWhole(s: State)
    requires IdsAllFiled(s.index.ids, s.connections) && InitialFiled(s.index.initial, s.connections, s.held)
             && BuffersInv(s)
    ensures Filed(s)
  {
  }

  lemma FirstFiled(c: Config, s: State, now: Time, a: FourTuple, p: Packet, in_: FirstPacketInputs, idx: nat)
    requires Filed(s) && idx !in s.buffers && p.kind.InitialPacket? && Get(s.index, a, p).None?
    ensures var t := FirstPacket(c, s, now, a, p, in_, idx); InitialFiled(t.index.initial, t.connections, t.held)
  {
    hide RefusedEarly, Get, IdsAllFiled, InitialFiled, BuffersInv;
    FiledParts(s);
    HeldKeys(s);
    NotInitial(s.index, a, p);
    InitialArrives(s.index.initial, s.connections, s.held, idx, Incoming(p.dstCid, a, in_.mayRetry));
  }

  lemma InitialArrives(initial: map<Cid, Route>, conns: Conns, held: map<nat, Incoming>, idx: nat, inc: Incoming)
    requires InitialFiled(initial, conns, held) && idx !in held && inc.dstCid !in initial
    ensures InitialFiled(if inc.dstCid == [] then initial
                         else initial[inc.dstCid := ToIncoming(idx)], conns, held[idx := inc])
  {
  }

  lemma HeldKeys(s: State)
    requires BuffersInv(s)
    ensures s.buffers.Keys == s.held.Keys
  {
  }

  /** On every run, early returns included, everything live stays filed. */
  lemma StepFiled(c: Config, s: State, e: Event)
    requires Filed(s) && Enabled(c, s, e)
    ensures Filed(Step(c, s, e))
  {
    hide Filed, Connect, Accept, Receive, CleanUpIncoming, IssueCids, SetResetToken, RetireCid, Drain;
    match e
    case ConnectEvent(ch, remote, versionOk, remoteId, locCid, setupOk) =>
      assert [locCid][0] == locCid;
      FiledConnect(c, s, ch, remote, versionOk, remoteId, locCid, setupOk);
    case DatagramEvent(now, a, p, first, vacant, cidValid) => FiledReceive(c, s, now, a, p, first, vacant, cidValid);
    case AcceptEvent(idx, config, inputs, ch, locCid, prefCid) => FiledAccept(c, s, e);
    case GiveUpEvent(idx) => FiledGiveUp(s, idx);
    case NeedIdentifiersEvent(ch, cids) => FiledIssueAll(c, s, ch, cids);
    case ResetTokenEvent(ch, remote, token) => FiledToken(s, ch, remote, token);
    case RetireCidEvent(ch, sequence, more, locCid) =>
      assert [locCid][0] == locCid;
      FiledRetire(s, ch, sequence, more, locCid);
    case DrainedEvent(ch) => FiledDrain(s, ch);
    case SetServerConfigEvent(config) => FiledConfig(s, config);
  }

  lemma FiledToken(s: State, ch: Handle, remote: SocketAddr, token: Token)
    requires Filed(s) && ch in s.connections
    ensures Filed(SetResetToken(s, ch, remote, token))
  {
    hide IdsFiled, InitialFiled, InsertToken, DropToken;
    InitialSame(s, SetResetToken(s, ch, remote, token));
  }

  lemma FiledConfig(s: State, config: Option<ServerConfig>)
    requires Filed(s)
    ensures Filed(s.(server := config))
  {
  }

  lemma {:induction false} RunFiled(c: Config, s: State, es: seq<Event>)
    requires Filed(s) && IsRun(c, s, es)
    ensures Filed(After(c, s, es))
    decreases |es|
  {
    hide Filed, Step, Enabled;
    if es != [] {
      StepFiled(c, s, es[0]);
      RunFiled(c, Step(c, s, es[0]), es[1..]);
    }
  }
}

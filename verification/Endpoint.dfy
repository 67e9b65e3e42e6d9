/**
 The endpoint object (src/endpoint.rs).  Each method is proved to take one step of
 `EndpointState`, so everything proved there of steps and runs holds of the object; the loops of
 the source (`new_cid`, `send_new_identifiers`, `ConnectionIndex::remove`) are loops here.

 Random choices and outcomes of code that is not modelled are parameters.  The generator of
 connection IDs is the stream `draws`, of which `drawn` values have been used.  An endpoint is
 valid on every run, also after an early return has left something in the tables; what more is
 known without one is said by `Took`.  A loop of the source that would never end is an outcome here:
 the methods that draw IDs say exactly when they hang.
 */
module EndpointObject {
  import opened Prelude
  import opened EndpointState
  import opened EndpointInvariant
  import opened EndpointRuns
  import opened EndpointFiled
  import opened EndpointSteps
  import opened IdSupply
  import opened IdDemand
  import StatelessReset

  class ConnectionIndex {
    var initial: map<Cid, Route>
    var ids: map<Cid, Handle>
    var incoming: map<FourTuple, Handle>
    var outgoing: map<SocketAddr, Handle>
    var tokens: TokenTable

    ghost function View(): Index
      reads this
    {
      Index(initial, ids, incoming, outgoing, tokens)
    }

    constructor ()
      ensures View() == EMPTY.index
    {
      initial, ids, incoming, outgoing, tokens := map[], map[], map[], map[], map[];
    }

    method InsertInitialRoute(cid: Cid, to: Route)
      modifies this
      ensures View() == InsertInitial(old(View()), cid, to)
    {
      if cid != [] {
        initial := initial[cid := to];
      }
    }

    /** The entry to be removed is there: the source asserts as much. */
    method RemoveInitialRoute(cid: Cid)
      requires cid == [] || cid in initial
      modifies this
      ensures View() == RemoveInitial(old(View()), cid)
    {
      if cid != [] {
        initial := initial - {cid};
      }
    }

    method InsertConnection(addresses: FourTuple, cid: Cid, ch: Handle, side: Side)
      modifies this
      ensures View() == InsertConn(old(View()), addresses, cid, ch, side)
    {
      if cid != [] {
        ids := ids[cid := ch];
      } else if side == Server {
        incoming := incoming[addresses := ch];
      } else {
        outgoing := outgoing[addresses.remote := ch];
      }
    }

    method RemoveIds(cids: set<Cid>)
      modifies this`ids
      ensures ids == old(ids) - cids
    {
      var left := cids;
      while left != {}
        invariant left <= cids
        invariant ids == old(ids) - (cids - left)
        decreases |left|
      {
        var cid :| cid in left;
        ids := ids - {cid};
        left := left - {cid};
      }
    }

    /** Removes all references to a connection. */
    method Remove(conn: ConnectionMeta)
      requires conn.side == Server && conn.initCid != [] ==> conn.initCid in initial
      modifies this
      ensures View() == RemoveConn(old(View()), conn)
    {
      if conn.side == Server {
        RemoveInitialRoute(conn.initCid);
      }
      RemoveIds(conn.locCids.Values);
      incoming := incoming - {conn.addresses};
      outgoing := outgoing - {conn.addresses.remote};
      tokens := DropToken(tokens, conn.resetToken);
    }
  }

  class Endpoint {
    const config: Config
    const draws: nat -> Cid
    var drawn: nat
    const index: ConnectionIndex
    var connections: map<Handle, ConnectionMeta>
    var buffers: map<nat, IncomingBuffer>
    var totalBytes: nat
    ghost var held: map<nat, Incoming>
    var server: Option<ServerConfig>
    var lastReset: Option<Time>

    ghost function View(): State
      reads this, index
    {
      State(index.View(), connections, buffers, totalBytes, held, server, lastReset)
    }

    ghost predicate Valid()
      reads this, index
    {
      Fair(draws, config.space) && Sized(config, View()) && Filed(View())
    }

    constructor (config: Config, draws: nat -> Cid, server: Option<ServerConfig>)
      requires Fair(draws, config.space)
      ensures Valid() && fresh(index)
      ensures View() == EMPTY.(server := server) && Inv(View())
    {
      this.config, this.draws, drawn := config, draws, 0;
      index := new ConnectionIndex();
      connections, buffers, totalBytes, held := map[], map[], 0, map[];
      this.server, lastReset := server, None;
      new;
      EmptyInv();
      ConfigKeeps(EMPTY, server);
      InvFiled(View());
    }

    /** Draws IDs until one is empty or not in use, and registers it.  The result is None where the
        source's loop would go on for ever; otherwise it ends because some such ID exists and the
        generator comes to it sooner or later. */
    method NewCid(ch: Handle) returns (r: Option<Cid>)
      requires Fair(draws, config.space)
      modifies this`drawn, index
      ensures r.None? <==> !HasFree(config, old(index.ids))
      ensures r.None? ==> index.View() == old(index.View())
      ensures r.Some? ==> r.value in config.space && Acceptable(old(index.ids), r.value)
      ensures r.Some? ==> index.View() == Register(old(index.View()), r.value, ch)
    {
      NoneFreeIff(config, index.ids);
      if [] !in config.space && config.space <= index.ids.Keys {
        return None;
      }
      ghost var free: Cid :| free in config.space && Acceptable(index.ids, free);
      assert DrawnAgain(draws, drawn, free);
      ghost var k: nat :| drawn <= k && draws(k) == free;
      while true
        invariant drawn <= k
        invariant index.View() == old(index.View())
        decreases k - drawn
      {
        var cid := draws(drawn);
        drawn := drawn + 1;
        if cid == [] {
          return Some(cid);
        }
        if cid !in index.ids {
          index.ids := index.ids[cid := ch];
          return Some(cid);
        }
        assert drawn - 1 != k;
      }
    }

    /** Initiates a connection; `ch` is the slab's vacant key. */
    method Connect(ch: Handle, remote: SocketAddr, versionOk: bool, remoteId: Cid, setupOk: bool)
      returns (r: Option<Handle>, locCid: Cid, hangs: bool)
      requires Valid() && ch !in connections
      modifies this, index
      ensures Valid() && (hangs <==> !old(Completes(config, View(), ConnectCall(remote, versionOk))))
      ensures hangs ==> View() == old(View())
      ensures !hangs ==>
                Took(config, old(View()), ConnectEvent(ch, remote, versionOk, remoteId, locCid, setupOk), View())
      ensures r.Some? <==> !hangs && setupOk && old(ConnectProceeds(config, View(), remote, versionOk))
      ensures r.Some? ==> r == Some(ch)
    {
      hide Inv, Filed, Sized, Fair, Unroutable, HasFree, Completes;
      ghost var before := View();
      r, locCid, hangs := None, [], false;
      ConnectCompletes(config, before, remote, versionOk);
      if !CidsExhausted(config.cidLen, |index.ids|) && !Unroutable(remote) && versionOk {
        var cid := NewCid(ch);
        if cid.None? {
          hangs := true;
          return;
        }
        locCid := cid.value;
        assert [locCid][0] == locCid;
        if setupOk {
          connections := connections[ch := NewMeta(remoteId, locCid, None, FourTuple(remote, None), Client)];
          index.InsertConnection(FourTuple(remote, None), locCid, ch, Client);
          r := Some(ch);
        }
      }
      StepTaken(config, before, ConnectEvent(ch, remote, versionOk, remoteId, locCid, setupOk));
    }

    /** Sends a stateless reset, if one is due; `r` picks its padding. */
    method SendStatelessReset(now: Time, len: nat, r: nat) returns (size: Option<nat>)
      modifies this`lastReset
      ensures lastReset == old(Reset(config, View(), now, len)).lastReset
      ensures size.Some? <==> old(SendsReset(config, View(), now, len))
      ensures size.Some? ==> size == Some(StatelessReset.ResetSize(len, r)) && 21 <= size.value < len
    {
      if lastReset.Some? && lastReset.value + config.minResetInterval > now {
        return None;
      }
      if len <= RESET_TOKEN_SIZE + MIN_PADDING_LEN {
        return None;
      }
      lastReset := Some(now);
      StatelessReset.ResetSizeBounds(len, r);
      size := Some(StatelessReset.PaddingLen(len, r) + RESET_TOKEN_SIZE);
    }

    /** An Initial packet that belongs to nothing known; `vacant` is the slab's vacant key. */
    method HandleFirstPacket(now: Time, addresses: FourTuple, p: Packet, first: FirstPacketInputs, vacant: nat, r: nat)
      returns (out: Outcome)
      requires p.kind.InitialPacket? && vacant !in buffers
      modifies this, index
      ensures View() == old(FirstPacket(config, View(), now, addresses, p, first, vacant))
      ensures out.NewAttempt? <==> old(Deserves(config, View(), p, first))
      ensures out.NewAttempt? ==> out == NewAttempt(vacant, Incoming(p.dstCid, addresses, first.mayRetry))
      ensures out.Refused? <==> old(TurnedAway(config, View(), p, first))
      ensures out.ResetSent? <==> old(server.None? && SendsReset(config, View(), now, p.len))
      ensures out.ResetSent? ==> 21 <= out.size < p.len
      ensures !out.Routed? && !out.Buffered? && !out.Panicked?
    {
      RefusesIff(config, |index.ids|);
      hide CidsExhausted, Refuses;
      if server.None? {
        var size := SendStatelessReset(now, p.len, r);
        return if size.Some? then ResetSent(size.value) else Dropped;
      }
      if p.len < MIN_INITIAL_SIZE || !first.keysOk {
        return Dropped;
      }
      if RefusedEarly(config, |index.ids|, |buffers|, server.value, p) {
        return Refused;
      }
      if !first.decodes {
        return Dropped;
      }
      if !first.tokenOk {
        return Refused;
      }
      buffers := buffers[vacant := IncomingBuffer([], 0)];
      index.InsertInitialRoute(p.dstCid, ToIncoming(vacant));
      held := held[vacant := Incoming(p.dstCid, addresses, first.mayRetry)];
      return NewAttempt(vacant, Incoming(p.dstCid, addresses, first.mayRetry));
    }

    /** Routes a decoded packet.  Where the lookup leads to a buffer that is gone the source panics,
        which is an outcome here; `MissingBufferIff` says when that is. */
    method Handle(now: Time, addresses: FourTuple, p: Packet, first: FirstPacketInputs, vacant: nat, cidValid: bool,
                  r: nat)
      returns (out: Outcome)
      requires Valid() && vacant !in buffers
      modifies this, index
      ensures Valid() && Took(config, old(View()), DatagramEvent(now, addresses, p, first, vacant, cidValid), View())
      ensures match old(Get(index.View(), addresses, p))
              case Some(ToConnection(ch)) => out == Routed(ch) && (old(Inv(View())) ==> ch in connections)
              case Some(ToIncoming(i)) => out == (if i in old(buffers) then Buffered else Panicked)
              case None =>
                && !out.Routed? && !out.Buffered? && !out.Panicked?
                && (out.NewAttempt? <==> p.kind.InitialPacket? && old(Deserves(config, View(), p, first)))
                && (out.NewAttempt? ==> out == NewAttempt(vacant, Incoming(p.dstCid, addresses, first.mayRetry)))
                && (out.Refused? <==> p.kind.InitialPacket? && old(TurnedAway(config, View(), p, first)))
      ensures out.ResetSent? <==>
              old(StatelessReset.SendsResetFor(config, View(),
                                               DatagramEvent(now, addresses, p, first, vacant, cidValid)))
      ensures out.ResetSent? ==> 21 <= out.size < p.len
    {
      hide Inv, Filed, Sized, Fair, Get, Deserves, TurnedAway;
      ghost var before := View();
      ghost var e := DatagramEvent(now, addresses, p, first, vacant, cidValid);
      StepTaken(config, before, e);
      var route := Lookup(addresses, p);
      if route.Some? && old(Inv(View())) {
        RoutesAreLive(before, addresses, p);
      }
      match route {
        case Some(ToConnection(ch)) =>
          out := Routed(ch);
        case Some(ToIncoming(i)) =>
          if i !in buffers {
            out := Panicked;
          } else {
            BufferOne(i, p.len);
            out := Buffered;
          }
        case None =>
          if p.kind.InitialPacket? {
            out := HandleFirstPacket(now, addresses, p, first, vacant, r);
          } else if !p.kind.ShortPacket? || !cidValid || p.dstCid == [] {
            out := Dropped;
          } else {
            var size := SendStatelessReset(now, p.len, r);
            out := if size.Some? then ResetSent(size.value) else Dropped;
          }
      }
    }

    method Lookup(addresses: FourTuple, p: Packet) returns (r: Option<Route>)
      ensures r == Get(index.View(), addresses, p)
    {
      if p.dstCid != [] && p.dstCid in index.ids {
        return Some(ToConnection(index.ids[p.dstCid]));
      }
      if (p.kind.InitialPacket? || p.kind.ZeroRttPacket?) && p.dstCid in index.initial {
        return Some(index.initial[p.dstCid]);
      }
      if p.dstCid == [] {
        if addresses in index.incoming {
          return Some(ToConnection(index.incoming[addresses]));
        }
        if addresses.remote in index.outgoing {
          return Some(ToConnection(index.outgoing[addresses.remote]));
        }
      }
      if p.tail.None? {
        return None;
      }
      if addresses.remote in index.tokens && p.tail.value in index.tokens[addresses.remote] {
        return Some(ToConnection(index.tokens[addresses.remote][p.tail.value]));
      }
      return None;
    }

    method BufferOne(idx: nat, len: nat)
      requires idx in buffers
      modifies this`buffers, this`totalBytes
      ensures View() == old(BufferDatagram(View(), idx, len))
    {
      if server.None? {
        return;
      }
      var b := buffers[idx];
      if b.totalBytes + len <= server.value.incomingBufferSize
        && totalBytes + len <= server.value.incomingBufferSizeTotal {
        buffers := buffers[idx := IncomingBuffer(b.datagrams + [len], b.totalBytes + len)];
        totalBytes := totalBytes + len;
      }
    }

    /** Takes a buffer out of the slab; the counter has at least its octets. */
    method TakeBuffer(idx: nat)
      requires BuffersInv(View()) && idx in buffers
      modifies this`buffers, this`totalBytes, this`held
      ensures View() == old(DropBuffer(View(), idx))
    {
      BuffersDrop(View(), idx);
      totalBytes := totalBytes - buffers[idx].totalBytes;
      buffers := buffers - {idx};
      held := held - {idx};
    }

    /** Adds the connection of an accepted attempt. */
    method AddServerConnection(ch: Handle, inc: Incoming, locCid: Cid, pref: Option<Cid>)
      modifies this`connections, index
      ensures View() == old(Establish(View(), inc, ch, locCid, pref))
      ensures ch in connections && connections[ch].initCid == inc.dstCid
              && (inc.dstCid == [] || inc.dstCid in index.initial)
      ensures connections[ch].locCids ==
              if pref.Some? then map[0 := locCid, 1 := pref.value] else map[0 := locCid]
    {
      connections := connections[ch := NewMeta(inc.dstCid, locCid, pref, inc.addresses, Server)];
      index.InsertConnection(inc.addresses, locCid, ch, Server);
      index.InsertInitialRoute(inc.dstCid, ToConnection(ch));
    }

    /** Draws IDs, sets up the session and adds the connection. */
    method SetUp(inc: Incoming, hasPref: bool, in_: AcceptInputs, ch: Handle)
      returns (r: Option<Handle>, locCid: Cid, prefCid: Cid, hangs: bool)
      requires Fair(draws, config.space) && SizedIds(config, index.ids)
      modifies this, index
      ensures hangs <==> !Room(config, old(index.ids), if hasPref && in_.paramsOk then 2 else 1)
      ensures !hangs ==>
                && View() == old(AcceptSetup(View(), inc, hasPref, in_, ch, locCid, prefCid))
                && Drawn(config, old(index.ids), if hasPref && in_.paramsOk then [locCid, prefCid] else [locCid])
      ensures r.Some? <==> !hangs && in_.paramsOk && in_.sessionOk && in_.handshakeOk
      ensures r.Some? ==>
                && r == Some(ch) && ch in connections
                && connections[ch].locCids == if hasPref then map[0 := locCid, 1 := prefCid] else map[0 := locCid]
    {
      hide Fair, HasFree, Drain, Establish, SizedIds;
      r, locCid, prefCid, hangs := None, [], [], false;
      RoomIsFree(config, index.ids, 1);
      RoomIsFree(config, index.ids, 2);
      ghost var ids := index.ids;
      var cid := NewCid(ch);
      if cid.None? {
        hangs := true;
        return;
      }
      locCid := cid.value;
      assert [locCid][0] == locCid;
      if in_.paramsOk {
        var pref := None;
        if hasPref {
          RoomAfterOne(config, ids, locCid, ch);
          pref := NewCid(ch);
          if pref.None? {
            hangs := true;
            return;
          }
          prefCid := pref.value;
          assert [locCid, prefCid][0] == locCid && [locCid, prefCid][1] == prefCid;
        }
        if in_.sessionOk {
          AddServerConnection(ch, inc, locCid, pref);
          if in_.handshakeOk {
            r := Some(ch);
          } else {
            DrainOne(ch);
          }
        }
      }
    }

    /** Attempts to accept a connection attempt; `ch` is the slab's vacant key. */
    method Accept(idx: nat, inc: Incoming, override_: Option<ServerConfig>, in_: AcceptInputs, ch: Handle)
      returns (r: Option<Handle>, locCid: Cid, prefCid: Cid, hangs: bool)
      requires Valid() && idx in held && held[idx] == inc && idx in buffers && ch !in connections
      modifies this, index
      ensures hangs <==> !old(Completes(config, View(), AcceptCall(idx, override_, in_)))
      ensures !hangs ==>
                Valid() && Took(config, old(View()), AcceptEvent(idx, override_, in_, ch, locCid, prefCid), View())
      ensures r.Some? <==> && !hangs && in_.paramsOk && in_.sessionOk && in_.handshakeOk
                           && old(AcceptProceeds(config, View(), AcceptConfig(View(), override_), in_))
      ensures r.Some? ==>
                && r == Some(ch) && ch in connections
                && connections[ch].locCids ==
                   if (if override_.Some? then override_ else old(server)).value.hasPreferredAddress
                   then map[0 := locCid, 1 := prefCid] else map[0 := locCid]
    {
      hide Inv, Filed, SizedIds, SizedLocs, Fair, HasFree, Room, AcceptSetup, RemoveInitial, Completes;
      ghost var before := View();
      r, locCid, prefCid, hangs := None, [], [], false;
      AcceptCompletes(config, before, idx, override_, in_);
      FiledGiveUp(before, idx);
      FiledCounts(before);
      TakeBuffer(idx);
      var config_ := if override_.Some? then override_ else server;
      if config_.Some? {
        if in_.stale || CidsExhausted(config.cidLen, |index.ids|) || !in_.decrypts {
          index.RemoveInitialRoute(inc.dstCid);
        } else {
          r, locCid, prefCid, hangs := SetUp(inc, config_.value.hasPreferredAddress, in_, ch);
          if hangs {
            return;
          }
        }
      }
      StepTaken(config, before, AcceptEvent(idx, override_, in_, ch, locCid, prefCid));
    }

    /** Forgets a drained connection. */
    method HandleDrained(ch: Handle)
      requires Valid()
      modifies this, index
      ensures Valid() && Took(config, old(View()), DrainedEvent(ch), View())
    {
      hide Inv, Filed, Sized, Fair;
      ghost var before := View();
      StepTaken(config, before, DrainedEvent(ch));
      BeganIsFiled(before, ch);
      DrainOne(ch);
    }

    method DrainOne(ch: Handle)
      requires ch in connections && connections[ch].side == Server && connections[ch].initCid != [] ==>
                 connections[ch].initCid in index.initial
      modifies this`connections, index
      ensures View() == old(Drain(View(), ch))
    {
      if ch in connections {
        var conn := connections[ch];
        connections := connections - {ch};
        index.Remove(conn);
      }
    }

    /** Refuses or ignores an attempt. */
    method CleanUp(idx: nat, inc: Incoming)
      requires Valid() && idx in held && held[idx] == inc && idx in buffers
      modifies this, index
      ensures Valid() && Took(config, old(View()), GiveUpEvent(idx), View()) && drawn == old(drawn)
    {
      hide Inv, Filed, Sized, Fair;
      ghost var before := View();
      StepTaken(config, before, GiveUpEvent(idx));
      FiledGiveUp(before, idx);
      FiledCounts(before);
      index.RemoveInitialRoute(inc.dstCid);
      TakeBuffer(idx);
    }

    /** Answers an attempt with a Retry packet; without success the attempt stays pending.  The packet's
        source ID is taken from the generator, whether it is in use or not, before token and header
        are encoded, and is not registered. */
    method Retry(idx: nat, inc: Incoming, tokenOk: bool, headerOk: bool) returns (ok: bool, cid: Cid)
      requires Valid() && idx in held && held[idx] == inc && idx in buffers
      modifies this, index
      ensures ok <==> inc.mayRetry && old(server).Some? && tokenOk && headerOk
      ensures Valid() && if ok then Took(config, old(View()), GiveUpEvent(idx), View()) else View() == old(View())
      ensures drawn == old(drawn) + if inc.mayRetry && old(server).Some? then 1 else 0
      ensures ok ==> cid == draws(old(drawn))
    {
      ok, cid := false, [];
      if !inc.mayRetry || server.None? {
        return;
      }
      cid := draws(drawn);
      drawn := drawn + 1;
      if !tokenOk || !headerOk {
        return;
      }
      CleanUp(idx, inc);
      ok := true;
    }

    /** Gives one more ID to a connection. */
    method IssueOne(ch: Handle) returns (r: Option<Cid>)
      requires ch in connections && Fair(draws, config.space)
      modifies this`drawn, this`connections, index
      ensures r.None? <==> !HasFree(config, old(index.ids))
      ensures r.None? ==> View() == old(View())
      ensures r.Some? ==> r.value in config.space && Acceptable(old(index.ids), r.value)
      ensures r.Some? ==> View() == old(IssueCid(View(), ch, r.value))
    {
      r := NewCid(ch);
      if r.Some? {
        var m := connections[ch];
        connections :=
          connections[ch := m.(cidsIssued := m.cidsIssued + 1, locCids := m.locCids[m.cidsIssued := r.value])];
      }
    }

    /** Issues `num` more IDs to a connection, or as many of them as there are. */
    method SendNewIdentifiers(ch: Handle, num: nat) returns (first: nat, cids: seq<Cid>, hangs: bool)
      requires Valid() && ch in connections
      modifies this, index
      ensures Valid() && first == old(connections[ch].cidsIssued)
      ensures hangs <==> !old(Completes(config, View(), IssueCall(ch, num)))
      ensures |cids| <= num && (hangs <==> |cids| < num)
      ensures Took(config, old(View()), NeedIdentifiersEvent(ch, cids), View())
      ensures ch in connections && Numbered(old(connections[ch].locCids), first, cids, connections[ch].locCids)
    {
      hide Inv, Filed, Fair, HasFree, SizedIds, SizedLocs, Issuing, Completes, Numbered;
      ghost var before := View();
      first, cids, hangs := connections[ch].cidsIssued, [], false;
      IssuingNone(config, before, ch);
      while |cids| < num
        invariant |cids| <= num && ch in connections
        invariant Issuing(config, before, ch, cids, View())
      {
        ghost var s := View();
        var cid := IssueOne(ch);
        if cid.None? {
          hangs := true;
          IssuingStuck(config, before, ch, cids, s, num);
          break;
        }
        IssuingNext(config, before, ch, cids, s, cid.value);
        cids := cids + [cid.value];
      }
      if !hangs {
        IssuingAll(config, before, ch, cids, View());
      }
      IssuingDone(config, before, ch, cids, View());
      IssueGives(before, ch, cids);
      StepTaken(config, before, NeedIdentifiersEvent(ch, cids));
    }

    /** The peer retired an ID; `more` tells whether it gets another one for it. */
    method HandleRetire(ch: Handle, sequence: nat, more: bool) returns (cid: Cid)
      requires Valid() && ch in connections
      modifies this, index
      ensures Valid() && Took(config, old(View()), RetireCidEvent(ch, sequence, more, cid), View())
      ensures old(sequence in connections[ch].locCids) ==>
                ch in connections && Retired(old(connections[ch]), connections[ch], sequence, more, cid)
    {
      hide Inv, Filed, Fair, HasFree, Retired;
      ghost var before := View();
      cid := [];
      var m := connections[ch];
      if sequence in m.locCids {
        index.ids := index.ids - {m.locCids[sequence]};
        connections := connections[ch := m.(locCids := m.locCids - {sequence})];
        if more {
          RoomAfterRetire(config, before, ch, sequence);
          var issued := IssueOne(ch);
          cid := issued.value;
          assert [cid][0] == cid;
        }
      }
      StepTaken(config, before, RetireCidEvent(ch, sequence, more, cid));
      RetireGives(config, before, RetireCidEvent(ch, sequence, more, cid));
    }

    /** Records the reset token a peer announced. */
    method HandleResetToken(ch: Handle, remote: SocketAddr, token: Token)
      requires Valid() && ch in connections
      modifies this, index
      ensures Valid() && Took(config, old(View()), ResetTokenEvent(ch, remote, token), View())
    {
      hide Inv, Filed, Sized, Fair;
      ghost var before := View();
      StepTaken(config, before, ResetTokenEvent(ch, remote, token));
      var old_ := connections[ch].resetToken;
      connections := connections[ch := connections[ch].(resetToken := Some((remote, token)))];
      if old_.Some? {
        index.tokens := RemoveToken(index.tokens, old_.value.0, old_.value.1);
      }
      index.tokens := InsertToken(index.tokens, remote, token, ch);
    }

    method SetServerConfig(server: Option<ServerConfig>)
      requires Valid()
      modifies this`server
      ensures Valid() && Took(config, old(View()), SetServerConfigEvent(server), View())
    {
      hide Inv, Filed, Sized, Fair;
      StepTaken(config, View(), SetServerConfigEvent(server));
      this.server := server;
    }
  }

  lemma FiledCounts(s: State)
    requires Filed(s)
    ensures BuffersInv(s)
  {
  }

  /** What becomes of a datagram. */
  datatype Outcome =
    | Dropped
    | Refused
    | Buffered
    | Panicked
    | Routed(ch: Handle)
    | NewAttempt(idx: nat, incoming: Incoming)
    | ResetSent(size: nat)

  /** One step was taken: its arguments were in order, the state is the step's, and the endpoint's
      invariant, if it held, does so still unless the step is an early return. */
  ghost predicate Took(c: Config, s: State, e: Event, t: State) {
    && Enabled(c, s, e) && t == Step(c, s, e)
    && (Inv(s) ==> (Inv(t) <==> !Leaks(c, s, e)))
  }

  lemma StepTaken(c: Config, s: State, e: Event)
    requires Filed(s) && Sized(c, s) && Enabled(c, s, e)
    ensures Took(c, s, e, Step(c, s, e)) && Filed(Step(c, s, e)) && Sized(c, Step(c, s, e))
  {
    hide Inv, Filed, Sized, Step, Enabled;
    if Inv(s) {
      StepKeepsIff(c, s, e);
    }
    StepFiled(c, s, e);
    StepSized(c, s, e);
  }

  lemma RoomAfterOne(c: Config, ids: map<Cid, Handle>, cid: Cid, ch: Handle)
    requires SizedIds(c, ids) && cid in c.space && Acceptable(ids, cid)
    ensures HasFree(c, if cid == [] then ids else ids[cid := ch]) <==> Room(c, ids, 2)
  {
    var more := if cid == [] then ids else ids[cid := ch];
    RoomIsFree(c, more, 1);
  }

  lemma ConnectCompletes(c: Config, s: State, remote: SocketAddr, versionOk: bool)
    requires Sized(c, s)
    ensures Completes(c, s, ConnectCall(remote, versionOk))
       <==> (ConnectProceeds(c, s, remote, versionOk) ==> HasFree(c, s.index.ids))
  {
    hide HasFree, ConnectProceeds;
    CompletesIff(c, s, ConnectCall(remote, versionOk));
    RoomIsFree(c, s.index.ids, 1);
    RunFreeIff(c, s.index.ids);
  }

  lemma AcceptCompletes(c: Config, s: State, idx: nat, override_: Option<ServerConfig>, in_: AcceptInputs)
    requires Sized(c, s) && idx in s.held && idx in s.buffers
    ensures var config := AcceptConfig(s, override_);
            Completes(c, s, AcceptCall(idx, override_, in_))
            <==> (AcceptProceeds(c, s, config, in_) ==>
                    Room(c, s.index.ids, if config.value.hasPreferredAddress && in_.paramsOk then 2 else 1))
  {
    hide HasFree, AcceptProceeds;
    CompletesIff(c, s, AcceptCall(idx, override_, in_));
    RunFreeIff(c, s.index.ids);
  }

  lemma IssuedIds(c: Config, s: State, ch: Handle, cid: Cid)
    requires SizedIds(c, s.index.ids) && ch in s.connections && cid in c.space && Acceptable(s.index.ids, cid)
    ensures var t := IssueCid(s, ch, cid);
            && SizedIds(c, t.index.ids)
            && |t.index.ids| == |s.index.ids| + (if cid == [] then 0 else 1)
            && forall d :: d in t.index.ids <==> d in s.index.ids || d == cid != []
  {
  }

  /** `t` is where `s` gets by issuing `cids` to `ch`, and they were drawn as they should be. */
  ghost predicate Issuing(c: Config, s: State, ch: Handle, cids: seq<Cid>, t: State)
    requires ch in s.connections
  {
    && t == IssueCids(s, ch, cids) && Drawn(c, s.index.ids, cids)
    && SizedIds(c, t.index.ids) && |t.index.ids| <= |s.index.ids| + |cids|
    && (forall d | d in s.index.ids || (d in cids && d != []) :: d in t.index.ids)
  }

  lemma IssuingNone(c: Config, s: State, ch: Handle)
    requires ch in s.connections && Sized(c, s)
    ensures Issuing(c, s, ch, [], s)
  {
  }

  /** No further ID is to be had: the request asked for more than there was room for. */
  lemma IssuingStuck(c: Config, s: State, ch: Handle, cids: seq<Cid>, t: State, num: nat)
    requires ch in s.connections && Sized(c, s) && Issuing(c, s, ch, cids, t) && |cids| < num
             && !HasFree(c, t.index.ids)
    ensures !Completes(c, s, IssueCall(ch, num))
  {
    hide HasFree;
    RoomIsFree(c, t.index.ids, 1);
    CompletesIff(c, s, IssueCall(ch, num));
  }

  lemma IssuingAll(c: Config, s: State, ch: Handle, cids: seq<Cid>, t: State)
    requires ch in s.connections && Issuing(c, s, ch, cids, t)
    ensures Completes(c, s, IssueCall(ch, |cids|))
  {
    assert |cids| == Draws(c, s, IssueCall(ch, |cids|)) && Drawn(c, s.index.ids, cids);
  }

  lemma IssuingNext(c: Config, s: State, ch: Handle, cids: seq<Cid>, t: State, cid: Cid)
    requires ch in s.connections && ch in t.connections && Issuing(c, s, ch, cids, t)
    requires cid in c.space && Acceptable(t.index.ids, cid)
    ensures Issuing(c, s, ch, cids + [cid], IssueCid(t, ch, cid))
  {
    hide SizedIds, IssueCid;
    var all := cids + [cid];
    assert all[..|cids|] == cids;
    IssuedIds(c, t, ch, cid);
    DrawnNext(c, s.index.ids, cids, cid);
  }

  lemma IssuingDone(c: Config, s: State, ch: Handle, cids: seq<Cid>, t: State)
    requires ch in s.connections && Issuing(c, s, ch, cids, t)
    ensures Enabled(c, s, NeedIdentifiersEvent(ch, cids)) && t == Step(c, s, NeedIdentifiersEvent(ch, cids))
  {
  }

  /** Retiring an ID makes room for another one. */
  lemma RoomAfterRetire(c: Config, s: State, ch: Handle, n: nat)
    requires Sized(c, s) && ch in s.connections && n in s.connections[ch].locCids
    ensures HasFree(c, s.index.ids - {s.connections[ch].locCids[n]})
  {
    var cid := s.connections[ch].locCids[n];
    assert cid in c.space;
    assert Acceptable(s.index.ids - {cid}, cid);
  }

  lemma BeganIsFiled(s: State, ch: Handle)
    requires Filed(s)
    ensures ch in s.connections && s.connections[ch].side == Server && s.connections[ch].initCid != [] ==>
              s.connections[ch].initCid in s.index.initial
  {
  }
}

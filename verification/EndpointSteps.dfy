/**
 What the endpoint's operations give (src/endpoint.rs), spelled out: which number every drawn
 connection ID gets, what a retired one leaves, when an attempt is made, a datagram kept or a reset
 sent, and whom each packet reaches.
 */
module EndpointSteps {
  import opened Prelude
  import opened Coding
  import opened EndpointState
  import opened EndpointInvariant
  import opened EndpointRuns
  import opened EndpointFiled
  import opened EndpointComplete
  import opened IdSupply

  /** The exhaustion check refuses: IDs of one to four octets, less than a quarter of them unused. */
  predicate Refuses(c: Config, inUse: nat) {
    (c.cidLen == 1 || c.cidLen == 2 || c.cidLen == 3 || c.cidLen == 4)
    && 4 * (Pow256(c.cidLen) - inUse) < Pow256(c.cidLen)
  }

  lemma RefusesIff(c: Config, inUse: nat)
    ensures Refuses(c, inUse) <==> CidsExhausted(c.cidLen, inUse)
  {
    Powers();
  }

  // ----- new connections -----

  predicate Specified(remote: SocketAddr) {
    remote.port != 0 && exists i :: 0 <= i < |remote.ip.octets| && remote.ip.octets[i] != 0
  }

  /** `connect` gives the connection its one ID as number 0, and is refused exactly when IDs are running
      out, the address is unspecified or the version not supported. */
  lemma ConnectGives(c: Config, s: State, e: Event)
    requires e.ConnectEvent? && Enabled(c, s, e)
    ensures var t := Step(c, s, e);
            var passes := !Refuses(c, |s.index.ids|) && Specified(e.remote) && e.versionOk;
            && (!passes ==> t == s)
            && (passes && e.setupOk ==>
                  t.connections == s.connections[e.ch := ConnectionMeta(e.remoteId, 1, map[0 := e.locCid],
                                                                        FourTuple(e.remote, None), Client, None)])
            && (passes && !e.setupOk ==> t.connections == s.connections)
  {
    RefusesIff(c, |s.index.ids|);
    hide CidsExhausted, Refuses;
  }

  /** Once IDs may be drawn: the connection of a handshake that gets through, and else none. */
  lemma SetupGives(s: State, inc: Incoming, hasPref: bool, in_: AcceptInputs, ch: Handle, locCid: Cid, prefCid: Cid)
    requires ch !in s.connections
    ensures AcceptSetup(s, inc, hasPref, in_, ch, locCid, prefCid).connections ==
            if !in_.paramsOk || !in_.sessionOk || !in_.handshakeOk then s.connections
            else if hasPref then
              s.connections[ch := ConnectionMeta(inc.dstCid, 2, map[0 := locCid, 1 := prefCid], inc.addresses,
                                                 Server, None)]
            else
              s.connections[ch := ConnectionMeta(inc.dstCid, 1, map[0 := locCid], inc.addresses, Server, None)]
  {
    hide InsertConn, RemoveConn, InsertInitial, Register;
    if in_.paramsOk && in_.sessionOk && !in_.handshakeOk {
      var m := NewMeta(inc.dstCid, locCid, if hasPref then Some(prefCid) else None, inc.addresses, Server);
      assert s.connections[ch := m] - {ch} == s.connections;
    }
  }

  /** `accept` gives the connection the ID drawn first as number 0 and, with a preferred address, the one
      drawn second as number 1; any other outcome leaves no connection. */
  lemma AcceptGives(c: Config, s: State, e: Event)
    requires e.AcceptEvent? && Enabled(c, s, e)
    ensures var k := if e.config.Some? then e.config else s.server;
            var in_, inc := e.inputs, s.held[e.idx];
            var through := && k.Some? && !in_.stale && in_.decrypts && !Refuses(c, |s.index.ids|)
                           && in_.paramsOk && in_.sessionOk && in_.handshakeOk;
            Step(c, s, e).connections ==
            if !through then s.connections
            else if k.value.hasPreferredAddress then
              s.connections[e.ch := ConnectionMeta(inc.dstCid, 2, map[0 := e.locCid, 1 := e.prefCid], inc.addresses,
                                                   Server, None)]
            else
              s.connections[e.ch := ConnectionMeta(inc.dstCid, 1, map[0 := e.locCid], inc.addresses, Server, None)]
  {
    RefusesIff(c, |s.index.ids|);
    hide CidsExhausted, Refuses, AcceptSetup, RemoveInitial;
    var k := AcceptConfig(s, e.config);
    if AcceptProceeds(c, s, k, e.inputs) {
      SetupGives(DropBuffer(s, e.idx), s.held[e.idx], k.value.hasPreferredAddress, e.inputs, e.ch, e.locCid, e.prefCid);
    }
  }

  // ----- more IDs -----

  /** `after` is `before` with `cids` numbered from `first` on. */
  ghost predicate Numbered(before: map<nat, Cid>, first: nat, cids: seq<Cid>, after: map<nat, Cid>) {
    && (forall k :: k in after <==> k in before || first <= k < first + |cids|)
    && (forall k | k in before && k < first :: after[k] == before[k])
    && (forall i | 0 <= i < |cids| :: after[first + i] == cids[i])
  }

  lemma NumberedNone(before: map<nat, Cid>, first: nat)
    ensures Numbered(before, first, [], before)
  {
  }

  lemma NumberedNext(before: map<nat, Cid>, first: nat, cids: seq<Cid>, after: map<nat, Cid>, cid: Cid)
    requires Numbered(before, first, cids, after)
    ensures Numbered(before, first, cids + [cid], after[first + |cids| := cid])
  {
  }

  /** The IDs of a batch get the numbers from the connection's count on, in their order, and nothing
      else about any connection changes. */
  lemma {:induction false} IssueGives(s: State, ch: Handle, cids: seq<Cid>)
    requires ch in s.connections
    ensures var t := IssueCids(s, ch, cids);
            var m, m' := s.connections[ch], t.connections[ch];
            && t.connections == s.connections[ch := m']
            && m' == m.(cidsIssued := m.cidsIssued + |cids|, locCids := m'.locCids)
            && Numbered(m.locCids, m.cidsIssued, cids, m'.locCids)
  {
    hide Numbered;
    var m := s.connections[ch];
    if cids == [] {
      NumberedNone(m.locCids, m.cidsIssued);
    } else {
      var n := |cids| - 1;
      var u := IssueCids(s, ch, cids[..n]);
      IssueGives(s, ch, cids[..n]);
      hide Register, IssueCids;
      assert IssueCids(s, ch, cids) == IssueCid(u, ch, cids[n]);
      NumberedNext(m.locCids, m.cidsIssued, cids[..n], u.connections[ch].locCids, cids[n]);
      assert cids[..n] + [cids[n]] == cids;
    }
  }

  /** Each ID of a batch is filed under the connection it was drawn for. */
  lemma {:induction false} IssueFiles(s: State, ch: Handle, cids: seq<Cid>, cid: Cid)
    requires ch in s.connections
    ensures var ids := IssueCids(s, ch, cids).index.ids;
            && (cid in ids <==> cid in s.index.ids || (cid in cids && cid != []))
            && (cid in ids ==> ids[cid] == if cid in cids && cid != [] then ch else s.index.ids[cid])
  {
    if cids == [] {
    } else {
      var n := |cids| - 1;
      IssueFiles(s, ch, cids[..n], cid);
      assert cids[..n] + [cids[n]] == cids;
    }
  }

  // ----- retiring -----

  ghost predicate Retired(m: ConnectionMeta, m': ConnectionMeta, n: nat, more: bool, cid: Cid) {
    && m' == m.(cidsIssued := if more then m.cidsIssued + 1 else m.cidsIssued, locCids := m'.locCids)
    && (forall k :: k in m'.locCids <==> (k in m.locCids && k != n) || (more && k == m.cidsIssued))
    && (forall k | k in m.locCids && k != n :: m'.locCids[k] == m.locCids[k])
    && (more ==> m'.locCids[m.cidsIssued] == cid)
  }

  lemma RetiredMeta(m: ConnectionMeta, n: nat, more: bool, cid: Cid)
    requires n in m.locCids && forall k | k in m.locCids :: k < m.cidsIssued
    ensures var m1 := m.(locCids := m.locCids - {n});
            Retired(m, if more then m1.(cidsIssued := m.cidsIssued + 1, locCids := m1.locCids[m.cidsIssued := cid])
                       else m1, n, more, cid)
  {
  }

  /** Retiring a known number removes it; all other numbers keep their IDs.  With `more` the connection's
      next number is given to the ID drawn, which is filed; without it nothing is added.  An unknown
      number changes nothing. */
  lemma RetireGives(c: Config, s: State, e: Event)
    requires e.RetireCidEvent? && Filed(s) && Enabled(c, s, e)
    ensures var t, m := Step(c, s, e), s.connections[e.ch];
            && (e.sequence !in m.locCids ==> t == s)
            && (e.sequence in m.locCids ==>
                  && e.ch in t.connections
                  && t.connections == s.connections[e.ch := t.connections[e.ch]]
                  && Retired(m, t.connections[e.ch], e.sequence, e.more, e.locCid)
                  && (e.more && e.locCid != [] ==> e.locCid in t.index.ids && t.index.ids[e.locCid] == e.ch))
  {
    hide InitialFiled, BuffersInv, Drawn, Retired;
    var m := s.connections[e.ch];
    assert IdsFiled(s.index.ids, e.ch, m.locCids, m.cidsIssued);
    if e.sequence in m.locCids {
      RetiredMeta(m, e.sequence, e.more, e.locCid);
    }
  }

  /** The retired ID is neither filed nor owned any more, unless it was drawn again at once. */
  lemma RetiredIsGone(c: Config, s: State, e: Event, o: Handle)
    requires e.RetireCidEvent? && Filed(s) && Enabled(c, s, e) && e.sequence in s.connections[e.ch].locCids
    requires var gone := s.connections[e.ch].locCids[e.sequence]; gone != [] && (e.more ==> e.locCid != gone)
    ensures var gone := s.connections[e.ch].locCids[e.sequence];
            gone !in Step(c, s, e).index.ids && !Owns(Step(c, s, e), o, gone)
  {
    hide InitialFiled, BuffersInv, Drawn;
    RetireGives(c, s, e);
    var m := s.connections[e.ch];
    assert IdsFiled(s.index.ids, e.ch, m.locCids, m.cidsIssued);
    if o in s.connections && o != e.ch {
      assert IdsFiled(s.index.ids, o, s.connections[o].locCids, s.connections[o].cidsIssued);
    }
  }

  // ----- datagrams -----

  /** A datagram for a pending attempt is kept exactly when it fits the limits of the attempt and of all
      attempts together. */
  lemma DatagramKeptIff(c: Config, s: State, e: Event, i: nat)
    requires e.DatagramEvent? && Enabled(c, s, e) && i in s.buffers
    requires Get(s.index, e.addresses, e.packet) == Some(ToIncoming(i))
    ensures var t, b, len := Step(c, s, e), s.buffers[i], e.packet.len;
            var fits := && s.server.Some? && b.totalBytes + len <= s.server.value.incomingBufferSize
                        && s.totalBytes + len <= s.server.value.incomingBufferSizeTotal;
            && (!fits ==> t == s)
            && (fits ==> t == s.(buffers := s.buffers[i := IncomingBuffer(b.datagrams + [len], b.totalBytes + len)],
                                 totalBytes := s.totalBytes + len))
  {
    hide Get;
  }

  /** A first packet is worth an attempt: long enough, decodable, its token in order, its ID of a length
      that clients may choose or that of a Retry, and neither IDs nor room for attempts running out. */
  predicate Deserves(c: Config, s: State, p: Packet, in_: FirstPacketInputs)
    requires p.kind.InitialPacket?
  {
    && s.server.Some? && 1200 <= p.len && in_.keysOk && in_.decodes && in_.tokenOk
    && !Refuses(c, |s.index.ids|) && |s.buffers| < s.server.value.maxIncoming
    && (8 <= |p.dstCid| || (p.kind.hasToken && |p.dstCid| == c.cidLen))
  }

  /** A first packet is refused: no attempt can be made of it, though its keys could be derived, or its
      token is not in order. */
  predicate TurnedAway(c: Config, s: State, p: Packet, in_: FirstPacketInputs)
    requires p.kind.InitialPacket?
  {
    && s.server.Some? && 1200 <= p.len && in_.keysOk
    && (|| Refuses(c, |s.index.ids|) || s.server.value.maxIncoming <= |s.buffers|
        || (|p.dstCid| < 8 && (!p.kind.hasToken || |p.dstCid| != c.cidLen))
        || (in_.decodes && !in_.tokenOk))
  }

  /** An Initial packet that reaches nothing is made an attempt exactly when it deserves it. */
  lemma AttemptIff(c: Config, s: State, e: Event)
    requires e.DatagramEvent? && Enabled(c, s, e) && e.packet.kind.InitialPacket?
    requires Get(s.index, e.addresses, e.packet).None?
    ensures var t, p := Step(c, s, e), e.packet;
            && (e.vacant in t.buffers <==> Deserves(c, s, p, e.first))
            && (e.vacant in t.buffers ==>
                  && t.buffers == s.buffers[e.vacant := IncomingBuffer([], 0)]
                  && t.held == s.held[e.vacant := Incoming(p.dstCid, e.addresses, e.first.mayRetry)]
                  && (p.dstCid != [] ==> t.index.initial == s.index.initial[p.dstCid := ToIncoming(e.vacant)]))
  {
    RefusesIff(c, |s.index.ids|);
    hide Get, CidsExhausted, Refuses;
  }

  /** Of the packets that reach nothing, a stateless reset answers Initial packets when there is no server
      and short packets with an ID the generator knows, if the last one is long enough ago and the packet
      has 22 octets at least. */
  lemma ResetIff(c: Config, s: State, e: Event)
    requires e.DatagramEvent? && Enabled(c, s, e) && Get(s.index, e.addresses, e.packet).None?
    ensures var p := e.packet;
            var due := && (s.lastReset.None? || s.lastReset.value + c.minResetInterval <= e.now) && 22 <= p.len
                       && (if p.kind.InitialPacket? then s.server.None?
                           else p.kind.ShortPacket? && e.cidValid && p.dstCid != []);
            Step(c, s, e).lastReset == if due then Some(e.now) else s.lastReset
  {
    hide Get, RefusedEarly, InsertInitial;
  }

  // ----- routing, whole -----

  /** Where a packet belongs by its destination ID alone, or by its addresses if that is empty. */
  ghost predicate Addressed(c: Config, s: State, a: FourTuple, p: Packet, to: Route) {
    if p.dstCid != [] then Rightful(s, p, to)
    else
      && c.cidLen == 0 && to.ToConnection?
      && (ServerAt(s, a, to.ch) || ((forall o :: !ServerAt(s, a, o)) && ClientTo(s, a.remote, to.ch)))
  }

  /** Where a packet belongs: by destination ID or addresses, and else to the connection whose peer
      announced the packet's last octets as its reset token from that address. */
  ghost predicate Recipient(c: Config, s: State, a: FourTuple, p: Packet, to: Route) {
    || Addressed(c, s, a, p, to)
    || (&& (forall r :: !Addressed(c, s, a, p, r))
        && to.ToConnection? && to.ch in s.connections && p.tail.Some?
        && s.connections[to.ch].resetToken == Some((a.remote, p.tail.value)))
  }

  lemma MirrorsServer(c: Config, s: State, a: FourTuple, ch: Handle)
    requires RemotesMirror(c, s)
    ensures ServerAt(s, a, ch) && c.cidLen == 0 <==> a in s.index.incoming && s.index.incoming[a] == ch
  {
  }

  lemma MirrorsClient(c: Config, s: State, r: SocketAddr, ch: Handle)
    requires RemotesMirror(c, s)
    ensures ClientTo(s, r, ch) && c.cidLen == 0 <==> r in s.index.outgoing && s.index.outgoing[r] == ch
  {
  }

  /** What the tables give before the tokens are asked. */
  function ByAddress(x: Index, a: FourTuple, p: Packet): Option<Route> {
    if p.dstCid != [] && p.dstCid in x.ids then Some(ToConnection(x.ids[p.dstCid]))
    else if Early(p) && p.dstCid in x.initial then Some(x.initial[p.dstCid])
    else if p.dstCid == [] && a in x.incoming then Some(ToConnection(x.incoming[a]))
    else if p.dstCid == [] && a.remote in x.outgoing then Some(ToConnection(x.outgoing[a.remote]))
    else None
  }

  lemma EmptyIsAddressed(c: Config, s: State, a: FourTuple, p: Packet, to: Route)
    requires RemotesMirror(c, s) && p.dstCid == [] && [] !in s.index.initial
    ensures Addressed(c, s, a, p, to) <==> ByAddress(s.index, a, p) == Some(to)
  {
    hide RemotesMirror, ServerAt, ClientTo;
    var x := s.index;
    if a in x.incoming {
      MirrorsServer(c, s, a, x.incoming[a]);
      assert !forall o :: !ServerAt(s, a, o);
    } else if c.cidLen == 0 {
      forall o ensures !ServerAt(s, a, o) {
        MirrorsServer(c, s, a, o);
      }
    }
    if to.ToConnection? {
      MirrorsServer(c, s, a, to.ch);
      MirrorsClient(c, s, a.remote, to.ch);
    }
    if a.remote in x.outgoing {
      MirrorsClient(c, s, a.remote, x.outgoing[a.remote]);
    }
  }

  lemma IdIsAddressed(c: Config, s: State, a: FourTuple, p: Packet, to: Route)
    requires Inv(s) && p.dstCid != []
    ensures Addressed(c, s, a, p, to) <==> ByAddress(s.index, a, p) == Some(to)
  {
    hide Owns, IdsInv;
    if p.dstCid in s.index.ids {
      IdsAreInverse(s, s.index.ids[p.dstCid], p.dstCid);
    } else {
      forall ch ensures !Owns(s, ch, p.dstCid) {
        IdsAreInverse(s, ch, p.dstCid);
      }
    }
    if to.ToConnection? {
      IdsAreInverse(s, to.ch, p.dstCid);
    }
  }

  /** With tables that mirror the live connections the lookup finds the recipient of every packet, and
      nothing else. */
  lemma LookupIsExact(c: Config, s: State, a: FourTuple, p: Packet, to: Route)
    requires Inv(s) && TokensMirror(s) && RemotesMirror(c, s)
    ensures Get(s.index, a, p) == Some(to) <==> Recipient(c, s, a, p, to)
  {
    NoEmptyInitial(s);
    hide Inv, RemotesMirror, TokensMirror, Addressed, ByAddress, Get, Recipient;
    forall r ensures Addressed(c, s, a, p, r) <==> ByAddress(s.index, a, p) == Some(r) {
      if p.dstCid == [] {
        EmptyIsAddressed(c, s, a, p, r);
      } else {
        IdIsAddressed(c, s, a, p, r);
      }
    }
    AddressedFirst(c, s, a, p, to);
  }

  lemma AddressedFirst(c: Config, s: State, a: FourTuple, p: Packet, to: Route)
    requires TokensMirror(s)
    requires forall r :: Addressed(c, s, a, p, r) <==> ByAddress(s.index, a, p) == Some(r)
    ensures Get(s.index, a, p) == Some(to) <==> Recipient(c, s, a, p, to)
  {
    hide Addressed;
    var x := s.index;
    if ByAddress(x, a, p).Some? {
      assert Addressed(c, s, a, p, ByAddress(x, a, p).value);
    } else if p.tail.Some? && to.ToConnection? {
      assert HasToken(x.tokens, a.remote, p.tail.value, to.ch) <==>
             to.ch in s.connections && s.connections[to.ch].resetToken == Some((a.remote, p.tail.value));
    }
  }

  /** From an empty endpoint, over every run without an early return or a clash, the lookup finds the
      recipient of every packet and nothing else. */
  lemma RoutingOverRuns(c: Config, server: Option<ServerConfig>, es: seq<Event>, a: FourTuple, p: Packet, to: Route)
    requires Declared(c) && IsRun(c, EMPTY.(server := server), es) && !RunLeaks(c, EMPTY.(server := server), es)
    requires !RunClashes(c, EMPTY.(server := server), es)
    ensures var s := After(c, EMPTY.(server := server), es);
            Get(s.index, a, p) == Some(to) <==> Recipient(c, s, a, p, to)
  {
    hide Step, Enabled, Inv, RunClashes, RunLeaks, Get, Recipient, TokensMirror, RemotesMirror;
    EndpointOverRuns(c, server, es);
    LookupIsExact(c, After(c, EMPTY.(server := server), es), a, p, to);
  }
}

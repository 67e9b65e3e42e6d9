/**
 What every operation of the endpoint keeps.  The tables of connection IDs and of initial
 destination IDs mirror the live connections and the attempts held by the application exactly;
 every entry of the other three (zero-length IDs by address, reset tokens) belongs to a live
 connection; the octet counter is the total of the buffers.  When those three tables are also
 complete is the subject of `EndpointComplete`.
 */
module EndpointInvariant {
  import opened Prelude
  import opened EndpointState

  type Conns = map<Handle, ConnectionMeta>

  // ----- connection IDs -----

  ghost predicate HasCid(m: map<nat, Cid>, cid: Cid) {
    exists n :: n in m && m[n] == cid
  }

  /** Every entry names a live connection that owns the ID. */
  ghost predicate IdsSound(ids: map<Cid, Handle>, conns: Conns) {
    forall cid | cid in ids :: cid != [] && ids[cid] in conns && HasCid(conns[ids[cid]].locCids, cid)
  }

  /** A connection's non-empty IDs are all filed under it, pairwise different, and numbered below
      the next number to be issued. */
  ghost predicate IdsFiled(ids: map<Cid, Handle>, ch: Handle, locCids: map<nat, Cid>, issued: nat) {
    && (forall n | n in locCids :: n < issued)
    && (forall n | n in locCids && locCids[n] != [] :: locCids[n] in ids && ids[locCids[n]] == ch)
    && (forall m, n | m in locCids && n in locCids && m != n && locCids[m] != [] :: locCids[m] != locCids[n])
  }

  ghost predicate IdsAllFiled(ids: map<Cid, Handle>, conns: Conns) {
    forall ch | ch in conns :: IdsFiled(ids, ch, conns[ch].locCids, conns[ch].cidsIssued)
  }

  ghost predicate IdsInv(ids: map<Cid, Handle>, conns: Conns) {
    IdsSound(ids, conns) && IdsAllFiled(ids, conns)
  }

  /** Two tables of connections that agree on everything about IDs. */
  lemma IdsIgnoreRest(ids: map<Cid, Handle>, conns: Conns, conns': Conns)
    requires IdsInv(ids, conns) && conns.Keys == conns'.Keys
    requires forall ch | ch in conns ::
               conns[ch].locCids == conns'[ch].locCids && conns[ch].cidsIssued == conns'[ch].cidsIssued
    ensures IdsInv(ids, conns')
  {
  }

  lemma IdsIssue(ids: map<Cid, Handle>, conns: Conns, ch: Handle, cid: Cid, ids': map<Cid, Handle>, m: ConnectionMeta)
    requires IdsInv(ids, conns) && ch in conns && Acceptable(ids, cid)
    requires ids' == if cid == [] then ids else ids[cid := ch]
    requires m.locCids == conns[ch].locCids[conns[ch].cidsIssued := cid] && m.cidsIssued == conns[ch].cidsIssued + 1
    ensures IdsInv(ids', conns[ch := m])
  {
    var next := conns[ch].cidsIssued;
    var conns' := conns[ch := m];
    forall d | d in ids' ensures d != [] && ids'[d] in conns' && HasCid(conns'[ids'[d]].locCids, d) {
      if d == cid {
        assert next in m.locCids && m.locCids[next] == cid;
      } else {
        var n :| n in conns[ids[d]].locCids && conns[ids[d]].locCids[n] == d;
        assert n in conns'[ids[d]].locCids && conns'[ids[d]].locCids[n] == d;
      }
    }
    FiledIssue(ids, ch, conns[ch].locCids, next, cid, ids');
    forall other | other in conns' ensures IdsFiled(ids', other, conns'[other].locCids, conns'[other].cidsIssued) {
      if other != ch {
        assert IdsFiled(ids, other, conns[other].locCids, conns[other].cidsIssued);
      }
    }
  }

  lemma FiledIssue(ids: map<Cid, Handle>, ch: Handle, locCids: map<nat, Cid>, next: nat, cid: Cid,
                   ids': map<Cid, Handle>)
    requires IdsFiled(ids, ch, locCids, next) && Acceptable(ids, cid)
    requires ids' == if cid == [] then ids else ids[cid := ch]
    ensures IdsFiled(ids', ch, locCids[next := cid], next + 1)
  {
  }

  /** A new connection whose IDs have just been registered. */
  lemma IdsAdd(ids: map<Cid, Handle>, conns: Conns, ch: Handle, ids': map<Cid, Handle>, m: ConnectionMeta)
    requires IdsInv(ids, conns) && ch !in conns
    requires IdsFiled(ids', ch, m.locCids, m.cidsIssued)
    requires forall d | d in ids :: d in ids' && ids'[d] == ids[d]
    requires forall d | d in ids' && d !in ids :: d != [] && ids'[d] == ch && HasCid(m.locCids, d)
    ensures IdsInv(ids', conns[ch := m])
  {
  }

  lemma IdsForget(ids: map<Cid, Handle>, conns: Conns, ch: Handle, n: nat, m: ConnectionMeta)
    requires IdsInv(ids, conns) && ch in conns && n in conns[ch].locCids
    requires m.locCids == conns[ch].locCids - {n} && m.cidsIssued == conns[ch].cidsIssued
    ensures IdsInv(ids - {conns[ch].locCids[n]}, conns[ch := m])
  {
    var cid := conns[ch].locCids[n];
    var ids', conns' := ids - {cid}, conns[ch := m];
    forall d | d in ids' ensures ids'[d] in conns' && HasCid(conns'[ids'[d]].locCids, d) {
      var k :| k in conns[ids[d]].locCids && conns[ids[d]].locCids[k] == d;
      assert k in conns'[ids[d]].locCids && conns'[ids[d]].locCids[k] == d;
    }
    FiledForget(ids, ch, conns[ch].locCids, m.cidsIssued, n);
    forall other | other in conns' ensures IdsFiled(ids', other, conns'[other].locCids, conns'[other].cidsIssued) {
      if other != ch {
        assert IdsFiled(ids, other, conns[other].locCids, conns[other].cidsIssued);
      }
    }
  }

  lemma FiledForget(ids: map<Cid, Handle>, ch: Handle, locCids: map<nat, Cid>, issued: nat, n: nat)
    requires IdsFiled(ids, ch, locCids, issued) && n in locCids
    ensures IdsFiled(ids - {locCids[n]}, ch, locCids - {n}, issued)
  {
  }

  lemma IdsRemove(ids: map<Cid, Handle>, conns: Conns, ch: Handle)
    requires IdsInv(ids, conns) && ch in conns
    ensures IdsInv(ids - conns[ch].locCids.Values, conns - {ch})
  {
    var gone := conns[ch].locCids.Values;
    var ids', conns' := ids - gone, conns - {ch};
    forall d | d in ids' ensures ids'[d] in conns' && HasCid(conns'[ids'[d]].locCids, d) {
      assert HasCid(conns[ids[d]].locCids, d);
    }
    forall other | other in conns' ensures IdsFiled(ids', other, conns'[other].locCids, conns'[other].cidsIssued) {
      assert IdsFiled(ids, other, conns[other].locCids, conns[other].cidsIssued);
    }
  }

  // ----- initial destination IDs -----

  ghost predicate InitialSound(initial: map<Cid, Route>, conns: Conns, held: map<nat, Incoming>) {
    forall cid | cid in initial ::
      match initial[cid]
      case ToConnection(ch) => ch in conns && conns[ch].side == Server && conns[ch].initCid == cid
      case ToIncoming(i) => i in held && held[i].dstCid == cid
  }

  /** Servers and pending attempts are filed under the ID they began with. */
  ghost predicate InitialFiled(initial: map<Cid, Route>, conns: Conns, held: map<nat, Incoming>) {
    && [] !in initial
    && (forall ch | ch in conns && conns[ch].side == Server && conns[ch].initCid != [] ::
          conns[ch].initCid in initial && initial[conns[ch].initCid] == ToConnection(ch))
    && (forall i | i in held && held[i].dstCid != [] ::
          held[i].dstCid in initial && initial[held[i].dstCid] == ToIncoming(i))
  }

  ghost predicate InitialInv(initial: map<Cid, Route>, conns: Conns, held: map<nat, Incoming>) {
    InitialSound(initial, conns, held) && InitialFiled(initial, conns, held)
  }

  lemma InitialFollows(initial: map<Cid, Route>, conns: Conns, conns': Conns, held: map<nat, Incoming>)
    requires InitialInv(initial, conns, held)
    requires forall ch | ch in conns ::
             ch in conns' && conns'[ch].side == conns[ch].side && conns'[ch].initCid == conns[ch].initCid
    requires forall ch | ch in conns' && ch !in conns :: conns'[ch].side == Client
    ensures InitialInv(initial, conns', held)
  {
  }

  lemma InitialGiveUp(initial: map<Cid, Route>, conns: Conns, held: map<nat, Incoming>, idx: nat)
    requires InitialInv(initial, conns, held) && idx in held
    ensures InitialInv(initial - {held[idx].dstCid}, conns, held - {idx})
  {
  }

  lemma InitialArrive(initial: map<Cid, Route>, conns: Conns, held: map<nat, Incoming>, idx: nat, inc: Incoming)
    requires InitialInv(initial, conns, held) && idx !in held && inc.dstCid !in initial
    ensures InitialInv(if inc.dstCid == [] then initial
                       else initial[inc.dstCid := ToIncoming(idx)], conns, held[idx := inc])
  {
  }

  lemma InitialAccept(initial: map<Cid, Route>, conns: Conns, held: map<nat, Incoming>, idx: nat, ch: Handle,
                      m: ConnectionMeta)
    requires InitialInv(initial, conns, held) && idx in held && ch !in conns
    requires m.side == Server && m.initCid == held[idx].dstCid
    ensures InitialInv(if m.initCid == [] then initial
                       else initial[m.initCid := ToConnection(ch)], conns[ch := m], held - {idx})
  {
  }

  lemma InitialRemove(initial: map<Cid, Route>, conns: Conns, held: map<nat, Incoming>, ch: Handle)
    requires InitialInv(initial, conns, held) && ch in conns
    ensures InitialInv(if conns[ch].side == Server then initial - {conns[ch].initCid} else initial, conns - {ch}, held)
  {
  }

  // ----- zero-length IDs and reset tokens -----

  ghost predicate RemotesInv(incoming: map<FourTuple, Handle>, outgoing: map<SocketAddr, Handle>, conns: Conns) {
    && (forall a | a in incoming ::
          incoming[a] in conns && conns[incoming[a]].addresses == a && conns[incoming[a]].side == Server)
    && (forall r | r in outgoing ::
          outgoing[r] in conns && conns[outgoing[r]].addresses.remote == r && conns[outgoing[r]].side == Client)
  }

  /** The tables of zero-length IDs after a connection came, went or changed otherwise. */
  lemma RemotesFollow(incoming: map<FourTuple, Handle>, outgoing: map<SocketAddr, Handle>, conns: Conns, conns': Conns)
    requires RemotesInv(incoming, outgoing, conns)
    requires forall ch | ch in conns ::
               ch in conns' && conns'[ch].addresses == conns[ch].addresses && conns'[ch].side == conns[ch].side
    ensures RemotesInv(incoming, outgoing, conns')
  {
  }

  lemma RemotesPut(incoming: map<FourTuple, Handle>, outgoing: map<SocketAddr, Handle>, conns: Conns, ch: Handle,
                   a: FourTuple)
    requires RemotesInv(incoming, outgoing, conns) && ch in conns && conns[ch].addresses == a
    ensures conns[ch].side == Server ==> RemotesInv(incoming[a := ch], outgoing, conns)
    ensures conns[ch].side == Client ==> RemotesInv(incoming, outgoing[a.remote := ch], conns)
  {
  }

  lemma RemotesInsert(x: Index, conns: Conns, ch: Handle, m: ConnectionMeta, cid: Cid, y: Index)
    requires RemotesInv(x.incoming, x.outgoing, conns) && ch !in conns
    requires y == InsertConn(x, m.addresses, cid, ch, m.side)
    ensures RemotesInv(y.incoming, y.outgoing, conns[ch := m])
  {
    hide RemotesInv;
    RemotesFollow(x.incoming, x.outgoing, conns, conns[ch := m]);
    RemotesPut(x.incoming, x.outgoing, conns[ch := m], ch, m.addresses);
  }

  lemma RemotesRemove(incoming: map<FourTuple, Handle>, outgoing: map<SocketAddr, Handle>, conns: Conns, ch: Handle)
    requires RemotesInv(incoming, outgoing, conns) && ch in conns
    ensures RemotesInv(incoming - {conns[ch].addresses}, outgoing - {conns[ch].addresses.remote}, conns - {ch})
  {
  }

  ghost predicate TokensInv(t: TokenTable, conns: Conns) {
    && (forall r | r in t :: t[r] != map[])
    && (forall r, k | r in t && k in t[r] :: t[r][k] in conns && conns[t[r][k]].resetToken == Some((r, k)))
  }

  lemma TokensFollow(t: TokenTable, conns: Conns, conns': Conns)
    requires TokensInv(t, conns)
    requires forall ch | ch in conns :: ch in conns' && conns'[ch].resetToken == conns[ch].resetToken
    ensures TokensInv(t, conns')
  {
  }

  lemma TokensDrop(t: TokenTable, conns: Conns, entry: Option<(SocketAddr, Token)>)
    requires TokensInv(t, conns)
    ensures TokensInv(DropToken(t, entry), conns)
    ensures entry.Some? && entry.value.0 in DropToken(t, entry) ==>
              entry.value.1 !in DropToken(t, entry)[entry.value.0]
  {
  }

  /** With its own entry gone, a connection may disappear or take another token. */
  lemma TokensWithout(t: TokenTable, conns: Conns, ch: Handle, conns': Conns)
    requires TokensInv(t, conns) && ch in conns
    requires forall r, k | r in t && k in t[r] :: conns[ch].resetToken != Some((r, k))
    requires forall other | other in conns && other != ch :: other in conns' && conns'[other] == conns[other]
    ensures TokensInv(t, conns')
  {
    forall r, k | r in t && k in t[r] ensures t[r][k] in conns' && conns'[t[r][k]].resetToken == Some((r, k)) {
      assert conns[t[r][k]].resetToken == Some((r, k));
    }
  }

  lemma TokensInsert(t: TokenTable, conns: Conns, ch: Handle, remote: SocketAddr, token: Token)
    requires TokensInv(t, conns) && ch in conns && conns[ch].resetToken == Some((remote, token))
    ensures TokensInv(InsertToken(t, remote, token, ch), conns)
  {
    assert token in InsertToken(t, remote, token, ch)[remote];
  }

  // ----- buffers -----

  ghost function Sum(b: map<nat, IncomingBuffer>): nat {
    if b == map[] then 0 else
    var k :| k in b;
    b[k].totalBytes + Sum(b - {k})
  }

  lemma {:induction false} SumWithout(b: map<nat, IncomingBuffer>, k: nat)
    requires k in b
    ensures Sum(b) == b[k].totalBytes + Sum(b - {k})
    decreases |b|
  {
    var j :| j in b && Sum(b) == b[j].totalBytes + Sum(b - {j});
    if j != k {
      SumWithout(b - {j}, k);
      SumWithout(b - {k}, j);
      assert b - {j} - {k} == b - {k} - {j};
    }
  }

  lemma SumReplace(b: map<nat, IncomingBuffer>, k: nat, v: IncomingBuffer)
    requires k in b
    ensures Sum(b[k := v]) == Sum(b) - b[k].totalBytes + v.totalBytes
  {
    hide Sum;
    SumWithout(b, k);
    SumWithout(b[k := v], k);
    assert b[k := v] - {k} == b - {k};
  }

  function SumLens(d: seq<nat>): nat {
    if d == [] then 0 else SumLens(d[..|d| - 1]) + d[|d| - 1]
  }

  /** Buffers belong to the attempts held by the application, count their octets, and the global
      counter is their total. */
  ghost predicate BuffersInv(s: State) {
    && s.buffers.Keys == s.held.Keys
    && (forall i | i in s.buffers :: s.buffers[i].totalBytes == SumLens(s.buffers[i].datagrams))
    && s.totalBytes == Sum(s.buffers)
  }

  ghost predicate Inv(s: State) {
    && IdsInv(s.index.ids, s.connections)
    && InitialInv(s.index.initial, s.connections, s.held)
    && RemotesInv(s.index.incoming, s.index.outgoing, s.connections)
    && TokensInv(s.index.tokens, s.connections)
    && BuffersInv(s)
  }

  lemma EmptyInv()
    ensures Inv(EMPTY)
  {
  }

  // ----- issuing, retiring, reset tokens -----

  /** A connection changed its IDs only. */
  lemma OthersFollow(s: State, conns': Conns)
    requires Inv(s) && conns'.Keys == s.connections.Keys
    requires forall ch | ch in conns' ::
               && conns'[ch].side == s.connections[ch].side && conns'[ch].initCid == s.connections[ch].initCid
               && conns'[ch].addresses == s.connections[ch].addresses
               && conns'[ch].resetToken == s.connections[ch].resetToken
    ensures InitialInv(s.index.initial, conns', s.held)
    ensures RemotesInv(s.index.incoming, s.index.outgoing, conns')
    ensures TokensInv(s.index.tokens, conns')
  {
    hide InitialInv, RemotesInv, TokensInv, IdsInv, BuffersInv;
    InitialFollows(s.index.initial, s.connections, conns', s.held);
    RemotesFollow(s.index.incoming, s.index.outgoing, s.connections, conns');
    TokensFollow(s.index.tokens, s.connections, conns');
  }

  lemma IssueKeeps(s: State, ch: Handle, cid: Cid)
    requires Inv(s) && ch in s.connections && Acceptable(s.index.ids, cid)
    ensures Inv(IssueCid(s, ch, cid))
  {
    hide InitialInv, RemotesInv, TokensInv, IdsInv;
    var t := IssueCid(s, ch, cid);
    IdsIssue(s.index.ids, s.connections, ch, cid, t.index.ids, t.connections[ch]);
    OthersFollow(s, t.connections);
  }

  lemma ForgetKeeps(s: State, ch: Handle, n: nat)
    requires Inv(s) && ch in s.connections && n in s.connections[ch].locCids
    ensures Inv(Forget(s, ch, n))
  {
    hide InitialInv, RemotesInv, TokensInv, IdsInv;
    var t := Forget(s, ch, n);
    IdsForget(s.index.ids, s.connections, ch, n, t.connections[ch]);
    OthersFollow(s, t.connections);
  }

  /** The IDs of a batch stay acceptable while the earlier ones are being registered. */
  lemma {:induction false} IssueAllKeeps(c: Config, s: State, ch: Handle, cids: seq<Cid>)
    requires Inv(s) && ch in s.connections && Drawn(c, s.index.ids, cids)
    ensures Inv(IssueCids(s, ch, cids))
    ensures forall d | d in IssueCids(s, ch, cids).index.ids :: d in s.index.ids || d in cids
  {
    hide Inv;
    if cids != [] {
      var front, last := cids[..|cids| - 1], cids[|cids| - 1];
      IssueAllKeeps(c, s, ch, front);
      IssueKeeps(IssueCids(s, ch, front), ch, last);
    }
  }

  lemma TokenKeeps(s: State, ch: Handle, remote: SocketAddr, token: Token)
    requires Inv(s) && ch in s.connections
    ensures Inv(SetResetToken(s, ch, remote, token))
  {
    hide InitialInv, RemotesInv, TokensInv, IdsInv, DropToken;
    var m := s.connections[ch];
    var conns' := s.connections[ch := m.(resetToken := Some((remote, token)))];
    var t := DropToken(s.index.tokens, m.resetToken);
    IdsIgnoreRest(s.index.ids, s.connections, conns');
    InitialFollows(s.index.initial, s.connections, conns', s.held);
    RemotesFollow(s.index.incoming, s.index.outgoing, s.connections, conns');
    TokensDrop(s.index.tokens, s.connections, m.resetToken);
    TokensWithout(t, s.connections, ch, conns');
    TokensInsert(t, conns', ch, remote, token);
  }

  lemma DrainKeeps(s: State, ch: Handle)
    requires Inv(s)
    ensures Inv(Drain(s, ch))
  {
    hide InitialInv, RemotesInv, TokensInv, IdsInv, DropToken;
    if ch in s.connections {
      var m := s.connections[ch];
      var conns' := s.connections - {ch};
      IdsRemove(s.index.ids, s.connections, ch);
      InitialRemove(s.index.initial, s.connections, s.held, ch);
      RemotesRemove(s.index.incoming, s.index.outgoing, s.connections, ch);
      TokensDrop(s.index.tokens, s.connections, m.resetToken);
      TokensWithout(DropToken(s.index.tokens, m.resetToken), s.connections, ch, conns');
      NoEmptyInitial(s);
    }
  }

  lemma NoEmptyInitial(s: State)
    requires Inv(s)
    ensures [] !in s.index.initial && s.index.initial - {[]} == s.index.initial
  {
  }

  // ----- connection attempts -----

  lemma BuffersDrop(s: State, idx: nat)
    requires BuffersInv(s) && idx in s.buffers
    ensures BuffersInv(DropBuffer(s, idx))
    ensures s.buffers[idx].totalBytes <= s.totalBytes
  {
    SumWithout(s.buffers, idx);
  }

  /** Giving an attempt up finds its index entry, and takes no more octets off the counter than
      are on it. */
  lemma GiveUpKeeps(s: State, idx: nat)
    requires Inv(s) && idx in s.held && idx in s.buffers
    ensures Inv(CleanUpIncoming(s, idx))
    ensures s.held[idx].dstCid != [] ==> s.held[idx].dstCid in s.index.initial
    ensures s.buffers[idx].totalBytes <= s.totalBytes
  {
    hide RemotesInv, TokensInv, IdsInv;
    InitialGiveUp(s.index.initial, s.connections, s.held, idx);
    NoEmptyInitial(s);
    BuffersDrop(s, idx);
  }

  lemma BufferKeeps(s: State, idx: nat, len: nat)
    requires Inv(s) && idx in s.buffers
    ensures Inv(BufferDatagram(s, idx, len))
  {
    hide InitialInv, RemotesInv, TokensInv, IdsInv, BuffersInv;
    BufferCounts(s, idx, len);
  }

  lemma BufferCounts(s: State, idx: nat, len: nat)
    requires BuffersInv(s) && idx in s.buffers
    ensures BuffersInv(BufferDatagram(s, idx, len))
  {
    hide Sum;
    var b := s.buffers[idx];
    SumReplace(s.buffers, idx, IncomingBuffer(b.datagrams + [len], b.totalBytes + len));
    assert (b.datagrams + [len])[..|b.datagrams|] == b.datagrams;
  }

  lemma NotInitial(x: Index, addresses: FourTuple, p: Packet)
    requires p.kind.InitialPacket? && Get(x, addresses, p).None?
    ensures p.dstCid !in x.initial
  {
  }

  lemma BuffersArrive(s: State, idx: nat, inc: Incoming, t: State)
    requires BuffersInv(s) && idx !in s.buffers
    requires t.buffers == s.buffers[idx := IncomingBuffer([], 0)] && t.held == s.held[idx := inc]
    requires t.totalBytes == s.totalBytes
    ensures BuffersInv(t)
  {
    SumWithout(t.buffers, idx);
    assert t.buffers - {idx} == s.buffers;
  }

  lemma FirstPacketKeeps(c: Config, s: State, now: Time, addresses: FourTuple, p: Packet,
                         in_: FirstPacketInputs, idx: nat)
    requires Inv(s) && p.kind.InitialPacket? && idx !in s.buffers && Get(s.index, addresses, p).None?
    ensures Inv(FirstPacket(c, s, now, addresses, p, in_, idx))
  {
    hide InitialInv, RemotesInv, TokensInv, IdsInv, Get, RefusedEarly;
    var t := FirstPacket(c, s, now, addresses, p, in_, idx);
    var inc := Incoming(p.dstCid, addresses, in_.mayRetry);
    NotInitial(s.index, addresses, p);
    if idx in t.buffers {
      InitialArrive(s.index.initial, s.connections, s.held, idx, inc);
      BuffersArrive(s, idx, inc, t);
    }
  }

  lemma ReceiveKeeps(c: Config, s: State, now: Time, addresses: FourTuple, p: Packet, in_: FirstPacketInputs,
                     idx: nat, cidValid: bool)
    requires Inv(s) && idx !in s.buffers
    ensures Inv(Receive(c, s, now, addresses, p, in_, idx, cidValid))
  {
    hide InitialInv, RemotesInv, TokensInv, IdsInv, Get, FirstPacket, BufferDatagram;
    match Get(s.index, addresses, p)
    case Some(ToConnection(_)) =>
    case Some(ToIncoming(i)) =>
      if i in s.buffers {
        BufferKeeps(s, i, p.len);
      }
    case None =>
      if p.kind.InitialPacket? {
        FirstPacketKeeps(c, s, now, addresses, p, in_, idx);
      }
  }

  // ----- connect and accept -----

  /** `new_cid` was called for these IDs, in this order, and `add_connection` files the first one
      once more. */
  function WithIds(ids: map<Cid, Handle>, ch: Handle, locCid: Cid, prefCid: Option<Cid>): map<Cid, Handle> {
    var one := if locCid == [] then ids else ids[locCid := ch];
    var two := if prefCid.None? || prefCid.value == [] then one else one[prefCid.value := ch];
    if locCid == [] then two else two[locCid := ch]
  }

  lemma AddedIds(ids: map<Cid, Handle>, conns: Conns, ch: Handle, locCid: Cid, prefCid: Option<Cid>, m: ConnectionMeta)
    requires IdsInv(ids, conns) && ch !in conns
    requires Acceptable(ids, locCid) && (prefCid.Some? ==> Acceptable(ids, prefCid.value))
    requires prefCid.Some? && locCid != [] ==> locCid != prefCid.value
    requires m == NewMeta(m.initCid, locCid, prefCid, m.addresses, m.side)
    ensures IdsInv(WithIds(ids, ch, locCid, prefCid), conns[ch := m])
  {
    assert 0 in m.locCids && m.locCids[0] == locCid;
    assert prefCid.Some? ==> 1 in m.locCids && m.locCids[1] == prefCid.value;
    IdsAdd(ids, conns, ch, WithIds(ids, ch, locCid, prefCid), m);
  }

  /** An ID registered for a handle without a connection breaks the invariant. */
  lemma StrayCid(s: State, cid: Cid)
    requires cid in s.index.ids && s.index.ids[cid] !in s.connections
    ensures !Inv(s)
  {
  }

  /** So does an initial destination ID that still points to an attempt no longer held. */
  lemma StrayInitial(s: State, cid: Cid, idx: nat)
    requires cid in s.index.initial && s.index.initial[cid] == ToIncoming(idx) && idx !in s.held
    ensures !Inv(s)
  {
  }

  /** `connect` returns early after registering an ID (src/endpoint.rs:699-709). */
  predicate ConnectLeaks(c: Config, s: State, remote: SocketAddr, versionOk: bool, locCid: Cid, setupOk: bool) {
    ConnectProceeds(c, s, remote, versionOk) && !setupOk && locCid != []
  }

  lemma ConnectAdds(s: State, ch: Handle, addresses: FourTuple, remoteId: Cid, locCid: Cid, m: ConnectionMeta, t: State)
    requires Inv(s) && ch !in s.connections && Acceptable(s.index.ids, locCid)
    requires m == NewMeta(remoteId, locCid, None, addresses, Client)
    requires t == AddConnection(s.(index := Register(s.index, locCid, ch)), ch, remoteId, locCid, None, addresses,
                                Client)
    ensures Inv(t)
  {
    hide InitialInv, RemotesInv, TokensInv, IdsInv;
    AddedIds(s.index.ids, s.connections, ch, locCid, None, m);
    InitialFollows(s.index.initial, s.connections, s.connections[ch := m], s.held);
    RemotesInsert(Register(s.index, locCid, ch), s.connections, ch, m, locCid, t.index);
    TokensFollow(s.index.tokens, s.connections, s.connections[ch := m]);
  }

  lemma ConnectKeepsIff(c: Config, s: State, ch: Handle, remote: SocketAddr, versionOk: bool, remoteId: Cid,
                        locCid: Cid, setupOk: bool)
    requires Inv(s) && ch !in s.connections
    requires ConnectProceeds(c, s, remote, versionOk) ==> Acceptable(s.index.ids, locCid)
    ensures Inv(Connect(c, s, ch, remote, versionOk, remoteId, locCid, setupOk))
            <==> !ConnectLeaks(c, s, remote, versionOk, locCid, setupOk)
  {
    hide Inv, ConnectProceeds, AddConnection;
    var t := Connect(c, s, ch, remote, versionOk, remoteId, locCid, setupOk);
    var addresses := FourTuple(remote, None);
    if ConnectLeaks(c, s, remote, versionOk, locCid, setupOk) {
      StrayCid(t, locCid);
    } else if t != s {
      ConnectAdds(s, ch, addresses, remoteId, locCid, NewMeta(remoteId, locCid, None, addresses, Client), t);
    }
  }

  /** `accept` returns early without clearing the index (src/endpoint.rs:909-919, 973-980, 996-1006). */
  predicate AcceptLeaks(c: Config, s: State, inc: Incoming, override_: Option<ServerConfig>, in_: AcceptInputs,
                        locCid: Cid, prefCid: Cid)
  {
    var config := AcceptConfig(s, override_);
    || (config.None? && inc.dstCid != [])
    || (AcceptProceeds(c, s, config, in_) && !(in_.paramsOk && in_.sessionOk)
        && (inc.dstCid != [] || locCid != [] || (in_.paramsOk && config.value.hasPreferredAddress && prefCid != [])))
  }

  lemma EstablishFields(s: State, x: Index, inc: Incoming, ch: Handle, locCid: Cid, pref: Option<Cid>,
                        m: ConnectionMeta, t: State)
    requires x.ids == (var r := Register(s.index, locCid, ch);
                       if pref.Some? then Register(r, pref.value, ch) else r).ids
    requires m == NewMeta(inc.dstCid, locCid, pref, inc.addresses, Server)
    requires t == Establish(s.(index := x), inc, ch, locCid, pref)
    ensures t.connections == s.connections[ch := m]
    ensures t.index.ids == WithIds(s.index.ids, ch, locCid, pref)
    ensures t.index.initial == if inc.dstCid == [] then x.initial else x.initial[inc.dstCid := ToConnection(ch)]
    ensures t.index.tokens == x.tokens
    ensures t.index.incoming == InsertConn(x, m.addresses, locCid, ch, Server).incoming
    ensures t.index.outgoing == InsertConn(x, m.addresses, locCid, ch, Server).outgoing
    ensures t.buffers == s.buffers && t.totalBytes == s.totalBytes && t.held == s.held
  {
  }

  lemma AcceptAdds(s: State, idx: nat, x: Index, ch: Handle, locCid: Cid, pref: Option<Cid>, m: ConnectionMeta,
                   t: State)
    requires Inv(s) && idx in s.held && idx in s.buffers && ch !in s.connections
    requires Acceptable(s.index.ids, locCid) && (pref.Some? ==> Acceptable(s.index.ids, pref.value))
    requires pref.Some? && locCid != [] ==> locCid != pref.value
    requires m == NewMeta(s.held[idx].dstCid, locCid, pref, s.held[idx].addresses, Server)
    requires x == (var r := Register(s.index, locCid, ch); if pref.Some? then Register(r, pref.value, ch) else r)
    requires t == Establish(DropBuffer(s, idx).(index := x), s.held[idx], ch, locCid, pref)
    ensures Inv(t)
  {
    hide InitialInv, RemotesInv, TokensInv, IdsInv, Establish, InsertConn, WithIds;
    EstablishFields(DropBuffer(s, idx), x, s.held[idx], ch, locCid, pref, m, t);
    AddedIds(s.index.ids, s.connections, ch, locCid, pref, m);
    InitialAccept(s.index.initial, s.connections, s.held, idx, ch, m);
    RemotesInsert(x, s.connections, ch, m, locCid, InsertConn(x, m.addresses, locCid, ch, Server));
    TokensFollow(s.index.tokens, s.connections, s.connections[ch := m]);
    BuffersDrop(s, idx);
  }

  /** `accept` gets through: a connection that fails its first packet is drained again at once. */
  lemma AcceptSucceeds(c: Config, s: State, idx: nat, override_: Option<ServerConfig>, in_: AcceptInputs,
                       ch: Handle, locCid: Cid, prefCid: Cid)
    requires Inv(s) && idx in s.held && idx in s.buffers && ch !in s.connections
    requires AcceptProceeds(c, s, AcceptConfig(s, override_), in_) && in_.paramsOk && in_.sessionOk
    requires Drawn(c, s.index.ids, AcceptDraws(AcceptConfig(s, override_).value, in_, locCid, prefCid))
    ensures Inv(Accept(c, s, idx, override_, in_, ch, locCid, prefCid))
  {
    hide Inv, CidsExhausted, Drain, Establish;
    var config := AcceptConfig(s, override_);
    var draws := AcceptDraws(config.value, in_, locCid, prefCid);
    assert draws[0] == locCid && (config.value.hasPreferredAddress ==> draws[1] == prefCid);
    var pref := if config.value.hasPreferredAddress then Some(prefCid) else None;
    var r := Register(s.index, locCid, ch);
    var x := if pref.Some? then Register(r, prefCid, ch) else r;
    var t := Establish(DropBuffer(s, idx).(index := x), s.held[idx], ch, locCid, pref);
    var m := NewMeta(s.held[idx].dstCid, locCid, pref, s.held[idx].addresses, Server);
    AcceptAdds(s, idx, x, ch, locCid, pref, m, t);
    DrainKeeps(t, ch);
  }

  /** `accept` stops before drawing IDs and clears the index. */
  lemma AcceptDeclines(s: State, idx: nat, t: State)
    requires Inv(s) && idx in s.held && idx in s.buffers
    requires var s1 := DropBuffer(s, idx); t == s1.(index := RemoveInitial(s1.index, s.held[idx].dstCid))
    ensures Inv(t)
  {
    hide RemotesInv, TokensInv, IdsInv;
    BuffersDrop(s, idx);
    NoEmptyInitial(s);
    InitialGiveUp(s.index.initial, s.connections, s.held, idx);
  }

  /** `accept` returns early without clearing the index, having registered these IDs for a handle
      that never gets its connection. */
  lemma AcceptAbandons(s: State, idx: nat, ch: Handle, locCid: Cid, prefCid: Cid, t: State)
    requires Inv(s) && idx in s.held && idx in s.buffers && ch !in s.connections
    requires t == DropBuffer(s, idx).(index := Register(Register(s.index, locCid, ch), prefCid, ch))
    ensures Inv(t) <==> s.held[idx].dstCid == [] && locCid == [] && prefCid == []
  {
    hide Inv;
    if s.held[idx].dstCid != [] {
      assert s.index.initial[s.held[idx].dstCid] == ToIncoming(idx) by { GiveUpFinds(s, idx); }
      StrayInitial(t, s.held[idx].dstCid, idx);
    } else if prefCid != [] {
      StrayCid(t, prefCid);
    } else if locCid != [] {
      StrayCid(t, locCid);
    } else {
      AcceptDeclines(s, idx, t);
    }
  }

  lemma GiveUpFinds(s: State, idx: nat)
    requires Inv(s) && idx in s.held && s.held[idx].dstCid != []
    ensures s.held[idx].dstCid in s.index.initial && s.index.initial[s.held[idx].dstCid] == ToIncoming(idx)
  {
  }

  lemma AcceptKeepsIff(c: Config, s: State, idx: nat, override_: Option<ServerConfig>, in_: AcceptInputs,
                       ch: Handle, locCid: Cid, prefCid: Cid)
    requires Inv(s) && idx in s.held && idx in s.buffers && ch !in s.connections
    requires AcceptProceeds(c, s, AcceptConfig(s, override_), in_) ==>
               Drawn(c, s.index.ids, AcceptDraws(AcceptConfig(s, override_).value, in_, locCid, prefCid))
    ensures Inv(Accept(c, s, idx, override_, in_, ch, locCid, prefCid))
            <==> !AcceptLeaks(c, s, s.held[idx], override_, in_, locCid, prefCid)
  {
    hide Inv, CidsExhausted, Drain, Establish, Drawn, AcceptDraws;
    var config := AcceptConfig(s, override_);
    var t := Accept(c, s, idx, override_, in_, ch, locCid, prefCid);
    if config.None? {
      AcceptAbandons(s, idx, ch, [], [], t);
    } else if !AcceptProceeds(c, s, config, in_) {
      AcceptDeclines(s, idx, t);
    } else if in_.paramsOk && in_.sessionOk {
      AcceptSucceeds(c, s, idx, override_, in_, ch, locCid, prefCid);
    } else {
      AcceptAbandons(s, idx, ch, locCid, if in_.paramsOk && config.value.hasPreferredAddress then prefCid else [], t);
    }
  }
}

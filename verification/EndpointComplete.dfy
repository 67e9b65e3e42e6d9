/**
 The routing tables that do not look at owners: zero-length IDs by address, and reset tokens
 (src/endpoint.rs, `insert_conn`, `ConnectionIndex::remove`, `ResetTokenTable`).  A later
 connection can take an earlier one's entry there, and a drained one can take another's with it.
 This module says exactly when that happens and when, over a whole run, these tables too mirror
 the live connections.
 */
module EndpointComplete {
  import opened Prelude
  import opened Coding
  import opened EndpointState
  import opened EndpointInvariant
  import opened EndpointRuns
  import opened IdSupply

  predicate HasToken(t: TokenTable, r: SocketAddr, k: Token, ch: Handle) {
    r in t && k in t[r] && t[r][k] == ch
  }

  // ----- what draining takes along -----

  /** `y` is `x` without the entries that name `ch`, and nothing else is missing from it. */
  ghost predicate OnlyForgets(x: Index, y: Index, ch: Handle) {
    && Restricted(x.ids, y.ids, ch)
    && Restricted(x.initial, y.initial, ToConnection(ch))
    && Restricted(x.incoming, y.incoming, ch)
    && Restricted(x.outgoing, y.outgoing, ch)
    && (forall r, k, h :: HasToken(y.tokens, r, k, h) <==> HasToken(x.tokens, r, k, h) && h != ch)
  }

  ghost predicate Restricted<K(!new), V(!new)>(x: map<K, V>, y: map<K, V>, v: V) {
    && (forall k :: k in y <==> k in x && x[k] != v)
    && (forall k | k in y :: y[k] == x[k])
  }

  /** One of the three entries that draining `ch` removes without looking belongs to another. */
  ghost predicate TakesAnothers(x: Index, m: ConnectionMeta, ch: Handle) {
    || (m.addresses in x.incoming && x.incoming[m.addresses] != ch)
    || (m.addresses.remote in x.outgoing && x.outgoing[m.addresses.remote] != ch)
    || (m.resetToken.Some? && exists h :: h != ch && HasToken(x.tokens, m.resetToken.value.0, m.resetToken.value.1, h))
  }

  lemma DrainedIds(s: State, ch: Handle)
    requires Inv(s) && ch in s.connections
    ensures Restricted(s.index.ids, s.index.ids - s.connections[ch].locCids.Values, ch)
  {
    hide InitialInv, RemotesInv, TokensInv, BuffersInv;
    var loc := s.connections[ch].locCids;
    assert IdsFiled(s.index.ids, ch, loc, s.connections[ch].cidsIssued);
    forall cid | cid in s.index.ids ensures s.index.ids[cid] == ch <==> cid in loc.Values {
      if s.index.ids[cid] == ch {
        var n :| n in loc && loc[n] == cid;
      }
    }
  }

  lemma DrainedInitial(s: State, ch: Handle)
    requires Inv(s) && ch in s.connections
    ensures Restricted(s.index.initial, RemoveConn(s.index, s.connections[ch]).initial, ToConnection(ch))
  {
    hide IdsInv, RemotesInv, TokensInv, BuffersInv, DropToken;
  }

  lemma DroppedToken(t: TokenTable, entry: Option<(SocketAddr, Token)>, r: SocketAddr, k: Token, h: Handle)
    ensures HasToken(DropToken(t, entry), r, k, h) <==> HasToken(t, r, k, h) && entry != Some((r, k))
  {
    if entry.Some? && entry.value.0 == r && r in t && k in t[r] && k != entry.value.1 {
      assert k in t[r] - {entry.value.1};
    }
  }

  lemma InsertedToken(t: TokenTable, remote: SocketAddr, token: Token, ch: Handle, r: SocketAddr, k: Token, h: Handle)
    ensures HasToken(InsertToken(t, remote, token, ch), r, k, h)
       <==> if (r, k) == (remote, token) then h == ch else HasToken(t, r, k, h)
  {
  }

  lemma TokenOwner(s: State, r: SocketAddr, k: Token, h: Handle)
    requires Inv(s) && HasToken(s.index.tokens, r, k, h)
    ensures h in s.connections && s.connections[h].resetToken == Some((r, k))
  {
  }

  /** Forgetting a drained connection removes its entries, from all five tables, and nothing else
      if and only if no other connection holds one of the three entries removed by address and by
      token. */
  lemma DrainExactIff(s: State, ch: Handle)
    requires Inv(s) && ch in s.connections
    ensures OnlyForgets(s.index, Drain(s, ch).index, ch) <==> !TakesAnothers(s.index, s.connections[ch], ch)
  {
    hide DropToken, HasToken, IdsInv, InitialInv, TokensInv, BuffersInv;
    var m, x, y := s.connections[ch], s.index, Drain(s, ch).index;
    DrainedIds(s, ch);
    DrainedInitial(s, ch);
    DrainedSlots(s, ch);
    forall r, k, h
      ensures HasToken(y.tokens, r, k, h) <==> HasToken(x.tokens, r, k, h) && m.resetToken != Some((r, k))
    {
      DroppedToken(x.tokens, m.resetToken, r, k, h);
    }
    forall r, k | HasToken(x.tokens, r, k, ch) ensures m.resetToken == Some((r, k)) {
      TokenOwner(s, r, k, ch);
    }
    hide Restricted, Drain;
  }

  lemma DrainedSlots(s: State, ch: Handle)
    requires Inv(s) && ch in s.connections
    ensures var a, x := s.connections[ch].addresses, s.index;
            && (Restricted(x.incoming, x.incoming - {a}, ch) <==> !(a in x.incoming && x.incoming[a] != ch))
            && (Restricted(x.outgoing, x.outgoing - {a.remote}, ch)
                <==> !(a.remote in x.outgoing && x.outgoing[a.remote] != ch))
  {
    hide IdsInv, InitialInv, TokensInv, BuffersInv;
  }

  // ----- when these tables are complete -----

  ghost predicate TokensComplete(t: TokenTable, conns: Conns) {
    forall ch | ch in conns && conns[ch].resetToken.Some? ::
      HasToken(t, conns[ch].resetToken.value.0, conns[ch].resetToken.value.1, ch)
  }

  /** Every live connection is found by its address. */
  ghost predicate RemotesComplete(incoming: map<FourTuple, Handle>, outgoing: map<SocketAddr, Handle>, conns: Conns) {
    && (forall ch | ch in conns && conns[ch].side == Server ::
          conns[ch].addresses in incoming && incoming[conns[ch].addresses] == ch)
    && (forall ch | ch in conns && conns[ch].side == Client ::
          conns[ch].addresses.remote in outgoing && outgoing[conns[ch].addresses.remote] == ch)
  }

  ghost predicate Complete(c: Config, s: State) {
    && TokensComplete(s.index.tokens, s.connections)
    && (if c.cidLen == 0 then RemotesComplete(s.index.incoming, s.index.outgoing, s.connections)
        else s.index.incoming == map[] && s.index.outgoing == map[])
  }

  ghost predicate OtherServer(conns: Conns, ch: Handle, a: FourTuple) {
    exists o :: o in conns && o != ch && conns[o].side == Server && conns[o].addresses == a
  }

  ghost predicate OtherClient(conns: Conns, ch: Handle, r: SocketAddr) {
    exists o :: o in conns && o != ch && conns[o].side == Client && conns[o].addresses.remote == r
  }

  ghost predicate OtherToken(conns: Conns, ch: Handle, r: SocketAddr, k: Token) {
    exists o :: o in conns && o != ch && conns[o].resetToken == Some((r, k))
  }

  lemma TokenSetIff(t: TokenTable, conns: Conns, ch: Handle, r: SocketAddr, k: Token, m: ConnectionMeta)
    requires TokensComplete(t, conns) && ch in conns && m.resetToken == Some((r, k))
    ensures TokensComplete(InsertToken(DropToken(t, conns[ch].resetToken), r, k, ch), conns[ch := m])
       <==> !OtherToken(conns, ch, r, k)
  {
    hide InsertToken, DropToken, HasToken;
    var t' := InsertToken(DropToken(t, conns[ch].resetToken), r, k, ch);
    InsertedToken(DropToken(t, conns[ch].resetToken), r, k, ch, r, k, ch);
    forall o | o in conns && o != ch && conns[o].resetToken.Some?
      ensures var p := conns[o].resetToken.value; HasToken(t', p.0, p.1, o) <==> p != (r, k)
    {
      var p := conns[o].resetToken.value;
      InsertedToken(DropToken(t, conns[ch].resetToken), r, k, ch, p.0, p.1, o);
      DroppedToken(t, conns[ch].resetToken, p.0, p.1, o);
      OneTokenOwner(t, conns, ch, o);
    }
    if OtherToken(conns, ch, r, k) {
      var o :| o in conns && o != ch && conns[o].resetToken == Some((r, k));
      assert conns[ch := m][o] == conns[o];
    }
  }

  lemma OneTokenOwner(t: TokenTable, conns: Conns, a: Handle, b: Handle)
    requires TokensComplete(t, conns) && a in conns && b in conns && a != b
    ensures conns[a].resetToken.None? || conns[a].resetToken != conns[b].resetToken
  {
  }

  lemma TokensDrained(t: TokenTable, conns: Conns, ch: Handle)
    requires TokensComplete(t, conns) && ch in conns
    ensures TokensComplete(DropToken(t, conns[ch].resetToken), conns - {ch})
  {
    hide DropToken, HasToken;
    forall o | o in conns && o != ch && conns[o].resetToken.Some?
      ensures HasToken(DropToken(t, conns[ch].resetToken), conns[o].resetToken.value.0, conns[o].resetToken.value.1, o)
    {
      DroppedToken(t, conns[ch].resetToken, conns[o].resetToken.value.0, conns[o].resetToken.value.1, o);
      OneTokenOwner(t, conns, ch, o);
    }
  }

  lemma RemotesAddIff(incoming: map<FourTuple, Handle>, outgoing: map<SocketAddr, Handle>, conns: Conns,
                      ch: Handle, m: ConnectionMeta)
    requires RemotesComplete(incoming, outgoing, conns) && ch !in conns
    ensures m.side == Server ==>
              (RemotesComplete(incoming[m.addresses := ch], outgoing, conns[ch := m])
               <==> !OtherServer(conns, ch, m.addresses))
    ensures m.side == Client ==>
              (RemotesComplete(incoming, outgoing[m.addresses.remote := ch], conns[ch := m])
               <==> !OtherClient(conns, ch, m.addresses.remote))
  {
    var conns' := conns[ch := m];
    if OtherServer(conns, ch, m.addresses) {
      var o :| o in conns && o != ch && conns[o].side == Server && conns[o].addresses == m.addresses;
      assert conns'[o] == conns[o];
    }
    if OtherClient(conns, ch, m.addresses.remote) {
      var o :| o in conns && o != ch && conns[o].side == Client && conns[o].addresses.remote == m.addresses.remote;
      assert conns'[o] == conns[o];
    }
  }

  /** Also where the connection's own entries are not there. */
  lemma RemotesDropIff(incoming: map<FourTuple, Handle>, outgoing: map<SocketAddr, Handle>, conns: Conns,
                       ch: Handle, a: FourTuple)
    requires RemotesComplete(incoming, outgoing, conns - {ch})
    ensures RemotesComplete(incoming - {a}, outgoing - {a.remote}, conns - {ch})
       <==> !OtherServer(conns, ch, a) && !OtherClient(conns, ch, a.remote)
  {
    var conns' := conns - {ch};
    if OtherServer(conns, ch, a) {
      var o :| o in conns && o != ch && conns[o].side == Server && conns[o].addresses == a;
      assert o in conns' && conns'[o] == conns[o];
    }
    if OtherClient(conns, ch, a.remote) {
      var o :| o in conns && o != ch && conns[o].side == Client && conns[o].addresses.remote == a.remote;
      assert o in conns' && conns'[o] == conns[o];
    }
  }

  /** What takes another connection's entry: a connection from or to an address that already has
      one, the end of a connection that shares an address with one on the other side, a token that
      another connection announced. */
  ghost predicate Clashes(c: Config, s: State, e: Event)
    requires Enabled(c, s, e)
  {
    match e
    case ConnectEvent(ch, remote, versionOk, _, _, setupOk) =>
      c.cidLen == 0 && ConnectProceeds(c, s, remote, versionOk) && setupOk && OtherClient(s.connections, ch, remote)
    case AcceptEvent(idx, override_, inputs, ch, _, _) =>
      var a := s.held[idx].addresses;
      && c.cidLen == 0 && AcceptProceeds(c, s, AcceptConfig(s, override_), inputs) && inputs.paramsOk
        && inputs.sessionOk
      && (OtherServer(s.connections, ch, a) || (!inputs.handshakeOk && OtherClient(s.connections, ch, a.remote)))
    case DrainedEvent(ch) =>
      && c.cidLen == 0 && ch in s.connections
      && var a := s.connections[ch].addresses;
         OtherServer(s.connections, ch, a) || OtherClient(s.connections, ch, a.remote)
    case ResetTokenEvent(ch, remote, token) => OtherToken(s.connections, ch, remote, token)
    case _ => false
  }

  /** Two states alike in all that these tables are about. */
  ghost predicate Alike(s: State, t: State) {
    && t.index.tokens == s.index.tokens && t.index.incoming == s.index.incoming && t.index.outgoing == s.index.outgoing
    && t.connections.Keys == s.connections.Keys
    && forall ch | ch in s.connections ::
         && t.connections[ch].addresses == s.connections[ch].addresses
         && t.connections[ch].side == s.connections[ch].side
         && t.connections[ch].resetToken == s.connections[ch].resetToken
  }

  lemma AlikeComplete(c: Config, s: State, t: State)
    requires Alike(s, t) && Complete(c, s)
    ensures Complete(c, t)
  {
    hide HasToken;
  }

  lemma {:induction false} IssueAllAlike(s: State, ch: Handle, cids: seq<Cid>)
    requires ch in s.connections
    ensures Alike(s, IssueCids(s, ch, cids))
  {
    if cids != [] {
      IssueAllAlike(s, ch, cids[..|cids| - 1]);
    }
  }

  lemma RetireAlike(s: State, ch: Handle, n: nat, more: bool, cid: Cid)
    requires ch in s.connections
    ensures Alike(s, RetireCid(s, ch, n, more, cid))
  {
  }

  lemma ReceiveAlike(c: Config, s: State, now: Time, a: FourTuple, p: Packet, first: FirstPacketInputs,
                     vacant: nat, cidValid: bool)
    ensures Alike(s, Receive(c, s, now, a, p, first, vacant, cidValid))
  {
    hide Receive;
    ReceiveSized(c, s, now, a, p, first, vacant, cidValid);
  }

  lemma DrainCompleteIff(c: Config, s: State, ch: Handle)
    requires Complete(c, s)
    ensures Complete(c, Drain(s, ch)) <==>
            !(c.cidLen == 0 && ch in s.connections
              && var a := s.connections[ch].addresses;
                 OtherServer(s.connections, ch, a) || OtherClient(s.connections, ch, a.remote))
  {
    hide DropToken, HasToken, TokensComplete, OtherServer, OtherClient;
    if ch in s.connections {
      TokensDrained(s.index.tokens, s.connections, ch);
      if c.cidLen == 0 {
        RemotesDropIff(s.index.incoming, s.index.outgoing, s.connections, ch, s.connections[ch].addresses);
      }
    }
  }

  lemma TokensAdd(t: TokenTable, conns: Conns, ch: Handle, m: ConnectionMeta)
    requires TokensComplete(t, conns) && ch !in conns && m.resetToken.None?
    ensures TokensComplete(t, conns[ch := m])
  {
    hide HasToken;
  }

  lemma ConnectCompleteIff(c: Config, s: State, ch: Handle, remote: SocketAddr, versionOk: bool, remoteId: Cid,
                           locCid: Cid, setupOk: bool)
    requires Complete(c, s) && ch !in s.connections
    requires ConnectProceeds(c, s, remote, versionOk) ==> (locCid == [] <==> c.cidLen == 0)
    ensures Complete(c, Connect(c, s, ch, remote, versionOk, remoteId, locCid, setupOk)) <==>
            !(c.cidLen == 0 && ConnectProceeds(c, s, remote, versionOk) && setupOk
              && OtherClient(s.connections, ch, remote))
  {
    hide TokensComplete, OtherClient, ConnectProceeds, RemotesComplete;
    if ConnectProceeds(c, s, remote, versionOk) && setupOk {
      var m := NewMeta(remoteId, locCid, None, FourTuple(remote, None), Client);
      TokensAdd(s.index.tokens, s.connections, ch, m);
      if c.cidLen == 0 {
        RemotesAddIff(s.index.incoming, s.index.outgoing, s.connections, ch, m);
      }
    }
  }

  lemma SetupCompleteIff(c: Config, s: State, inc: Incoming, pref: bool, in_: AcceptInputs, ch: Handle,
                         locCid: Cid, prefCid: Cid)
    requires Complete(c, s) && ch !in s.connections && (locCid == [] <==> c.cidLen == 0)
    ensures Complete(c, AcceptSetup(s, inc, pref, in_, ch, locCid, prefCid)) <==>
            !(c.cidLen == 0 && in_.paramsOk && in_.sessionOk
              && (OtherServer(s.connections, ch, inc.addresses)
                  || (!in_.handshakeOk && OtherClient(s.connections, ch, inc.addresses.remote))))
  {
    hide TokensComplete, RemotesComplete, OtherServer, OtherClient, Establish, Drain;
    if in_.paramsOk && in_.sessionOk {
      var p := if pref then Some(prefCid) else None;
      var r := Register(s.index, locCid, ch);
      var x := if pref then Register(r, prefCid, ch) else r;
      var m := NewMeta(inc.dstCid, locCid, p, inc.addresses, Server);
      var t := Establish(s.(index := x), inc, ch, locCid, p);
      EstablishFields(s, x, inc, ch, locCid, p, m, t);
      TokensAdd(s.index.tokens, s.connections, ch, m);
      if in_.handshakeOk {
        if c.cidLen == 0 {
          RemotesAddIff(s.index.incoming, s.index.outgoing, s.connections, ch, m);
        }
      } else {
        FailedHandshake(c, s, ch, m, t);
      }
    }
  }

  /** A connection added and at once drained again. */
  lemma FailedHandshake(c: Config, s: State, ch: Handle, m: ConnectionMeta, t: State)
    requires Complete(c, s) && ch !in s.connections && m.resetToken.None?
    requires t.connections == s.connections[ch := m] && t.index.tokens == s.index.tokens
    requires t.index.outgoing == s.index.outgoing
    requires t.index.incoming == if c.cidLen == 0 then s.index.incoming[m.addresses := ch] else s.index.incoming
    ensures Complete(c, Drain(t, ch)) <==>
            !(c.cidLen == 0 && (OtherServer(s.connections, ch, m.addresses)
                                || OtherClient(s.connections, ch, m.addresses.remote)))
  {
    hide TokensComplete, RemotesComplete, OtherServer, OtherClient;
    assert s.connections[ch := m] - {ch} == s.connections;
    assert s.index.incoming[m.addresses := ch] - {m.addresses} == s.index.incoming - {m.addresses};
    assert s.connections - {ch} == s.connections;
    if c.cidLen == 0 {
      RemotesDropIff(s.index.incoming, s.index.outgoing, s.connections, ch, m.addresses);
    }
  }

  lemma DrawnEmptyIff(c: Config, ids: map<Cid, Handle>, cids: seq<Cid>, i: nat)
    requires Declared(c) && Drawn(c, ids, cids) && i < |cids|
    ensures cids[i] == [] <==> c.cidLen == 0
  {
  }

  lemma AcceptCompleteIff(c: Config, s: State, e: Event)
    requires Declared(c) && Complete(c, s) && e.AcceptEvent? && Enabled(c, s, e)
    ensures Complete(c, Step(c, s, e)) <==> !Clashes(c, s, e)
  {
    hide Complete, CidsExhausted, AcceptSetup, OtherServer, OtherClient, Drawn;
    var u := DropBuffer(s, e.idx);
    var config := AcceptConfig(s, e.config);
    AlikeComplete(c, s, u);
    if config.None? {
    } else if !AcceptProceeds(c, s, config, e.inputs) {
      AlikeComplete(c, s, Step(c, s, e));
    } else {
      DrawnEmptyIff(c, s.index.ids, AcceptDraws(config.value, e.inputs, e.locCid, e.prefCid), 0);
      SetupCompleteIff(c, u, s.held[e.idx], config.value.hasPreferredAddress, e.inputs, e.ch, e.locCid, e.prefCid);
    }
  }

  /** A step keeps these tables complete exactly when it is not such a clash. */
  lemma StepCompleteIff(c: Config, s: State, e: Event)
    requires Declared(c) && Complete(c, s) && Enabled(c, s, e)
    ensures Complete(c, Step(c, s, e)) <==> !Clashes(c, s, e)
  {
    hide Complete, Connect, Accept, Receive, Drain, IssueCids, RetireCid, OtherServer, OtherClient, OtherToken,
         Declared, ConnectProceeds, AcceptProceeds;
    match e
    case ConnectEvent(ch, remote, versionOk, remoteId, locCid, setupOk) =>
      if ConnectProceeds(c, s, remote, versionOk) {
        DrawnEmptyIff(c, s.index.ids, [locCid], 0);
      }
      ConnectCompleteIff(c, s, ch, remote, versionOk, remoteId, locCid, setupOk);
    case DatagramEvent(now, a, p, first, vacant, cidValid) =>
      ReceiveAlike(c, s, now, a, p, first, vacant, cidValid);
      AlikeComplete(c, s, Step(c, s, e));
    case AcceptEvent(idx, config, inputs, ch, locCid, prefCid) => AcceptCompleteIff(c, s, e);
    case GiveUpEvent(idx) => AlikeComplete(c, s, Step(c, s, e));
    case NeedIdentifiersEvent(ch, cids) =>
      IssueAllAlike(s, ch, cids);
      AlikeComplete(c, s, Step(c, s, e));
    case ResetTokenEvent(ch, remote, token) => TokenCompleteIff(c, s, ch, remote, token);
    case RetireCidEvent(ch, sequence, more, locCid) =>
      RetireAlike(s, ch, sequence, more, locCid);
      AlikeComplete(c, s, Step(c, s, e));
    case DrainedEvent(ch) => DrainCompleteIff(c, s, ch);
    case SetServerConfigEvent(config) => AlikeComplete(c, s, Step(c, s, e));
  }

  lemma TokenCompleteIff(c: Config, s: State, ch: Handle, remote: SocketAddr, token: Token)
    requires Complete(c, s) && ch in s.connections
    ensures Complete(c, SetResetToken(s, ch, remote, token)) <==> !OtherToken(s.connections, ch, remote, token)
  {
    hide TokensComplete, OtherToken, InsertToken, DropToken;
    var m := s.connections[ch].(resetToken := Some((remote, token)));
    TokenSetIff(s.index.tokens, s.connections, ch, remote, token, m);
  }

  ghost predicate RunClashes(c: Config, s: State, es: seq<Event>)
    requires IsRun(c, s, es)
    decreases |es|
  {
    es != [] && (Clashes(c, s, es[0]) || RunClashes(c, Step(c, s, es[0]), es[1..]))
  }

  ghost predicate AlwaysComplete(c: Config, s: State, es: seq<Event>)
    requires IsRun(c, s, es)
    decreases |es|
  {
    Complete(c, s) && (es == [] || AlwaysComplete(c, Step(c, s, es[0]), es[1..]))
  }

  /** Over every run, early returns or not, these tables are complete throughout if and only if no
      step of it is a clash. */
  lemma {:induction false} RunCompleteIff(c: Config, s: State, es: seq<Event>)
    requires Declared(c) && Complete(c, s) && IsRun(c, s, es)
    ensures AlwaysComplete(c, s, es) <==> !RunClashes(c, s, es)
    decreases |es|
  {
    hide Complete, Step, Clashes, Enabled, Declared;
    if es != [] {
      StepCompleteIff(c, s, es[0]);
      var t := Step(c, s, es[0]);
      if Clashes(c, s, es[0]) {
        assert !Complete(c, t);
        NotAlwaysComplete(c, t, es[1..]);
      } else {
        RunCompleteIff(c, t, es[1..]);
      }
    }
  }

  lemma NotAlwaysComplete(c: Config, s: State, es: seq<Event>)
    requires IsRun(c, s, es) && !Complete(c, s)
    ensures !AlwaysComplete(c, s, es)
  {
  }

  lemma {:induction false} EndComplete(c: Config, s: State, es: seq<Event>)
    requires IsRun(c, s, es) && AlwaysComplete(c, s, es)
    ensures Complete(c, After(c, s, es))
    decreases |es|
  {
    hide Complete, Step, Enabled;
    if es != [] {
      EndComplete(c, Step(c, s, es[0]), es[1..]);
    }
  }

  // ----- the endpoint over a whole run -----

  ghost predicate TokensMirror(s: State) {
    forall r, k, ch ::
      HasToken(s.index.tokens, r, k, ch) <==> ch in s.connections && s.connections[ch].resetToken == Some((r, k))
  }

  predicate ServerAt(s: State, a: FourTuple, ch: Handle) {
    ch in s.connections && s.connections[ch].side == Server && s.connections[ch].addresses == a
  }

  predicate ClientTo(s: State, r: SocketAddr, ch: Handle) {
    ch in s.connections && s.connections[ch].side == Client && s.connections[ch].addresses.remote == r
  }

  ghost predicate RemotesMirror(c: Config, s: State) {
    && (forall a, ch :: a in s.index.incoming && s.index.incoming[a] == ch <==> ServerAt(s, a, ch) && c.cidLen == 0)
    && (forall r, ch :: r in s.index.outgoing && s.index.outgoing[r] == ch <==> ClientTo(s, r, ch) && c.cidLen == 0)
  }

  /** Entries that all belong and are all there. */
  lemma SoundAndComplete(c: Config, s: State)
    requires Inv(s) && Complete(c, s)
    ensures TokensMirror(s) && RemotesMirror(c, s)
  {
    hide IdsInv, InitialInv, BuffersInv;
  }

  /** From an empty endpoint, over every run without an early return: the table of IDs is the
      inverse of who owns them, every lookup leads to something live, the counter is the total of
      the buffers and the ID space was never overdrawn; without a clash the tables by address and
      by token mirror the live connections as well. */
  lemma EndpointOverRuns(c: Config, server: Option<ServerConfig>, es: seq<Event>)
    requires Declared(c) && IsRun(c, EMPTY.(server := server), es) && !RunLeaks(c, EMPTY.(server := server), es)
    ensures var s := After(c, EMPTY.(server := server), es);
            && Inv(s)
            && (forall ch, cid: Cid | cid != [] :: cid in s.index.ids && s.index.ids[cid] == ch <==> Owns(s, ch, cid))
            && (forall a, p | Get(s.index, a, p).Some? :: Live(s, Get(s.index, a, p).value))
            && s.totalBytes == Sum(s.buffers) && |s.index.ids| <= Pow256(c.cidLen)
            && (!RunClashes(c, EMPTY.(server := server), es) ==> TokensMirror(s) && RemotesMirror(c, s))
  {
    hide Step, Enabled, RunClashes, AlwaysComplete, Complete, Get, Owns, Live;
    var s0 := EMPTY.(server := server);
    var s := After(c, s0, es);
    EmptyInv();
    ConfigKeeps(EMPTY, server);
    RunKeepsIff(c, s0, es);
    EndKeeps(c, s0, es);
    forall ch, cid: Cid | cid != [] ensures cid in s.index.ids && s.index.ids[cid] == ch <==> Owns(s, ch, cid) {
      IdsAreInverse(s, ch, cid);
    }
    forall a, p | Get(s.index, a, p).Some? ensures Live(s, Get(s.index, a, p).value) {
      RoutesAreLive(s, a, p);
    }
    StartSized(c, server);
    RunSizedAndCounted(c, s0, es);
    NoUnderflow(c, s);
    StartComplete(c, server);
    RunCompleteIff(c, s0, es);
    if !RunClashes(c, s0, es) {
      EndComplete(c, s0, es);
      SoundAndComplete(c, s);
    }
  }

  lemma StartSized(c: Config, server: Option<ServerConfig>)
    ensures Sized(c, EMPTY.(server := server)) && BuffersInv(EMPTY.(server := server))
  {
  }

  lemma StartComplete(c: Config, server: Option<ServerConfig>)
    ensures Complete(c, EMPTY.(server := server))
  {
  }

  // ----- the clashes, concretely -----

  function ConnectTo(ch: Handle, remote: SocketAddr, cid: Cid): Event {
    ConnectEvent(ch, remote, true, [], cid, true)
  }

  /** `connect` at an endpoint with IDs that the exhaustion check does not look at. */
  lemma Connects(c: Config, s: State, ch: Handle, remote: SocketAddr, cid: Cid)
    requires !Unroutable(remote) && !(1 <= c.cidLen <= 4) && ch !in s.connections
    requires cid in c.space && Acceptable(s.index.ids, cid)
    ensures Enabled(c, s, ConnectTo(ch, remote, cid))
    ensures Step(c, s, ConnectTo(ch, remote, cid))
         == AddConnection(s.(index := Register(s.index, cid, ch)), ch, [], cid, None, FourTuple(remote, None), Client)
  {
    hide Unroutable, AddConnection;
    assert [cid][0] == cid;
  }

  /** Two connections announce the same token from one address, and the first one is drained: the
      second is live, but its token is no longer known. */
  lemma SharedTokenDrained(c: Config, a: Cid, b: Cid, remote: SocketAddr, r: SocketAddr, k: Token)
    requires !Unroutable(remote) && c.cidLen > 4 && a in c.space && b in c.space && a != b && a != [] && b != []
    ensures var es := [ConnectTo(0, remote, a), ConnectTo(1, remote, b), ResetTokenEvent(0, r, k),
                       ResetTokenEvent(1, r, k),
                       DrainedEvent(0)];
            && IsRun(c, EMPTY, es)
            && var s := After(c, EMPTY, es);
               && 1 in s.connections && s.connections[1].resetToken == Some((r, k))
               && forall h :: !HasToken(s.index.tokens, r, k, h)
  {
    hide Enabled, IsRun, After, Step, Unroutable;
    var e1, e2, e3, e4, e5 := ConnectTo(0, remote, a), ConnectTo(1, remote, b), ResetTokenEvent(0, r, k),
                              ResetTokenEvent(1, r, k), DrainedEvent(0);
    Connects(c, EMPTY, 0, remote, a);
    var s1 := Step(c, EMPTY, e1);
    Connects(c, s1, 1, remote, b);
    var s2 := Step(c, s1, e2);
    TokenStep(c, s2, 0, r, k);
    var s3 := Step(c, s2, e3);
    TokenStep(c, s3, 1, r, k);
    var s4 := Step(c, s3, e4);
    DrainStep(c, s4, 0);
    var s5 := Step(c, s4, e5);
    RunEmpty(c, s5);
    assert [e5] + [] == [e5];
    RunPrepend(c, s4, e5, []);
    RunPrepend(c, s3, e4, [e5]);
    RunPrepend(c, s2, e3, [e4] + [e5]);
    RunPrepend(c, s1, e2, [e3] + ([e4] + [e5]));
    RunPrepend(c, EMPTY, e1, [e2] + ([e3] + ([e4] + [e5])));
    assert [e1] + ([e2] + ([e3] + ([e4] + [e5]))) == [e1, e2, e3, e4, e5];
    forall h ensures !HasToken(s5.index.tokens, r, k, h) {
      DroppedToken(s4.index.tokens, s4.connections[0].resetToken, r, k, h);
    }
  }

  lemma TokenStep(c: Config, s: State, ch: Handle, r: SocketAddr, k: Token)
    requires ch in s.connections
    ensures Enabled(c, s, ResetTokenEvent(ch, r, k))
    ensures Step(c, s, ResetTokenEvent(ch, r, k)).connections
         == s.connections[ch := s.connections[ch].(resetToken := Some((r, k)))]
  {
    hide InsertToken, DropToken;
  }

  lemma DrainStep(c: Config, s: State, ch: Handle)
    requires ch in s.connections
    ensures Enabled(c, s, DrainedEvent(ch))
    ensures var t := Step(c, s, DrainedEvent(ch));
            && t.connections == s.connections - {ch}
            && t.index.tokens == DropToken(s.index.tokens, s.connections[ch].resetToken)
            && t.index.outgoing == s.index.outgoing - {s.connections[ch].addresses.remote}
  {
    hide DropToken;
  }

  /** With zero-length IDs, a connection to an address and an accepted one from it: when the latter
      is drained, the former is live but no longer found. */
  lemma SharedRemoteDrained(c: Config, k: ServerConfig, remote: SocketAddr, local: IpAddr, p: Packet)
    requires !Unroutable(remote) && c.cidLen == 0 && [] in c.space && k.maxIncoming > 0 && !k.hasPreferredAddress
    requires p.kind.InitialPacket? && p.len >= MIN_INITIAL_SIZE && |p.dstCid| >= 8
    ensures var es := [ConnectTo(0, remote, []), SetServerConfigEvent(Some(k)),
                       DatagramEvent(0, FourTuple(remote, Some(local)), p, ALL_OK, 0, true),
                       AcceptEvent(0, None, AcceptInputs(false, true, true, true, true), 1, [], []), DrainedEvent(1)];
            && IsRun(c, EMPTY, es)
            && var s := After(c, EMPTY, es);
               && 0 in s.connections && s.connections[0].side == Client && s.connections[0].addresses.remote == remote
               && remote !in s.index.outgoing
  {
    hide Enabled, IsRun, After, Step, Unroutable;
    var from := FourTuple(remote, Some(local));
    var e1, e2, e3, e4, e5 := ConnectTo(0, remote, []), SetServerConfigEvent(Some(k)),
        DatagramEvent(0, from, p, ALL_OK, 0, true),
        AcceptEvent(0, None, AcceptInputs(false, true, true, true, true), 1, [], []), DrainedEvent(1);
    Connects(c, EMPTY, 0, remote, []);
    var s1 := Step(c, EMPTY, e1);
    ConfigStep(c, s1, Some(k));
    var s2 := Step(c, s1, e2);
    Arrives(c, s2, k, from, p);
    var s3 := Step(c, s2, e3);
    ZeroLengthAccept(c, s3, k, from);
    var s4 := Step(c, s3, e4);
    DrainStep(c, s4, 1);
    var s5 := Step(c, s4, e5);
    RunEmpty(c, s5);
    assert [e5] + [] == [e5];
    RunPrepend(c, s4, e5, []);
    RunPrepend(c, s3, e4, [e5]);
    RunPrepend(c, s2, e3, [e4] + [e5]);
    RunPrepend(c, s1, e2, [e3] + ([e4] + [e5]));
    RunPrepend(c, EMPTY, e1, [e2] + ([e3] + ([e4] + [e5])));
    assert [e1] + ([e2] + ([e3] + ([e4] + [e5]))) == [e1, e2, e3, e4, e5];
  }

  lemma ZeroLengthAccept(c: Config, s: State, k: ServerConfig, a: FourTuple)
    requires c.cidLen == 0 && [] in c.space && s.server == Some(k) && !k.hasPreferredAddress
    requires 0 in s.buffers && 0 in s.held && s.held[0].addresses == a && 1 !in s.connections
    ensures var e := AcceptEvent(0, None, AcceptInputs(false, true, true, true, true), 1, [], []);
            && Enabled(c, s, e)
            && var t := Step(c, s, e);
               && t.connections == s.connections[1 := NewMeta(s.held[0].dstCid, [], None, a, Server)]
               && t.index.outgoing == s.index.outgoing
  {
    var none: Cid := [];
    assert [none][0] == [];
  }
}

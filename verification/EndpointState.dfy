/**
 The routing state of an endpoint (src/endpoint.rs) as a value, and what each of its operations
 does to it.

 Cryptography, packet decoding and random choices are inputs of the operations.  `held` records
 the `Incoming` values the endpoint has handed to the application and not yet got back; in the
 source they are owned by the application, which can give each of them back only once.
 */
module EndpointState {
  import opened Prelude
  import opened Coding

  const MIN_INITIAL_SIZE := 1200
  const RESET_TOKEN_SIZE := 16
  const MIN_PADDING_LEN := 5
  const IDEAL_MIN_PADDING_LEN := 25

  type Handle = nat

  datatype Side = Client | Server

  datatype FourTuple = FourTuple(remote: SocketAddr, localIp: Option<IpAddr>)

  /** Where a datagram goes. */
  datatype Route = ToIncoming(idx: nat) | ToConnection(ch: Handle)

  datatype ConnectionMeta = ConnectionMeta(
    initCid: Cid,
    cidsIssued: nat,
    locCids: map<nat, Cid>,
    addresses: FourTuple,
    side: Side,
    resetToken: Option<(SocketAddr, Token)>)

  /** Datagrams buffered for a connection not yet accepted, by their lengths. */
  datatype IncomingBuffer = IncomingBuffer(datagrams: seq<nat>, totalBytes: nat)

  datatype ServerConfig = ServerConfig(
    incomingBufferSize: nat,
    incomingBufferSizeTotal: nat,
    maxIncoming: nat,
    hasPreferredAddress: bool)

  /** A connection attempt handed to the application; `held` files it under its buffer's slot. */
  datatype Incoming = Incoming(dstCid: Cid, addresses: FourTuple, mayRetry: bool)

  type TokenTable = map<SocketAddr, map<Token, Handle>>

  datatype Index = Index(
    initial: map<Cid, Route>,
    ids: map<Cid, Handle>,
    incoming: map<FourTuple, Handle>,
    outgoing: map<SocketAddr, Handle>,
    tokens: TokenTable)

  datatype State = State(
    index: Index,
    connections: map<Handle, ConnectionMeta>,
    buffers: map<nat, IncomingBuffer>,
    totalBytes: int,
    held: map<nat, Incoming>,
    server: Option<ServerConfig>,
    lastReset: Option<Time>)

  /** What does not change over an endpoint's life.  `space` is the set of IDs its generator can
      produce, which need not be all those of the length it declares. */
  datatype Config = Config(cidLen: nat, space: set<Cid>, minResetInterval: nat)

  const EMPTY := State(Index(map[], map[], map[], map[], map[]), map[], map[], 0, map[], None, None)

  // ----- the index -----

  function InsertInitial(x: Index, cid: Cid, to: Route): Index {
    if cid == [] then x else x.(initial := x.initial[cid := to])
  }

  function RemoveInitial(x: Index, cid: Cid): Index {
    if cid == [] then x else x.(initial := x.initial - {cid})
  }

  function InsertConn(x: Index, addresses: FourTuple, cid: Cid, ch: Handle, side: Side): Index {
    if cid != [] then x.(ids := x.ids[cid := ch])
    else if side == Server then x.(incoming := x.incoming[addresses := ch])
    else x.(outgoing := x.outgoing[addresses.remote := ch])
  }

  function InsertToken(t: TokenTable, remote: SocketAddr, token: Token, ch: Handle): TokenTable {
    var inner: map<Token, Handle> := if remote in t then t[remote] else map[];
    t[remote := inner[token := ch]]
  }

  function RemoveToken(t: TokenTable, remote: SocketAddr, token: Token): TokenTable {
    if remote !in t then t
    else if t[remote] - {token} == map[] then t - {remote}
    else t[remote := t[remote] - {token}]
  }

  function DropToken(t: TokenTable, entry: Option<(SocketAddr, Token)>): TokenTable {
    if entry.None? then t else RemoveToken(t, entry.value.0, entry.value.1)
  }

  /** Forgets everything about a connection. */
  function RemoveConn(x: Index, conn: ConnectionMeta): Index {
    Index(
      if conn.side == Server then RemoveInitial(x, conn.initCid).initial else x.initial,
      x.ids - conn.locCids.Values,
      x.incoming - {conn.addresses},
      x.outgoing - {conn.addresses.remote},
      DropToken(x.tokens, conn.resetToken))
  }

  // ----- packets -----

  datatype Kind = InitialPacket(hasToken: bool) | ZeroRttPacket | OtherLongPacket | ShortPacket

  /** A partially decoded packet: `tail` is its last 16 octets, if it has that many. */
  datatype Packet = Packet(dstCid: Cid, kind: Kind, len: nat, tail: Option<Token>)

  /** Finds the connection or buffer a packet belongs to. */
  function Get(x: Index, addresses: FourTuple, p: Packet): Option<Route> {
    if p.dstCid != [] && p.dstCid in x.ids then Some(ToConnection(x.ids[p.dstCid]))
    else if (p.kind.InitialPacket? || p.kind.ZeroRttPacket?) && p.dstCid in x.initial then Some(x.initial[p.dstCid])
    else if p.dstCid == [] && addresses in x.incoming then Some(ToConnection(x.incoming[addresses]))
    else if p.dstCid == [] && addresses.remote in x.outgoing then Some(ToConnection(x.outgoing[addresses.remote]))
    else if p.tail.Some? && addresses.remote in x.tokens && p.tail.value in x.tokens[addresses.remote] then
      Some(ToConnection(x.tokens[addresses.remote][p.tail.value]))
    else None
  }

  // ----- connection IDs -----

  /** Whether the generator's loop stops at `cid`. */
  predicate Acceptable(ids: map<Cid, Handle>, cid: Cid) {
    cid == [] || cid !in ids
  }

  function Register(x: Index, cid: Cid, ch: Handle): Index {
    if cid == [] then x else x.(ids := x.ids[cid := ch])
  }

  /** Less than a quarter of a CID space of at most four octets is left. */
  predicate CidsExhausted(cidLen: nat, inUse: nat) {
    1 <= cidLen <= 4 && Pow256(cidLen) - inUse < Pow256(cidLen) / 4
  }

  /** Issues one more ID to a live connection. */
  function IssueCid(s: State, ch: Handle, cid: Cid): State
    requires ch in s.connections
  {
    var m := s.connections[ch];
    s.(index := Register(s.index, cid, ch),
       connections := s.connections[ch := m.(cidsIssued := m.cidsIssued + 1,
                                             locCids := m.locCids[m.cidsIssued := cid])])
  }

  function IssueCids(s: State, ch: Handle, cids: seq<Cid>): (r: State)
    requires ch in s.connections
    ensures ch in r.connections
  {
    if cids == [] then s else IssueCid(IssueCids(s, ch, cids[..|cids| - 1]), ch, cids[|cids| - 1])
  }

  function NewMeta(initCid: Cid, locCid: Cid, prefCid: Option<Cid>, addresses: FourTuple, side: Side): ConnectionMeta {
    if prefCid.None? then ConnectionMeta(initCid, 1, map[0 := locCid], addresses, side, None)
    else ConnectionMeta(initCid, 2, map[0 := locCid, 1 := prefCid.value], addresses, side, None)
  }

  function AddConnection(s: State, ch: Handle, initCid: Cid, locCid: Cid, prefCid: Option<Cid>,
                         addresses: FourTuple, side: Side): State
  {
    s.(index := InsertConn(s.index, addresses, locCid, ch, side),
       connections := s.connections[ch := NewMeta(initCid, locCid, prefCid, addresses, side)])
  }

  // ----- operations -----

  predicate Unroutable(remote: SocketAddr) {
    remote.port == 0 || forall i | 0 <= i < |remote.ip.octets| :: remote.ip.octets[i] == 0
  }

  /** `connect` gets as far as drawing an ID. */
  predicate ConnectProceeds(c: Config, s: State, remote: SocketAddr, versionOk: bool) {
    !CidsExhausted(c.cidLen, |s.index.ids|) && !Unroutable(remote) && versionOk
  }

  /** `connect`: `ch` is the vacant slab key, `locCid` the ID drawn for it, and `setupOk` tells
      whether transport parameters and TLS session could be built. */
  function Connect(c: Config, s: State, ch: Handle, remote: SocketAddr, versionOk: bool, remoteId: Cid,
                   locCid: Cid, setupOk: bool): State
  {
    if !ConnectProceeds(c, s, remote, versionOk) then s
    else
      var s1 := s.(index := Register(s.index, locCid, ch));
      if !setupOk then s1
      else AddConnection(s1, ch, remoteId, locCid, None, FourTuple(remote, None), Client)
  }

  /** Removes a buffer from the slab and its octets from the global count. */
  function DropBuffer(s: State, idx: nat): State
    requires idx in s.buffers
  {
    s.(buffers := s.buffers - {idx}, totalBytes := s.totalBytes - s.buffers[idx].totalBytes, held := s.held - {idx})
  }

  /** `refuse`, `ignore` and a successful `retry`. */
  function CleanUpIncoming(s: State, idx: nat): State
    requires idx in s.buffers && idx in s.held
  {
    DropBuffer(s.(index := RemoveInitial(s.index, s.held[idx].dstCid)), idx)
  }

  function Drain(s: State, ch: Handle): State {
    if ch !in s.connections then s
    else s.(index := RemoveConn(s.index, s.connections[ch]), connections := s.connections - {ch})
  }

  /** Adds the connection of an accepted attempt. */
  function Establish(s: State, inc: Incoming, ch: Handle, locCid: Cid, prefCid: Option<Cid>): State {
    var s1 := AddConnection(s, ch, inc.dstCid, locCid, prefCid, inc.addresses, Server);
    s1.(index := InsertInitial(s1.index, inc.dstCid, ToConnection(ch)))
  }

  /** The outcomes `accept` depends on: the clock, decryption, transport parameters, TLS session
      and the first packet of the handshake. */
  datatype AcceptInputs = AcceptInputs(stale: bool, decrypts: bool, paramsOk: bool, sessionOk: bool, handshakeOk: bool)

  /** The configuration given to `accept`, or else the endpoint's. */
  function AcceptConfig(s: State, override_: Option<ServerConfig>): Option<ServerConfig> {
    if override_.Some? then override_ else s.server
  }

  /** `accept` gets as far as drawing IDs. */
  predicate AcceptProceeds(c: Config, s: State, config: Option<ServerConfig>, in_: AcceptInputs) {
    config.Some? && !in_.stale && !CidsExhausted(c.cidLen, |s.index.ids|) && in_.decrypts
  }

  /** The IDs `accept` draws: a second one for the preferred address, once the transport
      parameters are built. */
  function AcceptDraws(config: ServerConfig, in_: AcceptInputs, locCid: Cid, prefCid: Cid): seq<Cid> {
    if config.hasPreferredAddress && in_.paramsOk then [locCid, prefCid] else [locCid]
  }

  /** The part of `accept` that draws IDs, sets up the session and adds the connection. */
  function AcceptSetup(s: State, inc: Incoming, hasPref: bool, in_: AcceptInputs, ch: Handle, locCid: Cid,
                       prefCid: Cid): State {
    var s1 := s.(index := Register(s.index, locCid, ch));
    if !in_.paramsOk then s1
    else
      var s2 := if hasPref then s1.(index := Register(s1.index, prefCid, ch)) else s1;
      if !in_.sessionOk then s2
      else
        var s3 := Establish(s2, inc, ch, locCid, if hasPref then Some(prefCid) else None);
        if in_.handshakeOk then s3 else Drain(s3, ch)
  }

  function Accept(c: Config, s: State, idx: nat, override_: Option<ServerConfig>, in_: AcceptInputs,
                  ch: Handle, locCid: Cid, prefCid: Cid): State
    requires idx in s.buffers && idx in s.held
  {
    var inc := s.held[idx];
    var s1 := DropBuffer(s, idx);
    var config := AcceptConfig(s, override_);
    if config.None? then s1
    else if !AcceptProceeds(c, s, config, in_) then
      s1.(index := RemoveInitial(s1.index, inc.dstCid))
    else AcceptSetup(s1, inc, config.value.hasPreferredAddress, in_, ch, locCid, prefCid)
  }

  function SetResetToken(s: State, ch: Handle, remote: SocketAddr, token: Token): State
    requires ch in s.connections
  {
    var m := s.connections[ch];
    s.(index := s.index.(tokens := InsertToken(DropToken(s.index.tokens, m.resetToken), remote, token, ch)),
       connections := s.connections[ch := m.(resetToken := Some((remote, token)))])
  }

  /** The peer retired sequence number `seq_`; `more` tells whether it gets another ID for it. */
  function RetireCid(s: State, ch: Handle, seq_: nat, more: bool, cid: Cid): State
    requires ch in s.connections
  {
    var m := s.connections[ch];
    if seq_ !in m.locCids then s
    else
      var s1 := Forget(s, ch, seq_);
      if more then IssueCid(s1, ch, cid) else s1
  }

  function Forget(s: State, ch: Handle, seq_: nat): State
    requires ch in s.connections && seq_ in s.connections[ch].locCids
  {
    var m := s.connections[ch];
    s.(index := s.index.(ids := s.index.ids - {m.locCids[seq_]}),
       connections := s.connections[ch := m.(locCids := m.locCids - {seq_})])
  }

  // ----- datagrams -----

  /** Outcomes `handle_first_packet` depends on: keys, header protection, retry token. */
  datatype FirstPacketInputs = FirstPacketInputs(keysOk: bool, decodes: bool, tokenOk: bool, mayRetry: bool)

  /** Whether an Initial packet is refused whatever its contents, given the numbers of IDs in use
      and of attempts pending. */
  predicate RefusedEarly(c: Config, inUse: nat, pending: nat, config: ServerConfig, p: Packet)
    requires p.kind.InitialPacket?
  {
    || CidsExhausted(c.cidLen, inUse)
    || pending >= config.maxIncoming
    || (|p.dstCid| < 8 && (!p.kind.hasToken || |p.dstCid| != c.cidLen))
  }

  /** Whether a stateless reset answers a datagram of `len` octets at `now`. */
  predicate SendsReset(c: Config, s: State, now: Time, len: nat) {
    && (s.lastReset.None? || s.lastReset.value + c.minResetInterval <= now)
    && len > RESET_TOKEN_SIZE + MIN_PADDING_LEN
  }

  function Reset(c: Config, s: State, now: Time, len: nat): State {
    if SendsReset(c, s, now, len) then s.(lastReset := Some(now)) else s
  }

  /** An Initial packet that belongs to nothing known; `idx` is the vacant buffer slot. */
  function FirstPacket(c: Config, s: State, now: Time, addresses: FourTuple, p: Packet,
                       in_: FirstPacketInputs, idx: nat): State
    requires p.kind.InitialPacket?
  {
    if s.server.None? then Reset(c, s, now, p.len)
    else if p.len < MIN_INITIAL_SIZE || !in_.keysOk || RefusedEarly(c, |s.index.ids|, |s.buffers|, s.server.value, p)
            || !in_.decodes || !in_.tokenOk then s
    else
      s.(buffers := s.buffers[idx := IncomingBuffer([], 0)],
         index := InsertInitial(s.index, p.dstCid, ToIncoming(idx)),
         held := s.held[idx := Incoming(p.dstCid, addresses, in_.mayRetry)])
  }

  /** Buffers a datagram for a connection not yet accepted, if the limits allow it. */
  function BufferDatagram(s: State, idx: nat, len: nat): State
    requires idx in s.buffers
  {
    var b := s.buffers[idx];
    if s.server.Some? && b.totalBytes + len <= s.server.value.incomingBufferSize
       && s.totalBytes + len <= s.server.value.incomingBufferSizeTotal then
      s.(buffers := s.buffers[idx := IncomingBuffer(b.datagrams + [len], b.totalBytes + len)],
         totalBytes := s.totalBytes + len)
    else s
  }

  /** A packet that could be decoded.  An index entry without a buffer would make the source
      panic; the model leaves the state alone there. */
  function Receive(c: Config, s: State, now: Time, addresses: FourTuple, p: Packet, in_: FirstPacketInputs,
                   idx: nat, cidValid: bool): State
  {
    match Get(s.index, addresses, p)
    case Some(ToConnection(_)) => s
    case Some(ToIncoming(i)) => if i in s.buffers then BufferDatagram(s, i, p.len) else s
    case None =>
      if p.kind.InitialPacket? then FirstPacket(c, s, now, addresses, p, in_, idx)
      else if !p.kind.ShortPacket? || !cidValid || p.dstCid == [] then s
      else Reset(c, s, now, p.len)
  }

  // ----- runs -----

  datatype Event =
    | ConnectEvent(ch: Handle, remote: SocketAddr, versionOk: bool, remoteId: Cid, locCid: Cid, setupOk: bool)
    | DatagramEvent(now: Time, addresses: FourTuple, packet: Packet, first: FirstPacketInputs, vacant: nat,
                    cidValid: bool)
    | AcceptEvent(idx: nat, config: Option<ServerConfig>, inputs: AcceptInputs, ch: Handle, locCid: Cid, prefCid: Cid)
    | GiveUpEvent(idx: nat)
    | NeedIdentifiersEvent(ch: Handle, cids: seq<Cid>)
    | ResetTokenEvent(ch: Handle, remote: SocketAddr, token: Token)
    | RetireCidEvent(ch: Handle, sequence: nat, more: bool, locCid: Cid)
    | DrainedEvent(ch: Handle)
    | SetServerConfigEvent(config: Option<ServerConfig>)

  /** IDs drawn one after the other, each accepted by the generator's loop. */
  predicate Drawn(c: Config, ids: map<Cid, Handle>, cids: seq<Cid>) {
    && (forall i | 0 <= i < |cids| :: cids[i] in c.space && Acceptable(ids, cids[i]))
    && (forall i, j | 0 <= i < j < |cids| :: cids[i] != [] ==> cids[i] != cids[j])
  }

  /** What callers and the slab guarantee of the arguments: handles of live connections, each
      `Incoming` given back once, vacant slab keys vacant, IDs as the generator's loop leaves them. */
  predicate Enabled(c: Config, s: State, e: Event) {
    match e
    case ConnectEvent(ch, remote, versionOk, _, locCid, _) =>
      ch !in s.connections && (ConnectProceeds(c, s, remote, versionOk) ==> Drawn(c, s.index.ids, [locCid]))
    case DatagramEvent(_, _, _, _, vacant, _) => vacant !in s.buffers
    case AcceptEvent(idx, override_, inputs, ch, locCid, prefCid) =>
      && idx in s.held && idx in s.buffers && ch !in s.connections
      && var config := AcceptConfig(s, override_);
         AcceptProceeds(c, s, config, inputs) ==>
           Drawn(c, s.index.ids, AcceptDraws(config.value, inputs, locCid, prefCid))
    case GiveUpEvent(idx) => idx in s.held && idx in s.buffers
    case NeedIdentifiersEvent(ch, cids) => ch in s.connections && Drawn(c, s.index.ids, cids)
    case ResetTokenEvent(ch, _, _) => ch in s.connections
    case RetireCidEvent(ch, sequence, more, locCid) =>
      && ch in s.connections
      && (sequence in s.connections[ch].locCids && more ==>
            Drawn(c, s.index.ids - {s.connections[ch].locCids[sequence]}, [locCid]))
    case DrainedEvent(_) => true
    case SetServerConfigEvent(_) => true
  }

  function Step(c: Config, s: State, e: Event): State
    requires Enabled(c, s, e)
  {
    match e
    case ConnectEvent(ch, remote, versionOk, remoteId, locCid, setupOk) =>
      Connect(c, s, ch, remote, versionOk, remoteId, locCid, setupOk)
    case DatagramEvent(now, addresses, p, first, vacant, cidValid) =>
      Receive(c, s, now, addresses, p, first, vacant, cidValid)
    case AcceptEvent(idx, config, inputs, ch, locCid, prefCid) =>
      Accept(c, s, idx, config, inputs, ch, locCid, prefCid)
    case GiveUpEvent(idx) => CleanUpIncoming(s, idx)
    case NeedIdentifiersEvent(ch, cids) => IssueCids(s, ch, cids)
    case ResetTokenEvent(ch, remote, token) => SetResetToken(s, ch, remote, token)
    case RetireCidEvent(ch, sequence, more, locCid) => RetireCid(s, ch, sequence, more, locCid)
    case DrainedEvent(ch) => Drain(s, ch)
    case SetServerConfigEvent(config) => s.(server := config)
  }
}

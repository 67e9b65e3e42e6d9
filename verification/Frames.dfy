/**
 QUIC frames (src/frame.rs): the decoder behind `Iter`, the encoders, and the round trip of
 whole packet payloads.

 The bodies of the NAT-traversal extension frames are not modelled.  Everything is proved for
 an arbitrary codec of theirs, `ext`, which says how many octets such a body takes.
 */
module Frames {
  import opened Prelude
  import opened Coding
  import opened AckFrames
  import opened RangeSet
  import RemoteCids

  const MAX_CID_SIZE := 20
  const RESET_TOKEN_SIZE := 16

  datatype Frame =
    | Padding
    | Ping
    | Ack(largest: nat, delay: nat, additional: seq<byte>, ecn: Option<EcnCounts>)
    | ResetStream(id: nat, code: nat, finalOffset: nat)
    | StopSending(id: nat, code: nat)
    | Crypto(offset: nat, data: seq<byte>)
    | NewToken(token: seq<byte>)
    | Stream(id: nat, offset: nat, fin: bool, data: seq<byte>)
    | MaxData(limit: nat)
    | MaxStreamData(id: nat, limit: nat)
    | MaxStreams(bidi: bool, limit: nat)
    | DataBlocked(limit: nat)
    | StreamDataBlocked(id: nat, limit: nat)
    | StreamsBlocked(bidi: bool, limit: nat)
    | NewConnectionId(issued: RemoteCids.NewConnectionId)
    | RetireConnectionId(sequence: nat)
    | PathChallenge(challenge: nat)
    | PathResponse(challenge: nat)
    | ConnectionClose(code: nat, frameType: Option<nat>, reason: seq<byte>)
    | ApplicationClose(code: nat, reason: seq<byte>)
    | Datagram(data: seq<byte>)
    | AckFrequency(sequence: nat, threshold: nat, maxDelay: nat, reordering: nat)
    | ImmediateAck
    | HandshakeDone
    | ObservedAddress(sequence: nat, address: SocketAddr)
    | Extension(ty: nat, body: seq<byte>)

  /** Octets taken by the body of an extension frame of the given type at the front of the
      given input, or None if it does not decode. */
  type ExtCodec = (nat, seq<byte>) -> Option<nat>

  predicate IsExtension(ty: nat) {
    0x3d7e90 <= ty <= 0x3d7e98
  }

  type Decoded = Result<(Frame, seq<byte>), IterErr>

  // ----- field readers -----

  /** Reads `n` variable-length integers. */
  function ReadVars(b: seq<byte>, n: nat): (r: Read<seq<nat>>)
    ensures r.Got? ==> |r.value| == n
  {
    if n == 0 then Got([], b) else
    match ReadVar(b)
    case Short => Short
    case Got(x, rest) =>
      match ReadVars(rest, n - 1)
      case Short => Short
      case Got(xs, rest') => Got([x] + xs, rest')
  }

  /** Reads a length and that many octets. */
  function TakeLen(b: seq<byte>): Read<seq<byte>> {
    match ReadVar(b)
    case Short => Short
    case Got(n, rest) => ReadBytes(rest, n)
  }

  // ----- the decoder -----

  /** Reads one frame off the front of `b`. */
  function TryNext(ext: ExtCodec, b: seq<byte>): Decoded {
    match ReadVar(b)
    case Short => Err(UnexpectedEnd)
    case Got(ty, rest) => ReadBody(ext, ty, rest)
  }

  /** Reads the rest of a frame of type `ty`. */
  function ReadBody(ext: ExtCodec, ty: nat, b: seq<byte>): Decoded {
    if ty in {0x00, 0x01, 0x1e, 0x1f} then Ok((Bare(ty), b))
    else if IsNumeric(ty) then ReadNumeric(ty, b)
    else if ty in {0x02, 0x03} then ReadAck(ty, b)
    else if ty in {0x06, 0x07, 0x1c, 0x1d} then ReadWithData(ty, b)
    else if ty == 0x18 then ReadNewConnectionId(b)
    else if ty in {0x1a, 0x1b} then ReadPath(ty, b)
    else if ty in {0x9f81a6, 0x9f81a7} then ReadObserved(ty == 0x9f81a7, b)
    else if IsExtension(ty) then ReadExtension(ext, ty, b)
    else if 0x08 <= ty <= 0x0f then ReadStream(ty, b)
    else if ty in {0x30, 0x31} then ReadDatagram(ty, b)
    else Err(InvalidFrameId)
  }

  function Bare(ty: nat): Frame {
    if ty == 0x00 then Padding else if ty == 0x01 then Ping else if ty == 0x1e then HandshakeDone else ImmediateAck
  }

  /** Frame types whose body is a fixed number of variable-length integers. */
  predicate IsNumeric(ty: nat) {
    ty in {0x04, 0x05, 0x10, 0x11, 0x12, 0x13, 0x14, 0x15, 0x16, 0x17, 0x19, 0xaf}
  }

  function NumericArity(ty: nat): nat
    requires IsNumeric(ty)
  {
    if ty == 0xaf then 4 else if ty == 0x04 then 3 else if ty in {0x05, 0x11, 0x15} then 2 else 1
  }

  function NumericFrame(ty: nat, v: seq<nat>): Frame
    requires IsNumeric(ty) && |v| == NumericArity(ty)
  {
    match ty
    case 0x04 => ResetStream(v[0], v[1], v[2])
    case 0x05 => StopSending(v[0], v[1])
    case 0x10 => MaxData(v[0])
    case 0x11 => MaxStreamData(v[0], v[1])
    case 0x12 => MaxStreams(true, v[0])
    case 0x13 => MaxStreams(false, v[0])
    case 0x14 => DataBlocked(v[0])
    case 0x15 => StreamDataBlocked(v[0], v[1])
    case 0x16 => StreamsBlocked(true, v[0])
    case 0x17 => StreamsBlocked(false, v[0])
    case 0x19 => RetireConnectionId(v[0])
    case _ => AckFrequency(v[0], v[1], v[2], v[3])
  }

  function ReadNumeric(ty: nat, b: seq<byte>): Decoded
    requires IsNumeric(ty)
  {
    match ReadVars(b, NumericArity(ty))
    case Short => Err(UnexpectedEnd)
    case Got(v, rest) => Ok((NumericFrame(ty, v), rest))
  }

  function ReadAck(ty: nat, b: seq<byte>): Decoded {
    match ReadVars(b, 3)
    case Short => Err(UnexpectedEnd)
    case Got(v, rest) =>
      match Scan(rest, v[0], v[2])
      case Err(e) => Err(e)
      case Ok(after) =>
        ScanLeavesSuffix(rest, v[0], v[2]);
        var additional := rest[..|rest| - |after|];
        if ty != 0x03 then Ok((Ack(v[0], v[1], additional, None), after)) else
        match ReadVars(after, 3)
        case Short => Err(UnexpectedEnd)
        case Got(e, after') => Ok((Ack(v[0], v[1], additional, Some(EcnCounts(e[0], e[1], e[2]))), after'))
  }

  /** CRYPTO, NEW_TOKEN, CONNECTION_CLOSE and APPLICATION_CLOSE: integers, then counted octets. */
  function ReadWithData(ty: nat, b: seq<byte>): Decoded {
    match ReadVars(b, DataArity(ty))
    case Short => Err(UnexpectedEnd)
    case Got(v, rest) =>
      match TakeLen(rest)
      case Short => Err(UnexpectedEnd)
      case Got(data, rest') => Ok((DataFrame(ty, v, data), rest'))
  }

  function DataArity(ty: nat): nat {
    if ty == 0x07 then 0 else if ty == 0x1c then 2 else 1
  }

  function DataFrame(ty: nat, v: seq<nat>, data: seq<byte>): Frame
    requires |v| == DataArity(ty)
  {
    match ty
    case 0x06 => Crypto(v[0], data)
    case 0x07 => NewToken(data)
    case 0x1c => ConnectionClose(v[0], if v[1] == 0 then None else Some(v[1]), data)
    case _ => ApplicationClose(v[0], data)
  }

  function ReadNewConnectionId(b: seq<byte>): Decoded {
    match ReadVars(b, 2)
    case Short => Err(UnexpectedEnd)
    case Got(v, rest) =>
      if v[1] > v[0] then Err(Malformed) else
      match ReadFixed(rest, 1)
      case Short => Err(UnexpectedEnd)
      case Got(length, rest1) =>
        if length > MAX_CID_SIZE || length == 0 then Err(Malformed) else
        match ReadBytes(rest1, length)
        case Short => Err(UnexpectedEnd)
        case Got(id, rest2) =>
          match ReadBytes(rest2, RESET_TOKEN_SIZE)
          case Short => Err(UnexpectedEnd)
          case Got(token, rest3) =>
            Ok((NewConnectionId(RemoteCids.NewConnectionId(v[0], v[1], id, token)), rest3))
  }

  function ReadPath(ty: nat, b: seq<byte>): Decoded {
    match ReadFixed(b, 8)
    case Short => Err(UnexpectedEnd)
    case Got(x, rest) => Ok((if ty == 0x1a then PathChallenge(x) else PathResponse(x), rest))
  }

  function ReadObserved(ipv6: bool, b: seq<byte>): Decoded {
    match ReadVar(b)
    case Short => Err(UnexpectedEnd)
    case Got(sequence, rest) =>
      var n := if ipv6 then 16 else 4;
      match ReadBytes(rest, n)
      case Short => Err(UnexpectedEnd)
      case Got(octets, rest1) =>
        match ReadFixed(rest1, 2)
        case Short => Err(UnexpectedEnd)
        case Got(port, rest2) =>
          Ok((ObservedAddress(sequence, SocketAddr(if ipv6 then V6(octets) else V4(octets), port)), rest2))
  }

  function ReadExtension(ext: ExtCodec, ty: nat, b: seq<byte>): Decoded {
    match ext(ty, b)
    case Some(n) => if n <= |b| then Ok((Extension(ty, b[..n]), b[n..])) else Err(UnexpectedEnd)
    case None => Err(UnexpectedEnd)
  }

  function ReadStream(ty: nat, b: seq<byte>): Decoded {
    match ReadVars(b, if ty / 4 % 2 == 1 then 2 else 1)
    case Short => Err(UnexpectedEnd)
    case Got(v, rest) =>
      var offset := if ty / 4 % 2 == 1 then v[1] else 0;
      var data := if ty / 2 % 2 == 1 then TakeLen(rest) else Got(rest, []);
      match data
      case Short => Err(UnexpectedEnd)
      case Got(d, rest') => Ok((Stream(v[0], offset, ty % 2 == 1, d), rest'))
  }

  function ReadDatagram(ty: nat, b: seq<byte>): Decoded {
    var data := if ty % 2 == 1 then TakeLen(b) else Got(b, []);
    match data
    case Short => Err(UnexpectedEnd)
    case Got(d, rest) => Ok((Datagram(d), rest))
  }

  // ----- the encoders -----

  ghost predicate AllVar(v: seq<nat>) {
    forall i | 0 <= i < |v| :: v[i] < VARINT_LIMIT
  }

  function Vars(v: seq<nat>): seq<byte>
    requires AllVar(v)
  {
    if v == [] then [] else Var(v[0]) + Vars(v[1..])
  }

  /** Octets with their number in front. */
  function Counted(d: seq<byte>): seq<byte>
    requires |d| < VARINT_LIMIT
  {
    Var(|d|) + d
  }

  /** The type and numbers of a frame that is nothing else. */
  function Numeric(f: Frame): Option<(nat, seq<nat>)> {
    match f
    case ResetStream(id, code, final) => Some((0x04, [id, code, final]))
    case StopSending(id, code) => Some((0x05, [id, code]))
    case MaxData(limit) => Some((0x10, [limit]))
    case MaxStreamData(id, limit) => Some((0x11, [id, limit]))
    case MaxStreams(bidi, limit) => Some((if bidi then 0x12 else 0x13, [limit]))
    case DataBlocked(limit) => Some((0x14, [limit]))
    case StreamDataBlocked(id, limit) => Some((0x15, [id, limit]))
    case StreamsBlocked(bidi, limit) => Some((if bidi then 0x16 else 0x17, [limit]))
    case RetireConnectionId(sequence) => Some((0x19, [sequence]))
    case AckFrequency(sequence, threshold, delay, reordering) => Some((0xaf, [sequence, threshold, delay, reordering]))
    case _ => None
  }

  /** The type, numbers and octets of a frame of that shape. */
  function WithData(f: Frame): Option<(nat, seq<nat>, seq<byte>)> {
    match f
    case Crypto(offset, data) => Some((0x06, [offset], data))
    case NewToken(token) => Some((0x07, [], token))
    case ConnectionClose(code, ty, reason) => Some((0x1c, [code, if ty.None? then 0 else ty.value], reason))
    case ApplicationClose(code, reason) => Some((0x1d, [code], reason))
    case _ => None
  }

  ghost predicate ValidAck(largest: nat, delay: nat, additional: seq<byte>, ecn: Option<EcnCounts>) {
    && largest < VARINT_LIMIT && delay < VARINT_LIMIT && EcnInRange(ecn)
    && Collect(largest, additional).Some?
    && var n := |Collect(largest, additional).value| - 1;
       0 <= n < VARINT_LIMIT && Scan(additional, largest, n) == Ok([])
  }

  /** The type of a frame that has no body. */
  function BareType(f: Frame): Option<nat> {
    if f.Padding? then Some(0x00)
    else if f.Ping? then Some(0x01)
    else if f.HandshakeDone? then Some(0x1e)
    else if f.ImmediateAck? then Some(0x1f)
    else None
  }

  /** Frames that have a wire form. */
  ghost predicate Valid(ext: ExtCodec, f: Frame) {
    if Numeric(f).Some? then
      AllVar(Numeric(f).value.1)
    else if WithData(f).Some? then
      && AllVar(WithData(f).value.1) && |WithData(f).value.2| < VARINT_LIMIT
      && (f.ConnectionClose? ==> f.frameType != Some(0))
    else if f.Ack? then
      ValidAck(f.largest, f.delay, f.additional, f.ecn)
    else if f.Stream? then
      f.id < VARINT_LIMIT && f.offset < VARINT_LIMIT && |f.data| < VARINT_LIMIT
    else if f.Datagram? then
      |f.data| < VARINT_LIMIT
    else if f.NewConnectionId? then
      && f.issued.retirePriorTo <= f.issued.sequence < VARINT_LIMIT
      && 0 < |f.issued.id| <= MAX_CID_SIZE && |f.issued.resetToken| == RESET_TOKEN_SIZE
    else if f.PathChallenge? || f.PathResponse? then
      f.challenge < Pow256(8)
    else if f.ObservedAddress? then
      && f.sequence < VARINT_LIMIT && f.address.port < Pow256(2)
      && |f.address.ip.octets| == if f.address.ip.V6? then 16 else 4
    else if f.Extension? then
      IsExtension(f.ty) && forall rest :: ext(f.ty, f.body + rest) == Some(|f.body|)
    else
      true
  }

  /** The self-delimiting wire form of a frame. */
  ghost function Encode(ext: ExtCodec, f: Frame): seq<byte>
    requires Valid(ext, f)
  {
    if Numeric(f).Some? then Var(Numeric(f).value.0) + Vars(Numeric(f).value.1)
    else if WithData(f).Some? then
      var w := WithData(f).value;
      Var(w.0) + (Vars(w.1) + Counted(w.2))
    else if f.Ack? then Var(AckType(f.ecn)) + (AckHead(f) + f.additional + EcnBytes(f.ecn))
    else if f.Stream? then Var(StreamType(f, true)) + (StreamHead(f) + Counted(f.data))
    else if f.Datagram? then Var(0x31) + Counted(f.data)
    else if f.NewConnectionId? then
      Var(0x18) + (Vars([f.issued.sequence, f.issued.retirePriorTo]) + BigEndian(|f.issued.id|, 1)
                   + f.issued.id + f.issued.resetToken)
    else if f.PathChallenge? then Var(0x1a) + BigEndian(f.challenge, 8)
    else if f.PathResponse? then Var(0x1b) + BigEndian(f.challenge, 8)
    else if f.ObservedAddress? then
      Var(if f.address.ip.V6? then 0x9f81a7 else 0x9f81a6)
      + (Var(f.sequence) + f.address.ip.octets + BigEndian(f.address.port, 2))
    else if f.Extension? then Var(f.ty) + f.body
    else Var(BareType(f).value)
  }

  function AckHead(f: Frame): seq<byte>
    requires f.Ack? && ValidAck(f.largest, f.delay, f.additional, f.ecn)
  {
    Vars([f.largest, f.delay, |Collect(f.largest, f.additional).value| - 1])
  }

  function StreamType(f: Frame, length: bool): nat
    requires f.Stream?
  {
    0x08 + (if f.offset != 0 then 4 else 0) + (if length then 2 else 0) + (if f.fin then 1 else 0)
  }

  function StreamHead(f: Frame): seq<byte>
    requires f.Stream? && f.id < VARINT_LIMIT && f.offset < VARINT_LIMIT
  {
    Vars(if f.offset != 0 then [f.id, f.offset] else [f.id])
  }

  predicate CanBeOpen(f: Frame) {
    f.Stream? || f.Datagram?
  }

  /** The wire form of a STREAM or DATAGRAM frame that runs to the end of the packet. */
  ghost function EncodeOpen(ext: ExtCodec, f: Frame): seq<byte>
    requires Valid(ext, f) && CanBeOpen(f)
  {
    if f.Stream? then Var(StreamType(f, false)) + (StreamHead(f) + f.data) else Var(0x30) + f.data
  }

  // ----- one frame -----

  lemma {:induction false} ReadVarsBack(v: seq<nat>, rest: seq<byte>)
    requires AllVar(v)
    ensures ReadVars(Vars(v) + rest, |v|) == Got(v, rest)
  {
    hide ReadVar, Var;
    if v == [] {
      assert [] + rest == rest;
    } else {
      ReadVarsBack(v[1..], rest);
      ReadVarBack(v[0], Vars(v[1..]) + rest);
      assert Vars(v) + rest == Var(v[0]) + (Vars(v[1..]) + rest);
      assert v == [v[0]] + v[1..];
    }
  }

  lemma TakeLenBack(d: seq<byte>, rest: seq<byte>)
    requires |d| < VARINT_LIMIT
    ensures TakeLen(Counted(d) + rest) == Got(d, rest)
  {
    hide ReadVar, Var;
    ReadVarBack(|d|, d + rest);
    assert Counted(d) + rest == Var(|d|) + (d + rest);
    ReadBytesBack(d, rest);
  }

  lemma TypeBack(ext: ExtCodec, ty: nat, body: seq<byte>, rest: seq<byte>)
    requires ty < VARINT_LIMIT
    ensures TryNext(ext, Var(ty) + body + rest) == ReadBody(ext, ty, body + rest)
  {
    hide ReadVar, Var;
    ReadVarBack(ty, body + rest);
    assert Var(ty) + body + rest == Var(ty) + (body + rest);
  }

  lemma NumericBack(ext: ExtCodec, f: Frame, rest: seq<byte>)
    requires Numeric(f).Some? && Valid(ext, f)
    ensures TryNext(ext, Encode(ext, f) + rest) == Ok((f, rest))
  {
    hide Var, TryNext, ReadVars;
    var w := Numeric(f).value;
    ReadVarsBack(w.1, rest);
    TypeBack(ext, w.0, Vars(w.1), rest);
  }

  lemma WithDataBack(ext: ExtCodec, f: Frame, rest: seq<byte>)
    requires WithData(f).Some? && Valid(ext, f)
    ensures TryNext(ext, Encode(ext, f) + rest) == Ok((f, rest))
  {
    hide Var, TryNext, ReadVars, TakeLen, Counted, Vars;
    var w := WithData(f).value;
    ReadVarsBack(w.1, Counted(w.2) + rest);
    TakeLenBack(w.2, rest);
    TypeBack(ext, w.0, Vars(w.1) + Counted(w.2), rest);
    assert Vars(w.1) + Counted(w.2) + rest == Vars(w.1) + (Counted(w.2) + rest);
  }

  lemma BareBack(ext: ExtCodec, f: Frame, rest: seq<byte>)
    requires BareType(f).Some?
    ensures TryNext(ext, Encode(ext, f) + rest) == Ok((f, rest))
  {
    hide Var, TryNext;
    var ty := BareType(f).value;
    TypeBack(ext, ty, [], rest);
    assert Var(ty) + [] == Var(ty) && [] + rest == rest;
  }

  lemma PathBack(ext: ExtCodec, f: Frame, rest: seq<byte>)
    requires (f.PathChallenge? || f.PathResponse?) && Valid(ext, f)
    ensures TryNext(ext, Encode(ext, f) + rest) == Ok((f, rest))
  {
    hide Var, TryNext, ReadFixed, BigEndian;
    ReadFixedBack(f.challenge, 8, rest);
    TypeBack(ext, if f.PathChallenge? then 0x1a else 0x1b, BigEndian(f.challenge, 8), rest);
  }

  lemma ExtensionBack(ext: ExtCodec, f: Frame, rest: seq<byte>)
    requires f.Extension? && Valid(ext, f)
    ensures TryNext(ext, Encode(ext, f) + rest) == Ok((f, rest))
  {
    hide Var, TryNext;
    TypeBack(ext, f.ty, f.body, rest);
    assert ext(f.ty, f.body + rest) == Some(|f.body|);
    assert (f.body + rest)[..|f.body|] == f.body;
  }

  lemma ObservedBack(ext: ExtCodec, f: Frame, rest: seq<byte>)
    requires f.ObservedAddress? && Valid(ext, f)
    ensures TryNext(ext, Encode(ext, f) + rest) == Ok((f, rest))
  {
    hide Var, TryNext, ReadVar, ReadFixed, ReadBytes, BigEndian;
    var v6, octets, port := f.address.ip.V6?, f.address.ip.octets, BigEndian(f.address.port, 2);
    var body := Var(f.sequence) + octets + port;
    TypeBack(ext, if v6 then 0x9f81a7 else 0x9f81a6, body, rest);
    ReadVarBack(f.sequence, octets + (port + rest));
    assert body + rest == Var(f.sequence) + (octets + (port + rest));
    ReadBytesBack(octets, port + rest);
    ReadFixedBack(f.address.port, 2, rest);
  }

  lemma NewConnectionIdBack(ext: ExtCodec, f: Frame, rest: seq<byte>)
    requires f.NewConnectionId? && Valid(ext, f)
    ensures TryNext(ext, Encode(ext, f) + rest) == Ok((f, rest))
  {
    hide Var, Vars, TryNext, ReadVars, ReadFixed, ReadBytes, BigEndian;
    var n := f.issued;
    var head, length := Vars([n.sequence, n.retirePriorTo]), BigEndian(|n.id|, 1);
    var body := head + length + n.id + n.resetToken;
    var after2 := n.resetToken + rest;
    var after1 := n.id + after2;
    TypeBack(ext, 0x18, body, rest);
    assert body + rest == head + (length + after1);
    ReadVarsBack([n.sequence, n.retirePriorTo], length + after1);
    Powers();
    ReadFixedBack(|n.id|, 1, after1);
    ReadBytesBack(n.id, after2);
    ReadBytesBack(n.resetToken, rest);
  }

  lemma AckBack(ext: ExtCodec, f: Frame, rest: seq<byte>)
    requires f.Ack? && Valid(ext, f)
    ensures TryNext(ext, Encode(ext, f) + rest) == Ok((f, rest))
  {
    hide Var, Vars, TryNext, ReadVars, Scan, Collect;
    var n := |Collect(f.largest, f.additional).value| - 1;
    var ecn := EcnBytes(f.ecn);
    var body := AckHead(f) + f.additional + ecn;
    TypeBack(ext, AckType(f.ecn), body, rest);
    var tail := ecn + rest;
    assert body + rest == AckHead(f) + (f.additional + tail);
    ReadVarsBack([f.largest, f.delay, n], f.additional + tail);
    ScanLocal(f.additional, tail, f.largest, n);
    assert [] + tail == tail;
    assert (f.additional + tail)[..|f.additional + tail| - |tail|] == f.additional;
    if f.ecn.Some? {
      var v := [f.ecn.value.ect0, f.ecn.value.ect1, f.ecn.value.ce];
      EcnIsVars(f.ecn.value);
      ReadVarsBack(v, rest);
      assert ReadVars(tail, 3) == Got(v, rest);
      assert ReadAck(0x03, body + rest) == Ok((Ack(f.largest, f.delay, f.additional, f.ecn), rest));
    } else {
      assert tail == rest;
    }
  }

  lemma EcnIsVars(e: EcnCounts)
    requires EcnInRange(Some(e))
    ensures EcnBytes(Some(e)) == Vars([e.ect0, e.ect1, e.ce])
  {
    hide Var;
    var v := [e.ect0, e.ect1, e.ce];
    assert v[1..] == [e.ect1, e.ce] && [e.ect1, e.ce][1..] == [e.ce] && [e.ce][1..] == [];
    assert Vars([e.ce]) == Var(e.ce) + Vars([]);
    assert Vars([e.ect1, e.ce]) == Var(e.ect1) + Vars([e.ce]);
    assert Vars(v) == Var(e.ect0) + Vars([e.ect1, e.ce]);
  }

  /** A scan is decided by the octets it covers. */
  lemma {:induction false} ScanLocal(b: seq<byte>, more: seq<byte>, largest: nat, n: nat)
    requires Scan(b, largest, n).Ok?
    ensures Scan(b + more, largest, n) == Ok(Scan(b, largest, n).value + more)
    decreases n
  {
    hide ReadVar;
    ReadVarLocal(b, more);
    if n > 0 {
      var block, rest := ReadVar(b).value, ReadVar(b).rest;
      assert Scan(b, largest, n) == ScanGaps(rest, largest - block, n);
      ReadVarLocal(rest, more);
      ScanLocal(ReadVar(rest).rest, more, largest - block - ReadVar(rest).value - 2, n - 1);
    }
  }

  lemma StreamBack(ext: ExtCodec, f: Frame, rest: seq<byte>)
    requires f.Stream? && Valid(ext, f)
    ensures TryNext(ext, Encode(ext, f) + rest) == Ok((f, rest))
    ensures TryNext(ext, EncodeOpen(ext, f)) == Ok((f, []))
  {
    hide Var, Vars, TryNext, ReadVars, TakeLen, Counted;
    var v := if f.offset != 0 then [f.id, f.offset] else [f.id];
    var counted := Counted(f.data);
    TypeBack(ext, StreamType(f, true), Vars(v) + counted, rest);
    assert Vars(v) + counted + rest == Vars(v) + (counted + rest);
    ReadVarsBack(v, counted + rest);
    TakeLenBack(f.data, rest);
    TypeBack(ext, StreamType(f, false), Vars(v) + f.data, []);
    assert EncodeOpen(ext, f) + [] == EncodeOpen(ext, f) && Vars(v) + f.data + [] == Vars(v) + f.data;
    ReadVarsBack(v, f.data);
  }

  lemma DatagramBack(ext: ExtCodec, f: Frame, rest: seq<byte>)
    requires f.Datagram? && Valid(ext, f)
    ensures TryNext(ext, Encode(ext, f) + rest) == Ok((f, rest))
    ensures TryNext(ext, EncodeOpen(ext, f)) == Ok((f, []))
  {
    hide Var, TryNext, TakeLen, Counted;
    TypeBack(ext, 0x31, Counted(f.data), rest);
    TakeLenBack(f.data, rest);
    TypeBack(ext, 0x30, f.data, []);
    assert EncodeOpen(ext, f) + [] == EncodeOpen(ext, f) && f.data + [] == f.data;
  }

  /** Every frame that has a wire form is read back from it, whatever follows. */
  lemma FrameRoundTrip(ext: ExtCodec, f: Frame, rest: seq<byte>)
    requires Valid(ext, f)
    ensures TryNext(ext, Encode(ext, f) + rest) == Ok((f, rest))
  {
    if Numeric(f).Some? { NumericBack(ext, f, rest); }
    else if WithData(f).Some? { WithDataBack(ext, f, rest); }
    else if f.Ack? { AckBack(ext, f, rest); }
    else if f.Stream? { StreamBack(ext, f, rest); }
    else if f.Datagram? { DatagramBack(ext, f, rest); }
    else if f.NewConnectionId? { NewConnectionIdBack(ext, f, rest); }
    else if f.PathChallenge? || f.PathResponse? { PathBack(ext, f, rest); }
    else if f.ObservedAddress? { ObservedBack(ext, f, rest); }
    else if f.Extension? { ExtensionBack(ext, f, rest); }
    else { BareBack(ext, f, rest); }
  }

  // ----- whatever decodes is valid -----

  lemma {:induction false} ReadVarsBounds(b: seq<byte>, n: nat)
    requires ReadVars(b, n).Got?
    ensures AllVar(ReadVars(b, n).value)
    ensures |ReadVars(b, n).rest| <= |b|
  {
    hide ReadVar;
    if n > 0 {
      ReadVarBounds(b);
      ReadVarsBounds(ReadVar(b).rest, n - 1);
    }
  }

  lemma TakeLenBounds(b: seq<byte>)
    requires TakeLen(b).Got?
    ensures |TakeLen(b).value| < VARINT_LIMIT && |TakeLen(b).rest| < |b|
  {
    hide ReadVar;
    ReadVarBounds(b);
  }

  /** No more is left than there was, and the frame has a wire form.  An open STREAM or DATAGRAM
      needs a packet shorter than 2^62 octets for that; nothing is claimed of extension bodies. */
  ghost predicate Sound(ext: ExtCodec, b: seq<byte>, r: Decoded) {
    r.Ok? ==>
      && |r.value.1| <= |b|
      && (|b| < VARINT_LIMIT && !r.value.0.Extension? ==> Valid(ext, r.value.0))
  }

  lemma NumericSound(ext: ExtCodec, ty: nat, b: seq<byte>)
    requires IsNumeric(ty)
    ensures Sound(ext, b, ReadNumeric(ty, b))
  {
    hide ReadVars;
    var n := NumericArity(ty);
    if ReadVars(b, n).Got? {
      ReadVarsBounds(b, n);
      var v := ReadVars(b, n).value;
      assert v == if n == 1 then [v[0]] else if n == 2 then [v[0], v[1]]
                  else if n == 3 then [v[0], v[1], v[2]] else [v[0], v[1], v[2], v[3]];
      assert Numeric(NumericFrame(ty, v)) == Some((ty, v));
    }
  }

  lemma WithDataSound(ext: ExtCodec, ty: nat, b: seq<byte>)
    requires ty in {0x06, 0x07, 0x1c, 0x1d}
    ensures Sound(ext, b, ReadWithData(ty, b))
  {
    hide ReadVars, TakeLen;
    var n := DataArity(ty);
    if ReadVars(b, n).Got? && TakeLen(ReadVars(b, n).rest).Got? {
      ReadVarsBounds(b, n);
      TakeLenBounds(ReadVars(b, n).rest);
    }
  }

  lemma AckSound(ext: ExtCodec, ty: nat, b: seq<byte>)
    ensures Sound(ext, b, ReadAck(ty, b))
  {
    hide ReadVars, Scan, Collect;
    if ReadAck(ty, b).Ok? {
      ReadVarsBounds(b, 3);
      var v, rest := ReadVars(b, 3).value, ReadVars(b, 3).rest;
      ScanMakesIterationSafe(rest, v[0], v[2]);
      if ty == 0x03 {
        ReadVarsBounds(Scan(rest, v[0], v[2]).value, 3);
      }
    }
  }

  lemma NewConnectionIdSound(ext: ExtCodec, b: seq<byte>)
    ensures Sound(ext, b, ReadNewConnectionId(b))
  {
    hide ReadVars, Value;
    if ReadVars(b, 2).Got? {
      ReadVarsBounds(b, 2);
    }
  }

  lemma PathSound(ext: ExtCodec, ty: nat, b: seq<byte>)
    ensures Sound(ext, b, ReadPath(ty, b))
  {
    if |b| >= 8 {
      BigEndianOfValue(b[..8]);
    }
  }

  lemma ObservedSound(ext: ExtCodec, ipv6: bool, b: seq<byte>)
    ensures Sound(ext, b, ReadObserved(ipv6, b))
  {
    hide ReadVar, Value;
    var n := if ipv6 then 16 else 4;
    if ReadVar(b).Got? {
      ReadVarBounds(b);
      if |ReadVar(b).rest| >= n + 2 {
        BigEndianOfValue(ReadVar(b).rest[n..][..2]);
      }
    }
  }

  lemma StreamSound(ext: ExtCodec, ty: nat, b: seq<byte>)
    ensures Sound(ext, b, ReadStream(ty, b))
    ensures Sound(ext, b, ReadDatagram(ty, b))
  {
    hide ReadVars, TakeLen;
    var k := if ty / 4 % 2 == 1 then 2 else 1;
    if ReadVars(b, k).Got? {
      ReadVarsBounds(b, k);
      if TakeLen(ReadVars(b, k).rest).Got? {
        TakeLenBounds(ReadVars(b, k).rest);
      }
    }
    if TakeLen(b).Got? {
      TakeLenBounds(b);
    }
  }

  lemma BodySound(ext: ExtCodec, ty: nat, b: seq<byte>)
    ensures Sound(ext, b, ReadBody(ext, ty, b))
  {
    hide ReadNumeric, ReadAck, ReadWithData, ReadNewConnectionId, ReadPath, ReadObserved, ReadStream, ReadDatagram;
    if IsNumeric(ty) {
      NumericSound(ext, ty, b);
    } else if ty in {0x02, 0x03} {
      AckSound(ext, ty, b);
    } else if ty in {0x06, 0x07, 0x1c, 0x1d} {
      WithDataSound(ext, ty, b);
    } else {
      NewConnectionIdSound(ext, b);
      PathSound(ext, ty, b);
      ObservedSound(ext, ty == 0x9f81a7, b);
      StreamSound(ext, ty, b);
    }
  }

  /** A frame takes at least one octet, and one that was decoded has a wire form. */
  lemma DecodedIsValid(ext: ExtCodec, b: seq<byte>)
    requires TryNext(ext, b).Ok?
    ensures |TryNext(ext, b).value.1| < |b|
    ensures |b| < VARINT_LIMIT && !TryNext(ext, b).value.0.Extension? ==> Valid(ext, TryNext(ext, b).value.0)
  {
    hide ReadVar, ReadBody;
    ReadVarBounds(b);
    BodySound(ext, ReadVar(b).value, ReadVar(b).rest);
  }

  // ----- whole payloads -----

  /** A frame that could not be read: its type (that of the frame before it, if not even the
      type could be read) and the reason. */
  datatype InvalidFrame = InvalidFrame(ty: Option<nat>, reason: IterErr)

  type Item = Result<Frame, InvalidFrame>

  /** The type `Iter` remembers after an attempt at reading a frame off `b`. */
  function LastType(b: seq<byte>, before: Option<nat>): Option<nat> {
    match ReadVar(b)
    case Short => before
    case Got(ty, _) => Some(ty)
  }

  /** Everything the iterator yields from a payload. */
  function Items(ext: ExtCodec, b: seq<byte>, lastType: Option<nat>): seq<Item>
    decreases |b|
  {
    if b == [] then [] else
    match TryNext(ext, b)
    case Ok((f, rest)) =>
      DecodedIsValid(ext, b);
      [Ok(f)] + Items(ext, rest, LastType(b, lastType))
    case Err(e) => [Err(InvalidFrame(LastType(b, lastType), e))]
  }

  class Iter {
    const ext: ExtCodec
    var bytes: seq<byte>
    var lastType: Option<nat>

    constructor (ext: ExtCodec, payload: seq<byte>)
      ensures this.ext == ext && bytes == payload && lastType == None
    {
      this.ext, bytes, lastType := ext, payload, None;
    }

    /** Reads the next frame; a corrupt one ends the iteration. */
    method Next() returns (r: Option<Item>)
      modifies this
      ensures r.None? ==> old(Items(ext, bytes, lastType)) == [] && Items(ext, bytes, lastType) == []
      ensures r.Some? ==> old(Items(ext, bytes, lastType)) == [r.value] + Items(ext, bytes, lastType)
    {
      if bytes == [] {
        return None;
      }
      var next := TryNext(ext, bytes);
      lastType := LastType(bytes, lastType);
      match next
      case Ok((f, rest)) =>
        bytes := rest;
        r := Some(Ok(f));
      case Err(e) =>
        bytes := [];
        r := Some(Err(InvalidFrame(lastType, e)));
    }
  }

  /** On any octets the iterator yields at most one item per octet, and only the last one can be
      an error. */
  lemma {:induction false} ItemsBounded(ext: ExtCodec, b: seq<byte>, lastType: Option<nat>)
    ensures |Items(ext, b, lastType)| <= |b|
    ensures forall i | 0 <= i < |Items(ext, b, lastType)| - 1 :: Items(ext, b, lastType)[i].Ok?
    decreases |b|
  {
    hide TryNext;
    if b != [] && TryNext(ext, b).Ok? {
      DecodedIsValid(ext, b);
      ItemsBounded(ext, TryNext(ext, b).value.1, LastType(b, lastType));
    }
  }

  ghost predicate AllValid(ext: ExtCodec, fs: seq<Frame>) {
    forall i | 0 <= i < |fs| :: Valid(ext, fs[i])
  }

  ghost function EncodeAll(ext: ExtCodec, fs: seq<Frame>): seq<byte>
    requires AllValid(ext, fs)
  {
    if fs == [] then [] else Encode(ext, fs[0]) + EncodeAll(ext, fs[1..])
  }

  function Oks(fs: seq<Frame>): seq<Item> {
    if fs == [] then [] else [Ok(fs[0])] + Oks(fs[1..])
  }

  ghost predicate TailValid(ext: ExtCodec, tail: Option<Frame>) {
    tail.Some? ==> CanBeOpen(tail.value) && Valid(ext, tail.value)
  }

  /** A STREAM or DATAGRAM without length at the end of the packet, if any. */
  ghost function TailBytes(ext: ExtCodec, tail: Option<Frame>): seq<byte>
    requires TailValid(ext, tail)
  {
    if tail.None? then [] else EncodeOpen(ext, tail.value)
  }

  lemma TailRoundTrip(ext: ExtCodec, tail: Option<Frame>, lastType: Option<nat>)
    requires TailValid(ext, tail)
    ensures Items(ext, TailBytes(ext, tail), lastType) == if tail.None? then [] else [Ok(tail.value)]
  {
    if tail.Some? {
      hide TryNext, EncodeOpen, Encode;
      if tail.value.Stream? {
        StreamBack(ext, tail.value, []);
      } else {
        DatagramBack(ext, tail.value, []);
      }
      OneItem(ext, TailBytes(ext, tail), tail.value, [], lastType);
    }
  }

  lemma OneItem(ext: ExtCodec, b: seq<byte>, f: Frame, rest: seq<byte>, lastType: Option<nat>)
    requires TryNext(ext, b) == Ok((f, rest))
    ensures Items(ext, b, lastType) == [Ok(f)] + Items(ext, rest, LastType(b, lastType))
  {
    hide TryNext;
    DecodedIsValid(ext, b);
  }

  /** Concatenated encodings of any frames, optionally ended by an open one, parse back to
      exactly those frames. */
  lemma {:induction false} PayloadRoundTrip(ext: ExtCodec, fs: seq<Frame>, tail: Option<Frame>, lastType: Option<nat>)
    requires AllValid(ext, fs) && TailValid(ext, tail)
    ensures Items(ext, EncodeAll(ext, fs) + TailBytes(ext, tail), lastType)
         == Oks(fs) + if tail.None? then [] else [Ok(tail.value)]
  {
    hide TryNext, Encode, TailBytes, Items, Valid;
    var end := TailBytes(ext, tail);
    if fs == [] {
      TailRoundTrip(ext, tail, lastType);
      assert [] + end == end;
    } else {
      var rest := EncodeAll(ext, fs[1..]) + end;
      var b := EncodeAll(ext, fs) + end;
      assert b == Encode(ext, fs[0]) + rest;
      FrameRoundTrip(ext, fs[0], rest);
      OneItem(ext, b, fs[0], rest, lastType);
      PayloadRoundTrip(ext, fs[1..], tail, LastType(b, lastType));
    }
  }

  // ----- acknowledgements end to end -----

  /** The frame a peer decodes from `TryEncodeAck`. */
  function AckFrame(delay: nat, rs: seq<Range>, ecn: Option<EcnCounts>): Frame
    requires WellFormed(rs) && Encodable(delay, rs, ecn)
  {
    Ack(rs[|rs| - 1].end - 1, delay, Blocks(rs), ecn)
  }

  /** What `TryEncodeAck` writes is decoded, whatever follows, to a frame with the same delay and
      ECN counts whose iterator yields the set's ranges, highest first. */
  lemma AckRoundTrip(ext: ExtCodec, delay: nat, rs: seq<Range>, ecn: Option<EcnCounts>, rest: seq<byte>)
    requires WellFormed(rs) && Encodable(delay, rs, ecn)
    ensures TryNext(ext, Var(AckType(ecn)) + AckBody(delay, rs, ecn) + rest) == Ok((AckFrame(delay, rs, ecn), rest))
    ensures Collect(AckFrame(delay, rs, ecn).largest, AckFrame(delay, rs, ecn).additional) == Some(Descending(rs))
  {
    hide TryNext, Collect, Scan, Blocks, Var;
    FewRanges(rs);
    var f := AckFrame(delay, rs, ecn);
    BlocksRoundTrip(rs, f.largest, |rs| - 1, []);
    assert Blocks(rs) + [] == Blocks(rs);
    FrameRoundTrip(ext, f, rest);
    var v := [f.largest, delay, |rs| - 1];
    assert Vars(v) == Var(f.largest) + Var(delay) + Var(|rs| - 1) by {
      assert v[1..] == [delay, |rs| - 1] && [delay, |rs| - 1][1..] == [|rs| - 1] && [|rs| - 1][1..] == [];
      assert Vars([|rs| - 1]) == Var(|rs| - 1) + Vars([]);
      assert Vars([delay, |rs| - 1]) == Var(delay) + Vars([|rs| - 1]);
      assert Vars(v) == Var(f.largest) + Vars([delay, |rs| - 1]);
    }
    assert Encode(ext, f) == Var(AckType(ecn)) + AckBody(delay, rs, ecn);
  }

  ghost predicate Acked(spans: seq<Span>, v: nat) {
    exists i :: 0 <= i < |spans| && spans[i].lo <= v <= spans[i].hi
  }

  lemma AckedPrepend(s: Span, spans: seq<Span>, v: nat)
    ensures Acked([s] + spans, v) <==> s.lo <= v <= s.hi || Acked(spans, v)
  {
    var all := [s] + spans;
    if s.lo <= v <= s.hi {
      assert all[0].lo <= v <= all[0].hi;
    } else if Acked(spans, v) {
      var i :| 0 <= i < |spans| && spans[i].lo <= v <= spans[i].hi;
      assert all[i + 1].lo <= v <= all[i + 1].hi;
    }
  }

  /** The iterator's ranges acknowledge exactly the numbers of the set. */
  lemma {:induction false} DescendingAcks(rs: seq<Range>, v: nat)
    requires forall i | 0 <= i < |rs| :: rs[i].start < rs[i].end
    ensures Acked(Descending(rs), v) <==> Has(rs, v)
  {
    if rs != [] {
      var top, below := rs[|rs| - 1], rs[..|rs| - 1];
      DescendingAcks(below, v);
      AckedPrepend(Span(top.start, top.end - 1), Descending(below), v);
      assert rs == below + [top];
      HasConcat(below, [top], v);
      HasOne(top, v);
    }
  }

  /** Collects packet numbers, one by one and in any order. */
  method RangesOf(packets: seq<nat>) returns (rs: seq<Range>)
    ensures WellFormed(rs)
    ensures forall v: nat :: Has(rs, v) <==> v in packets
  {
    var ranges := new ArrayRangeSet();
    for k := 0 to |packets|
      invariant WellFormed(ranges.ranges)
      invariant forall v: nat :: Has(ranges.ranges, v) <==> v in packets[..k]
    {
      var _ := ranges.Insert(Range(packets[k], packets[k] + 1));
      assert packets[..k + 1] == packets[..k] + [packets[k]];
    }
    assert packets[..|packets|] == packets;
    return ranges.ranges;
  }

  /** Collects packet numbers, encodes them, decodes the frame and iterates over it: what comes
      out acknowledges exactly what went in. */
  method AckCoding(ext: ExtCodec, packets: seq<nat>, delay: nat, ecn: Option<EcnCounts>) returns (spans: seq<Span>)
    requires packets != [] && delay < VARINT_LIMIT && EcnInRange(ecn)
    requires forall i | 0 <= i < |packets| :: packets[i] < VARINT_LIMIT
    ensures forall v: nat :: Acked(spans, v) <==> v in packets
  {
    hide TryNext, Collect, Var, AckBody, Items, Descending;
    var rs := RangesOf(packets);
    assert Has(rs, packets[0]);
    var top := rs[|rs| - 1].end - 1;
    assert Within(rs[|rs| - 1], top) && Has(rs, top) && top in packets;
    var out := new Writer();
    var ok := TryEncodeAck(delay, rs, ecn, out);
    AckRoundTrip(ext, delay, rs, ecn, []);
    var iter := new Iter(ext, out.buf);
    assert [] + (Var(AckType(ecn)) + AckBody(delay, rs, ecn)) == Var(AckType(ecn)) + AckBody(delay, rs, ecn) + [];
    OneItem(ext, iter.bytes, AckFrame(delay, rs, ecn), [], None);
    ghost var items := Items(ext, iter.bytes, None);
    assert items[0] == Ok(AckFrame(delay, rs, ecn));
    var item := iter.Next();
    var f := item.value.value;
    spans := Drain(f.largest, f.additional);
    forall v: nat ensures Acked(spans, v) <==> v in packets {
      DescendingAcks(rs, v);
    }
  }
}

/**
 The wire forms of the frames (src/frame.rs) and of the integers in them (src/varint.rs), octet by
 octet: frame types and order of fields as sections 19 and 16 of RFC 9000 have them.
 */
module WireForms {
  import opened Prelude
  import opened Coding
  import opened AckFrames
  import opened Frames
  import RemoteCids

  lemma Octets1(x: nat)
    requires x < 256
    ensures BigEndian(x, 1) == [x]
  {
    assert BigEndian(x / 256, 0) == [];
  }

  lemma Octets2(x: nat)
    ensures BigEndian(x, 2) == [x / 256 % 256, x % 256]
  {
    assert BigEndian(x / 256, 1) == BigEndian(x / 256 / 256, 0) + [x / 256 % 256];
  }

  lemma Octets4(x: nat)
    ensures BigEndian(x, 4) == [x / 0x100_0000 % 256, x / 0x1_0000 % 256, x / 256 % 256, x % 256]
  {
    Octets2(x / 0x1_0000);
    assert x / 256 / 256 == x / 0x1_0000;
    assert BigEndian(x / 256, 3) == BigEndian(x / 256 / 256, 2) + [x / 256 % 256];
  }

  lemma {:induction false} Shifted(hi: nat, lo: nat, n: nat)
    requires lo < Pow256(n)
    ensures forall k: nat :: BigEndian(hi * Pow256(n) + lo, n + k) == BigEndian(hi, k) + BigEndian(lo, n)
    decreases n
  {
    if n == 0 {
    } else {
      var x := hi * Pow256(n) + lo;
      assert Pow256(n) == 256 * Pow256(n - 1);
      assert x == (hi * Pow256(n - 1)) * 256 + lo;
      assert x / 256 == hi * Pow256(n - 1) + lo / 256 && x % 256 == lo % 256;
      Shifted(hi, lo / 256, n - 1);
      forall k: nat ensures BigEndian(x, n + k) == BigEndian(hi, k) + BigEndian(lo, n) {
        assert BigEndian(x, n + k) == BigEndian(x / 256, n - 1 + k) + [x % 256];
      }
    }
  }

  lemma Octets8(hi: nat, lo: nat)
    requires lo < 0x1_0000_0000
    ensures BigEndian(hi * 0x1_0000_0000 + lo, 8) == BigEndian(hi, 4) + BigEndian(lo, 4)
  {
    Powers();
    Shifted(hi, lo, 4);
  }

  /** The examples of Appendix A.1 of RFC 9000. */
  lemma VarExamples()
    ensures Var(37) == [0x25]
    ensures Var(15_293) == [0x7b, 0xbd]
    ensures Var(494_878_333) == [0x9d, 0x7f, 0x3e, 0x7d]
    ensures Var(151_288_809_941_952_652) == [0xc2, 0x19, 0x7c, 0x5e, 0xff, 0x14, 0xe8, 0x8c]
  {
    hide BigEndian;
    Octets1(37);
    Octets2(0x7bbd);
    Octets4(0x9d7f3e7d);
    Octets8(0xc2197c5e, 0xff14e88c);
    Octets4(0xc2197c5e);
    Octets4(0xff14e88c);
  }

  /** Types below 64 are their own octet. */
  lemma OneOctet(ty: nat)
    requires ty < 64
    ensures Var(ty) == [ty]
  {
    Octets1(ty);
  }

  lemma VarsOne(a: nat)
    requires a < VARINT_LIMIT
    ensures Vars([a]) == Var(a)
  {
    hide Var;
    assert [a][1..] == [];
    assert Var(a) + [] == Var(a);
  }

  lemma VarsTwo(a: nat, b: nat)
    requires a < VARINT_LIMIT && b < VARINT_LIMIT
    ensures Vars([a, b]) == Var(a) + Var(b)
  {
    hide Var;
    VarsOne(b);
    assert [a, b][1..] == [b];
  }

  lemma VarsThree(a: nat, b: nat, c: nat)
    requires a < VARINT_LIMIT && b < VARINT_LIMIT && c < VARINT_LIMIT
    ensures Vars([a, b, c]) == Var(a) + Var(b) + Var(c)
  {
    hide Var;
    VarsTwo(b, c);
    assert [a, b, c][1..] == [b, c];
    assert Var(a) + (Var(b) + Var(c)) == Var(a) + Var(b) + Var(c);
  }

  /** The octets of a number; frames that have a wire form have none out of range. */
  function Written(x: nat): seq<byte> {
    if x < VARINT_LIMIT then Var(x) else []
  }

  /** The encoder writes a type below 64 as that octet, and then the numbers. */
  lemma NumericForm(ext: ExtCodec, f: Frame)
    requires Valid(ext, f) && Numeric(f).Some? && Numeric(f).value.0 < 64
    ensures Encode(ext, f) == [Numeric(f).value.0] + Vars(Numeric(f).value.1)
  {
    OneOctet(Numeric(f).value.0);
    hide Var, Vars, Numeric;
  }

  /** Frames of a type and one number: sections 19.9, 19.11, 19.12, 19.14 and 19.16 of RFC 9000. */
  lemma OneNumber(ext: ExtCodec, f: Frame)
    requires Valid(ext, f)
    ensures f.MaxData? ==> Encode(ext, f) == [0x10] + Written(f.limit)
    ensures f.MaxStreams? ==> Encode(ext, f) == [if f.bidi then 0x12 else 0x13] + Written(f.limit)
    ensures f.DataBlocked? ==> Encode(ext, f) == [0x14] + Written(f.limit)
    ensures f.StreamsBlocked? ==> Encode(ext, f) == [if f.bidi then 0x16 else 0x17] + Written(f.limit)
    ensures f.RetireConnectionId? ==> Encode(ext, f) == [0x19] + Written(f.sequence)
  {
    hide Encode;
    if Numeric(f).Some? && |Numeric(f).value.1| == 1 {
      NumericForm(ext, f);
      VarsOne(Numeric(f).value.1[0]);
    }
  }

  /** Frames of a type and several numbers: sections 19.4, 19.5, 19.10 and 19.13 of RFC 9000. */
  lemma MoreNumbers(ext: ExtCodec, f: Frame)
    requires Valid(ext, f)
    ensures f.ResetStream? ==> Encode(ext, f) == [0x04] + (Written(f.id) + Written(f.code) + Written(f.finalOffset))
    ensures f.StopSending? ==> Encode(ext, f) == [0x05] + (Written(f.id) + Written(f.code))
    ensures f.MaxStreamData? ==> Encode(ext, f) == [0x11] + (Written(f.id) + Written(f.limit))
    ensures f.StreamDataBlocked? ==> Encode(ext, f) == [0x15] + (Written(f.id) + Written(f.limit))
  {
    hide Encode;
    if Numeric(f).Some? && Numeric(f).value.0 < 64 {
      NumericForm(ext, f);
      var v := Numeric(f).value.1;
      if |v| == 2 {
        VarsTwo(v[0], v[1]);
      } else if |v| == 3 {
        VarsThree(v[0], v[1], v[2]);
      }
    }
  }

  lemma DataForm(ext: ExtCodec, f: Frame)
    requires Valid(ext, f) && WithData(f).Some? && WithData(f).value.0 < 64
    ensures var w := WithData(f).value;
            Encode(ext, f) == [w.0] + (Vars(w.1) + (Var(|w.2|) + w.2))
  {
    OneOctet(WithData(f).value.0);
    hide Var, Vars, WithData;
  }

  /** Frames that carry counted octets: sections 19.6, 19.7 and 19.19 of RFC 9000. */
  lemma CountedOctets(ext: ExtCodec, f: Frame)
    requires Valid(ext, f)
    ensures f.Crypto? ==> Encode(ext, f) == [0x06] + (Written(f.offset) + (Written(|f.data|) + f.data))
    ensures f.NewToken? ==> Encode(ext, f) == [0x07] + (Written(|f.token|) + f.token)
    ensures f.ConnectionClose? ==>
              Encode(ext, f) == [0x1c] + (Written(f.code)
                                          + Written(if f.frameType.Some? then f.frameType.value else 0)
                                          + (Written(|f.reason|) + f.reason))
    ensures f.ApplicationClose? ==> Encode(ext, f) == [0x1d] + (Written(f.code) + (Written(|f.reason|) + f.reason))
  {
    hide Encode;
    if WithData(f).Some? {
      DataForm(ext, f);
      var w := WithData(f).value;
      if |w.1| == 0 {
        assert Vars([]) + (Var(|w.2|) + w.2) == Var(|w.2|) + w.2;
      } else if |w.1| == 1 {
        VarsOne(w.1[0]);
      } else {
        VarsTwo(w.1[0], w.1[1]);
      }
    }
  }

  /** DATAGRAM frames, with and without length: section 4 of RFC 9221. */
  lemma DatagramForms(ext: ExtCodec, d: seq<byte>)
    requires |d| < VARINT_LIMIT
    ensures Encode(ext, Datagram(d)) == [0x31] + (Var(|d|) + d)
    ensures EncodeOpen(ext, Datagram(d)) == [0x30] + d
  {
    OneOctet(0x30);
    OneOctet(0x31);
    hide Var;
  }

  /** STREAM frames: section 19.8 of RFC 9000, with the offset left out when it is zero and the length
      when the frame ends the packet. */
  lemma StreamForms(ext: ExtCodec, id: nat, offset: nat, fin: bool, d: seq<byte>)
    requires id < VARINT_LIMIT && 0 < offset < VARINT_LIMIT && |d| < VARINT_LIMIT
    ensures var f, g := Stream(id, 0, fin, d), Stream(id, offset, fin, d);
            && Encode(ext, f) == [if fin then 0x0b else 0x0a] + (Var(id) + (Var(|d|) + d))
            && Encode(ext, g) == [if fin then 0x0f else 0x0e] + (Var(id) + Var(offset) + (Var(|d|) + d))
            && EncodeOpen(ext, f) == [if fin then 0x09 else 0x08] + (Var(id) + d)
            && EncodeOpen(ext, g) == [if fin then 0x0d else 0x0c] + (Var(id) + Var(offset) + d)
  {
    var last := if fin then 1 else 0;
    OneOctet(0x0a + last);
    OneOctet(0x0e + last);
    OneOctet(0x08 + last);
    OneOctet(0x0c + last);
    VarsOne(id);
    VarsTwo(id, offset);
    hide Var, Vars;
  }

  /** NEW_CONNECTION_ID frames: section 19.15 of RFC 9000.  Malformed are those that retire beyond their own
      number or whose ID is empty or longer than 20 octets; any other is read once the ID and the 16
      octets of its token are there. */
  lemma NewConnectionIdIff(sequence: nat, prior: nat, length: byte, rest: seq<byte>)
    requires sequence < VARINT_LIMIT && prior < VARINT_LIMIT
    ensures var r := ReadNewConnectionId(Vars([sequence, prior]) + ([length] + rest));
            var malformed := prior > sequence || length == 0 || length > 20;
            && (r == Err(Malformed) <==> malformed)
            && (r.Ok? <==> !malformed && length + 16 <= |rest|)
            && (r.Ok? ==> r.value == (NewConnectionId(RemoteCids.NewConnectionId(sequence, prior, rest[..length],
                                                                                 rest[length..length + 16])),
                                      rest[length + 16..]))
  {
    ReadVarsBack([sequence, prior], [length] + rest);
    LengthRead(length, rest);
    hide Vars, ReadVars, ReadFixed;
    if length as int + 16 <= |rest| {
      assert rest[length..][..16] == rest[length..length + 16];
      assert rest[length..][16..] == rest[length + 16..];
    }
  }

  lemma LengthRead(length: byte, rest: seq<byte>)
    ensures ReadFixed([length] + rest, 1) == Got(length, rest)
  {
    Octets1(length);
    Powers();
    ReadFixedBack(length, 1, rest);
  }

  lemma {:induction false} ScanErrors(b: seq<byte>, largest: nat, n: nat)
    ensures Scan(b, largest, n) != Err(InvalidFrameId)
    decreases n
  {
    hide ReadVar;
    if n > 0 && ReadVar(b).Got? && ReadVar(b).value <= largest {
      var smallest, rest := largest - ReadVar(b).value, ReadVar(b).rest;
      if ReadVar(rest).Got? && ReadVar(rest).value + 2 <= smallest {
        ScanErrors(ReadVar(rest).rest, smallest - ReadVar(rest).value - 2, n - 1);
      }
    }
  }

  /** A type that is none of the known ones is an error of its own, and no other input is that error. */
  lemma UnknownTypeIff(ext: ExtCodec, ty: nat, b: seq<byte>)
    ensures ReadBody(ext, ty, b) == Err(InvalidFrameId) <==>
            !(ty <= 0x1f || ty == 0x30 || ty == 0x31 || ty == 0xaf || ty == 0x9f81a6 || ty == 0x9f81a7
              || 0x3d7e90 <= ty <= 0x3d7e98)
  {
    hide ReadVars, TakeLen, Scan, ReadFixed, ReadBytes, NumericFrame, DataFrame;
    if ReadVars(b, 3).Got? {
      ScanErrors(ReadVars(b, 3).rest, ReadVars(b, 3).value[0], ReadVars(b, 3).value[2]);
    }
  }
}

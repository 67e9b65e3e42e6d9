/**
 The close frames (src/frame.rs), whose encoders cut the reason to the room left in the packet:
 what arrives of them, and when they keep to that room.
 */
module CloseFrames {
  import opened Prelude
  import opened Coding
  import opened Frames

  /** The caller asks for a close frame only with more room than this (src/connection/mod.rs). */
  const SIZE_BOUND := 1 + 8 + 8 + 8

  predicate IsClose(f: Frame) {
    f.ConnectionClose? || f.ApplicationClose?
  }

  function TypeSize(f: Frame): nat
    requires IsClose(f)
  {
    if f.ApplicationClose? then 0 else VarSize(if f.frameType.None? then 0 else f.frameType.value)
  }

  lemma SizesBounded(x: nat)
    ensures 1 <= VarSize(x) <= 8 && (VarSize(x) <= 2 <==> x < 0x4000)
  {
    Powers();
  }

  /** Octets the encoder allows the reason.  The error code is taken to need no more than two. */
  function Room(f: Frame, maxLen: nat): nat
    requires IsClose(f) && SIZE_BOUND < maxLen
  {
    SizesBounded(|f.reason|);
    SizesBounded(if f.ConnectionClose? && f.frameType.Some? then f.frameType.value else 0);
    maxLen - 3 - TypeSize(f) - VarSize(|f.reason|)
  }

  /** The frame as it is written. */
  function Cut(f: Frame, maxLen: nat): Frame
    requires IsClose(f) && SIZE_BOUND < maxLen
  {
    var n := Min(|f.reason|, Room(f, maxLen));
    if f.ConnectionClose? then ConnectionClose(f.code, f.frameType, f.reason[..n])
    else ApplicationClose(f.code, f.reason[..n])
  }

  /** The receiver gets the code, the type and the reason up to the room there was. */
  lemma CutRoundTrip(ext: ExtCodec, f: Frame, maxLen: nat, rest: seq<byte>)
    requires IsClose(f) && Valid(ext, f) && SIZE_BOUND < maxLen
    ensures var w := Cut(f, maxLen);
            && IsClose(w) && Valid(ext, w) && TryNext(ext, Encode(ext, w) + rest) == Ok((w, rest))
            && w.code == f.code && w.reason <= f.reason && (w == f <==> |f.reason| <= Room(f, maxLen))
  {
    FrameRoundTrip(ext, Cut(f, maxLen), rest);
    hide TryNext, Encode;
  }

  lemma SizeMonotone(x: nat, y: nat)
    requires x <= y
    ensures VarSize(x) <= VarSize(y)
  {
    Powers();
  }

  lemma VarLength(x: nat)
    requires x < VARINT_LIMIT
    ensures |Var(x)| == VarSize(x)
  {
  }

  lemma VarsLength(v: seq<nat>)
    requires AllVar(v) && v != []
    ensures AllVar(v[1..]) && |Vars(v)| == |Var(v[0])| + |Vars(v[1..])| && Vars([]) == []
  {
  }

  lemma EncodedSize(ext: ExtCodec, f: Frame)
    requires IsClose(f) && Valid(ext, f)
    ensures |Encode(ext, f)| == 1 + VarSize(f.code) + TypeSize(f) + VarSize(|f.reason|) + |f.reason|
  {
    var w := WithData(f).value;
    VarLength(w.0);
    VarLength(w.1[0]);
    VarLength(|f.reason|);
    if f.ConnectionClose? {
      VarLength(w.1[1]);
      VarsLength([w.1[1]]);
      assert w.1[1..] == [w.1[1]];
    }
    VarsLength(w.1);
    hide Vars, Var;
  }

  /** An error code below 2^14 leaves the frame within its room, whatever the reason. */
  lemma CloseFits(ext: ExtCodec, f: Frame, maxLen: nat)
    requires IsClose(f) && Valid(ext, f) && SIZE_BOUND < maxLen && f.code < 0x4000
    ensures Valid(ext, Cut(f, maxLen)) && |Encode(ext, Cut(f, maxLen))| <= maxLen
  {
    var w := Cut(f, maxLen);
    EncodedSize(ext, w);
    SizesBounded(f.code);
    SizeMonotone(|w.reason|, |f.reason|);
    hide Encode;
  }

  /** A reason that had to be cut leaves the frame as long as its room, but for what the code needs besides
      two octets and what the shorter length saves. */
  lemma CutFillsRoom(ext: ExtCodec, f: Frame, maxLen: nat)
    requires IsClose(f) && Valid(ext, f) && SIZE_BOUND < maxLen && Cut(f, maxLen) != f
    ensures var w := Cut(f, maxLen);
            && Valid(ext, w)
            && |Encode(ext, w)| == maxLen + (VarSize(f.code) - 2) - (VarSize(|f.reason|) - VarSize(|w.reason|))
  {
    EncodedSize(ext, Cut(f, maxLen));
    hide Encode, VarSize;
  }

  ghost predicate FitsIn(ext: ExtCodec, f: Frame, maxLen: nat)
    requires IsClose(f) && SIZE_BOUND < maxLen
  {
    Valid(ext, Cut(f, maxLen)) && |Encode(ext, Cut(f, maxLen))| <= maxLen
  }

  /** Close frames with this code keep to their room, whatever the reason and the room. */
  ghost predicate AlwaysFits(ext: ExtCodec, code: nat) {
    forall f: Frame, maxLen: nat | IsClose(f) && f.code == code && Valid(ext, f) && SIZE_BOUND < maxLen ::
      FitsIn(ext, f, maxLen)
  }

  lemma LongReasonOverruns(ext: ExtCodec, code: nat)
    requires 0x4000 <= code < VARINT_LIMIT
    ensures var f := ApplicationClose(code, seq(100, _ => 0));
            Valid(ext, f) && !FitsIn(ext, f, 100)
  {
    var f := ApplicationClose(code, seq(100, _ => 0));
    EncodedSize(ext, Cut(f, 100));
    SizesBounded(code);
    Powers();
    hide Encode;
  }

  /** Two octets are set aside for the error code, and that is enough exactly below 2^14. */
  lemma CloseFitsIff(ext: ExtCodec, code: nat)
    requires code < VARINT_LIMIT
    ensures AlwaysFits(ext, code) <==> code < 0x4000
  {
    hide Encode, Cut, Valid;
    if code < 0x4000 {
      forall f: Frame, maxLen: nat | IsClose(f) && f.code == code && Valid(ext, f) && SIZE_BOUND < maxLen
        ensures FitsIn(ext, f, maxLen)
      {
        CloseFits(ext, f, maxLen);
      }
    } else {
      LongReasonOverruns(ext, code);
    }
  }
}

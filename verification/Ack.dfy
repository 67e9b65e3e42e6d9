/**
 ACK frames (src/frame.rs): the encoder, the validating scan and the lazy iterator over the
 ranges of section 19.3.1 of RFC 9000, and the agreement of the three.
 */
module AckFrames {
  import opened Prelude
  import opened Coding
  import opened RangeSet

  datatype IterErr = UnexpectedEnd | InvalidFrameId | Malformed

  /** The inclusive range `lo..=hi`. */
  datatype Span = Span(lo: nat, hi: nat)

  datatype EcnCounts = EcnCounts(ect0: nat, ect1: nat, ce: nat)

  // ----- the wire form of a range set -----

  /** The ranges of a set, highest first. */
  function Descending(rs: seq<Range>): (d: seq<Span>)
    requires forall i | 0 <= i < |rs| :: rs[i].start < rs[i].end
    ensures |d| == |rs|
  {
    if rs == [] then [] else
    var top := rs[|rs| - 1];
    [Span(top.start, top.end - 1)] + Descending(rs[..|rs| - 1])
  }

  /** Block length, then gap and block length for each further range, highest first. */
  function Blocks(rs: seq<Range>): seq<byte>
    requires rs != [] && WellFormed(rs) && rs[|rs| - 1].end <= VARINT_LIMIT
    decreases |rs|, 0
  {
    var top, below := rs[|rs| - 1], rs[..|rs| - 1];
    Var(top.end - top.start - 1) + GapAndBlocks(top.start, below)
  }

  /** What follows the block of a range that starts at `prev`. */
  function GapAndBlocks(prev: nat, below: seq<Range>): seq<byte>
    requires WellFormed(below) && (below != [] ==> below[|below| - 1].end < prev <= VARINT_LIMIT)
    decreases |below|, 1
  {
    if below == [] then [] else Var(prev - below[|below| - 1].end - 1) + Blocks(below)
  }

  // ----- the validating scan -----

  /** What is left of `b` after `n` + 1 blocks counting down from `largest`. */
  function Scan(b: seq<byte>, largest: nat, n: nat): Result<seq<byte>, IterErr>
    decreases n, 1
  {
    match ReadVar(b)
    case Short => Err(UnexpectedEnd)
    case Got(block, rest) => if largest < block then Err(Malformed) else ScanGaps(rest, largest - block, n)
  }

  /** What is left of `b` after `n` pairs of gap and block below `smallest`. */
  function ScanGaps(b: seq<byte>, smallest: nat, n: nat): Result<seq<byte>, IterErr>
    decreases n, 0
  {
    if n == 0 then Ok(b) else
    match ReadVar(b)
    case Short => Err(UnexpectedEnd)
    case Got(gap, rest) => if smallest < gap + 2 then Err(Malformed) else Scan(rest, smallest - gap - 2, n - 1)
  }

  lemma {:induction false} ScanLeavesSuffix(b: seq<byte>, largest: nat, n: nat)
    requires Scan(b, largest, n).Ok?
    ensures |Scan(b, largest, n).value| < |b|
    ensures Scan(b, largest, n).value == b[|b| - |Scan(b, largest, n).value|..]
    decreases n
  {
    hide ReadVar;
    ReadVarBounds(b);
    var rest := ReadVar(b).rest;
    if n > 0 {
      ReadVarBounds(rest);
      ScanLeavesSuffix(ReadVar(rest).rest, largest - ReadVar(b).value - ReadVar(rest).value - 2, n - 1);
    }
  }

  /** Validates exactly `n` + 1 blocks of `buf` and returns the number of octets they cover. */
  method ScanAckBlocks(buf: seq<byte>, largest: nat, n: nat) returns (r: Result<nat, IterErr>)
    ensures Scan(buf, largest, n).Err? ==> r == Err(Scan(buf, largest, n).error)
    ensures Scan(buf, largest, n).Ok? ==> r == Ok(|buf| - |Scan(buf, largest, n).value|)
  {
    hide ReadVar;
    if Scan(buf, largest, n).Ok? {
      ScanLeavesSuffix(buf, largest, n);
    }
    var first := ReadVar(buf);
    if first.Short? {
      return Err(UnexpectedEnd);
    }
    if largest < first.value {
      return Err(Malformed);
    }
    var smallest: nat, rest := largest - first.value, first.rest;
    for i := 0 to n
      invariant Scan(buf, largest, n) == ScanGaps(rest, smallest, n - i)
    {
      var gap := ReadVar(rest);
      if gap.Short? {
        return Err(UnexpectedEnd);
      }
      if smallest < gap.value + 2 {
        return Err(Malformed);
      }
      smallest := smallest - (gap.value + 2);
      var block := ReadVar(gap.rest);
      if block.Short? {
        return Err(UnexpectedEnd);
      }
      if smallest < block.value {
        return Err(Malformed);
      }
      smallest, rest := smallest - block.value, block.rest;
    }
    r := Ok(|buf| - |rest|);
  }

  // ----- the lazy iterator -----

  /** What is left of the input of a variable-length read that came up short. */
  function AfterShort(b: seq<byte>): seq<byte> {
    if b == [] then [] else b[1..]
  }

  /** Everything the iterator yields from `data`, or None if one of its subtractions would go
      below zero. */
  function Collect(largest: nat, data: seq<byte>): Option<seq<Span>>
    decreases |data|
  {
    match ReadVar(data)
    case Short => Some([])
    case Got(block, rest) =>
      ReadVarShrinks(data);
      var gap := ReadVar(rest);
      if gap.Got? then
        ReadVarShrinks(rest);
        if largest < block + gap.value + 2 then None
        else Cons(Span(largest - block, largest), Collect(largest - block - gap.value - 2, gap.rest))
      else if largest < block then None
      else Cons(Span(largest - block, largest), Collect(largest, AfterShort(rest)))
  }

  function Cons(s: Span, tail: Option<seq<Span>>): Option<seq<Span>> {
    if tail.None? then None else Some([s] + tail.value)
  }

  class AckIter {
    var largest: nat
    var data: seq<byte>

    constructor (largest: nat, data: seq<byte>)
      ensures this.largest == largest && this.data == data
    {
      this.largest, this.data := largest, data;
    }

    /** Yields the next range; the iterator stays within what `Collect` promises. */
    method Next() returns (r: Option<Span>)
      requires Collect(largest, data).Some?
      modifies this
      ensures r.None? ==> old(Collect(largest, data)) == Some([])
      ensures r.Some? ==> Collect(largest, data).Some?
      ensures r.Some? ==> old(Collect(largest, data)) == Some([r.value] + Collect(largest, data).value)
    {
      hide ReadVar;
      var block := ReadVar(data);
      if block.Short? {
        data := AfterShort(data);
        return None;
      }
      ReadVarShrinks(data);
      var top := largest;
      var gap := ReadVar(block.rest);
      if gap.Got? {
        ReadVarShrinks(block.rest);
        data, largest := gap.rest, largest - (block.value + gap.value + 2);
      } else {
        data := AfterShort(block.rest);
      }
      r := Some(Span(top - block.value, top));
    }
  }

  /** Runs the iterator to its end. */
  method Drain(largest: nat, data: seq<byte>) returns (spans: seq<Span>)
    requires Collect(largest, data).Some?
    ensures spans == Collect(largest, data).value
  {
    hide Collect;
    var iter := new AckIter(largest, data);
    spans := [];
    var next := iter.Next();
    while next.Some?
      invariant next.Some? ==> Collect(iter.largest, iter.data).Some?
      invariant Collect(largest, data).value
             == spans + if next.Some? then [next.value] + Collect(iter.largest, iter.data).value else []
      decreases |Collect(largest, data).value| - |spans|
    {
      spans := spans + [next.value];
      next := iter.Next();
    }
  }

  // ----- scan and iterator agree on arbitrary octets -----

  /** Non-empty spans from `largest` down, with at least one number missing between neighbours. */
  ghost predicate Proper(spans: seq<Span>, largest: nat) {
    && spans != [] && spans[0].hi == largest
    && (forall i | 0 <= i < |spans| :: spans[i].lo <= spans[i].hi <= largest)
    && (forall i, j | 0 <= i < j < |spans| :: spans[j].hi + 2 <= spans[i].lo)
  }

  lemma ProperPrepend(s: Span, rest: seq<Span>, below: nat)
    requires s.lo <= s.hi && Proper(rest, below) && below + 2 <= s.lo
    ensures Proper([s] + rest, s.hi)
  {
  }

  /** The octets a successful read used. */
  function Used(b: seq<byte>): seq<byte>
    requires ReadVar(b).Got?
  {
    b[..TaggedLength(b[0])]
  }

  lemma UsedReads(b: seq<byte>, more: seq<byte>)
    requires ReadVar(b).Got?
    ensures b == Used(b) + ReadVar(b).rest
    ensures ReadVar(Used(b) + more) == Got(ReadVar(b).value, more)
  {
    var n := TaggedLength(b[0]);
    assert (Used(b) + more)[1..n] == b[1..n];
    assert (Used(b) + more)[n..] == more;
  }

  lemma NothingToRead()
    ensures ReadVar([]) == Short
  {
  }

  /** One block and one gap further down. */
  lemma DescendStep(b: seq<byte>, block: nat, rest: seq<byte>, gap: nat, rest': seq<byte>,
                    largest: nat, below: nat, n: nat)
    requires ReadVar(b) == Got(block, rest) && ReadVar(rest) == Got(gap, rest')
    requires largest == below + block + gap + 2 && n > 0
    ensures Scan(b, largest, n) == Scan(rest', below, n - 1)
    ensures Collect(largest, b) == Cons(Span(largest - block, largest), Collect(below, rest'))
  {
    hide ReadVar;
    assert largest - block - gap - 2 == below;
    assert Scan(b, largest, n) == ScanGaps(rest, largest - block, n);
  }

  lemma DescendEnd(b: seq<byte>, block: nat, rest: seq<byte>, largest: nat)
    requires ReadVar(b) == Got(block, rest) && block <= largest
    ensures Scan(b, largest, 0) == Ok(rest)
    ensures rest == [] ==> Collect(largest, b) == Some([Span(largest - block, largest)])
  {
    hide ReadVar;
    assert Scan(b, largest, 0) == ScanGaps(rest, largest - block, 0);
    if rest == [] {
      NothingToRead();
      assert Collect(largest, rest) == Some([]);
      assert [Span(largest - block, largest)] + [] == [Span(largest - block, largest)];
    }
  }

  /** On any octets at all: if the scan accepts `n` further blocks, the iterator run on the octets
      it covered never subtracts below zero and yields `n` + 1 proper spans. */
  lemma {:induction false} ScanMakesIterationSafe(b: seq<byte>, largest: nat, n: nat)
    requires Scan(b, largest, n).Ok?
    ensures |Scan(b, largest, n).value| <= |b|
    ensures var covered := b[..|b| - |Scan(b, largest, n).value|];
            && Scan(covered, largest, n) == Ok([])
            && Collect(largest, covered).Some?
            && |Collect(largest, covered).value| == n + 1
            && Proper(Collect(largest, covered).value, largest)
    decreases n
  {
    hide ReadVar, Collect, Used;
    ScanLeavesSuffix(b, largest, n);
    var left := Scan(b, largest, n).value;
    var block, rest := ReadVar(b).value, ReadVar(b).rest;
    var covered := b[..|b| - |left|];
    UsedReads(b, []);
    if n == 0 {
      DescendEnd(b, block, rest, largest);
      assert covered == Used(b) + [];
      DescendEnd(covered, block, [], largest);
    } else {
      var gap, rest' := ReadVar(rest).value, ReadVar(rest).rest;
      assert Scan(b, largest, n) == ScanGaps(rest, largest - block, n);
      var below := largest - block - gap - 2;
      DescendStep(b, block, rest, gap, rest', largest, below, n);
      ScanMakesIterationSafe(rest', below, n - 1);
      ScanLeavesSuffix(rest', below, n - 1);
      var inner := rest'[..|rest'| - |left|];
      UsedReads(rest, inner);
      UsedReads(b, Used(rest) + inner);
      assert covered == Used(b) + (Used(rest) + inner);
      DescendStep(covered, block, Used(rest) + inner, gap, inner, largest, below, n);
      ProperPrepend(Span(largest - block, largest), Collect(below, inner).value, below);
    }
  }

  // ----- round trip -----

  lemma OneBlock(r: Range, largest: nat, rest: seq<byte>)
    requires r.start < r.end == largest + 1 <= VARINT_LIMIT
    ensures Scan(Blocks([r]) + rest, largest, 0) == Ok(rest)
    ensures Collect(largest, Blocks([r])) == Some(Descending([r]))
  {
    hide ReadVar, Var, Collect, Scan;
    var size := r.end - r.start - 1;
    assert [r][..0] == [];
    assert Blocks([r]) == Var(size) + [] == Var(size);
    ReadVarBack(size, rest);
    ReadVarBack(size, []);
    DescendEnd(Blocks([r]) + rest, size, rest, largest);
    DescendEnd(Blocks([r]), size, [], largest);
    assert Descending([r]) == [Span(r.start, r.end - 1)] + Descending([r][..0]) == [Span(largest - size, largest)];
  }

  /** Scanning and iterating over the blocks of a set give the set back, highest range first. */
  lemma {:induction false} BlocksRoundTrip(rs: seq<Range>, largest: nat, n: nat, rest: seq<byte>)
    requires WellFormed(rs) && |rs| == n + 1 && rs[n].end == largest + 1 <= VARINT_LIMIT
    ensures Scan(Blocks(rs) + rest, largest, n) == Ok(rest)
    ensures Collect(largest, Blocks(rs)) == Some(Descending(rs))
  {
    hide ReadVar, Var, Collect, Scan;
    var top, below := rs[n], rs[..n];
    if n == 0 {
      assert rs == [top];
      OneBlock(top, largest, rest);
    } else {
      var size, next := top.end - top.start - 1, below[n - 1].end - 1;
      var gap := top.start - next - 2;
      var tail := Blocks(below);
      BlocksRoundTrip(below, next, n - 1, rest);
      assert Blocks(rs) == Var(size) + (Var(gap) + tail);
      ReadVarBack(size, Var(gap) + tail);
      ReadVarBack(gap, tail);
      DescendStep(Blocks(rs), size, Var(gap) + tail, gap, tail, largest, next, n);
      assert Blocks(rs) + rest == Var(size) + (Var(gap) + (tail + rest));
      ReadVarBack(size, Var(gap) + (tail + rest));
      ReadVarBack(gap, tail + rest);
      DescendStep(Blocks(rs) + rest, size, Var(gap) + (tail + rest), gap, tail + rest, largest, next, n);
    }
  }

  // ----- the encoder -----

  ghost predicate EcnInRange(ecn: Option<EcnCounts>) {
    ecn.Some? ==> ecn.value.ect0 < VARINT_LIMIT && ecn.value.ect1 < VARINT_LIMIT && ecn.value.ce < VARINT_LIMIT
  }

  /** What the encoder can express. */
  ghost predicate Encodable(delay: nat, rs: seq<Range>, ecn: Option<EcnCounts>) {
    && rs != [] && rs[|rs| - 1].end <= VARINT_LIMIT
    && delay < VARINT_LIMIT && EcnInRange(ecn)
  }

  function EcnBytes(ecn: Option<EcnCounts>): seq<byte>
    requires EcnInRange(ecn)
  {
    if ecn.None? then [] else Var(ecn.value.ect0) + Var(ecn.value.ect1) + Var(ecn.value.ce)
  }

  /** ACK or ACK_ECN. */
  function AckType(ecn: Option<EcnCounts>): nat {
    if ecn.Some? then 3 else 2
  }

  /** There are never more ranges than numbers up to the last one. */
  lemma {:induction false} FewRanges(rs: seq<Range>)
    requires rs != [] && WellFormed(rs)
    ensures |rs| <= rs[|rs| - 1].end
  {
    if |rs| > 1 {
      FewRanges(rs[..|rs| - 1]);
    }
  }

  /** An ACK frame after its type. */
  function AckBody(delay: nat, rs: seq<Range>, ecn: Option<EcnCounts>): seq<byte>
    requires WellFormed(rs) && Encodable(delay, rs, ecn)
  {
    FewRanges(rs);
    Var(rs[|rs| - 1].end - 1) + Var(delay) + Var(|rs| - 1) + Blocks(rs) + EcnBytes(ecn)
  }

  /** An output buffer with the failing write of the source. */
  class Writer {
    var buf: seq<byte>

    constructor ()
      ensures buf == []
    {
      buf := [];
    }

    method WriteVar(x: nat) returns (ok: bool)
      modifies this
      ensures ok <==> x < VARINT_LIMIT
      ensures buf == if ok then old(buf) + Var(x) else old(buf)
    {
      var e := EncodeVar(x);
      ok := e.Some?;
      if ok {
        buf := buf + e.value;
      }
    }
  }

  lemma BlocksSplit(rs: seq<Range>, k: nat, size: nat)
    requires WellFormed(rs) && |rs| == k + 1 && rs[k].end <= VARINT_LIMIT
    requires size == rs[k].end - rs[k].start - 1
    ensures Blocks(rs) == Var(size) + GapAndBlocks(rs[k].start, rs[..k])
  {
    hide Var;
    hide WellFormed, GapAndBlocks;
    assert |rs| - 1 == k;
  }

  lemma GapUnfold(prev: nat, rs: seq<Range>, k: nat, gap: nat)
    requires WellFormed(rs) && |rs| == k + 1 && rs[k].end < prev <= VARINT_LIMIT
    requires gap == prev - rs[k].end - 1
    ensures GapAndBlocks(prev, rs) == Var(gap) + Blocks(rs)
  {
    hide Var, Blocks;
  }

  lemma GapSplit(prev: nat, rs: seq<Range>, k: nat, gap: nat, size: nat)
    requires WellFormed(rs) && |rs| == k + 1 && rs[k].end < prev <= VARINT_LIMIT
    requires gap == prev - rs[k].end - 1 && size == rs[k].end - rs[k].start - 1
    ensures GapAndBlocks(prev, rs) == Var(gap) + Var(size) + GapAndBlocks(rs[k].start, rs[..k])
  {
    hide Var, Blocks, GapAndBlocks;
    GapUnfold(prev, rs, k, gap);
    BlocksSplit(rs, k, size);
    Regroup([], Var(gap), Var(size), GapAndBlocks(rs[k].start, rs[..k]));
  }

  lemma Regroup(w: seq<byte>, a: seq<byte>, b: seq<byte>, t: seq<byte>)
    ensures (w + a) + b + t == w + (a + b + t)
  {
  }

  lemma NothingBelow(prev: nat)
    ensures GapAndBlocks(prev, []) == []
  {
  }

  /** Writes the block of the highest range, then gap and block of each lower one. */
  method WriteBlocks(rs: seq<Range>, out: Writer) returns (ok: bool)
    requires rs != [] && WellFormed(rs) && rs[|rs| - 1].end <= VARINT_LIMIT
    modifies out
    ensures ok && out.buf == old(out.buf) + Blocks(rs)
  {
    hide Var, Blocks, GapAndBlocks;
    var k := |rs| - 1;
    var size := rs[k].end - rs[k].start - 1;
    ok := out.WriteVar(size);
    var prev := rs[k].start;
    ghost var below := rs[..k];
    BlocksSplit(rs, k, size);
    while k > 0
      invariant 0 <= k < |rs| && prev == rs[k].start && ok && below == rs[..k]
      invariant out.buf + GapAndBlocks(prev, below) == old(out.buf) + Blocks(rs)
    {
      k := k - 1;
      var gap := prev - rs[k].end - 1;
      size := rs[k].end - rs[k].start - 1;
      GapSplit(prev, below, k, gap, size);
      Regroup(out.buf, Var(gap), Var(size), GapAndBlocks(rs[k].start, below[..k]));
      below := below[..k];
      ok := out.WriteVar(gap);
      ok := out.WriteVar(size);
      prev := rs[k].start;
    }
    NothingBelow(prev);
  }

  method WriteEcn(ecn: EcnCounts, out: Writer) returns (ok: bool)
    modifies out
    ensures ok <==> EcnInRange(Some(ecn))
    ensures ok ==> out.buf == old(out.buf) + EcnBytes(Some(ecn))
  {
    hide Var;
    ok := out.WriteVar(ecn.ect0);
    if !ok { return; }
    ok := out.WriteVar(ecn.ect1);
    if !ok { return; }
    ok := out.WriteVar(ecn.ce);
  }

  /** Encodes an ACK frame; fails, with part of it written, exactly on what cannot be expressed. */
  method TryEncodeAck(delay: nat, rs: seq<Range>, ecn: Option<EcnCounts>, out: Writer) returns (ok: bool)
    requires WellFormed(rs)
    modifies out
    ensures ok <==> Encodable(delay, rs, ecn)
    ensures ok ==> out.buf == old(out.buf) + (Var(AckType(ecn)) + AckBody(delay, rs, ecn))
  {
    hide Var, Blocks;
    if rs == [] {
      return false;
    }
    var largest := rs[|rs| - 1].end - 1;
    ok := out.WriteVar(AckType(ecn));
    ok := out.WriteVar(largest);
    if !ok { return; }
    ok := out.WriteVar(delay);
    if !ok { return; }
    FewRanges(rs);
    ok := out.WriteVar(|rs| - 1);
    ok := WriteBlocks(rs, out);
    if ecn.Some? {
      ok := WriteEcn(ecn.value, out);
    }
  }
}

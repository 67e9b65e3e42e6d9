/**
 Sets of packet numbers kept as sorted ranges (src/range_set/array_range_set.rs).
 */
module RangeSet {
  import opened Prelude

  /** The half-open range `start..end`. */
  datatype Range = Range(start: nat, end: nat)

  ghost predicate Within(r: Range, v: nat) {
    r.start <= v < r.end
  }

  /** Non-empty ranges in increasing order, no two of them overlapping or touching. */
  ghost predicate WellFormed(rs: seq<Range>) {
    && (forall i | 0 <= i < |rs| :: rs[i].start < rs[i].end)
    && (forall i, j | 0 <= i < j < |rs| :: rs[i].end < rs[j].start)
  }

  ghost predicate Has(rs: seq<Range>, v: nat) {
    exists i :: 0 <= i < |rs| && Within(rs[i], v)
  }

  lemma HasConcat(a: seq<Range>, b: seq<Range>, v: nat)
    ensures Has(a + b, v) <==> Has(a, v) || Has(b, v)
  {
    var c := a + b;
    if Has(a, v) {
      var i :| 0 <= i < |a| && Within(a[i], v);
      assert Within(c[i], v);
    }
    if Has(b, v) {
      var i :| 0 <= i < |b| && Within(b[i], v);
      assert Within(c[|a| + i], v);
    }
    if Has(c, v) {
      var i :| 0 <= i < |c| && Within(c[i], v);
      if i < |a| {
        assert Within(a[i], v);
      } else {
        assert Within(b[i - |a|], v);
      }
    }
  }

  lemma HasOne(r: Range, v: nat)
    ensures Has([r], v) <==> Within(r, v)
  {
    if Within(r, v) {
      assert Within([r][0], v);
    }
  }

  lemma HasThree(a: seq<Range>, r: Range, b: seq<Range>, v: nat)
    ensures Has(a + [r] + b, v) <==> Has(a, v) || Within(r, v) || Has(b, v)
  {
    HasConcat(a + [r], b, v);
    HasConcat(a, [r], v);
    HasOne(r, v);
  }

  /** `a` stays clear of everything from `lo` on, `b` of everything up to `hi`. */
  ghost predicate Around(a: seq<Range>, lo: nat, hi: nat, b: seq<Range>) {
    && WellFormed(a) && WellFormed(b)
    && (forall i | 0 <= i < |a| :: a[i].end < lo)
    && (forall i | 0 <= i < |b| :: hi < b[i].start)
  }

  lemma AroundWellFormed(a: seq<Range>, r: Range, b: seq<Range>)
    requires r.start < r.end && Around(a, r.start, r.end, b)
    ensures WellFormed(a + [r] + b)
  {
  }

  /** `after` is well formed and holds what `before` held together with the numbers of `x`. */
  ghost predicate Union(before: seq<Range>, x: Range, after: seq<Range>) {
    && WellFormed(after)
    && forall v: nat :: Has(after, v) <==> Has(before, v) || Within(x, v)
  }

  lemma NotHas(a: seq<Range>, v: nat, b: seq<Range>)
    requires forall i | 0 <= i < |a| :: a[i].end <= v
    requires forall i | 0 <= i < |b| :: v < b[i].start
    ensures !Has(a + b, v)
  {
  }

  /** What lies before and after a range stays clear of it and of what meets it from the left. */
  lemma AroundAt(rs: seq<Range>, idx: nat, x: Range)
    requires WellFormed(rs) && idx < |rs| && forall i | 0 <= i < idx :: rs[i].end < x.start
    ensures Around(rs[..idx], Min(x.start, rs[idx].start), rs[idx].end, rs[idx + 1..])
  {
  }

  /** Growing a range to the left, as far as the start of `x`, adds `x`. */
  lemma GrowsLeft(pre: seq<Range>, range: Range, post: seq<Range>, x: Range)
    requires range.start < range.end && Around(pre, Min(x.start, range.start), range.end, post)
    requires x.start < x.end && range.start <= x.end <= range.end
    ensures Union(pre + [range] + post, x, pre + [Range(Min(x.start, range.start), range.end)] + post)
  {
    var grown := Range(Min(x.start, range.start), range.end);
    AroundWellFormed(pre, grown, post);
    hide Has, Around, WellFormed;
    forall v: nat ensures Has(pre + [grown] + post, v) <==> Has(pre + [range] + post, v) || Within(x, v) {
      HasThree(pre, range, post, v);
      HasThree(pre, grown, post, v);
    }
  }

  lemma SplitAt(rs: seq<Range>, idx: nat)
    requires idx < |rs|
    ensures rs == rs[..idx] + [rs[idx]] + rs[idx + 1..]
    ensures rs == rs[..idx] + ([rs[idx]] + rs[idx + 1..])
  {
  }

  lemma ReplaceAt(rs: seq<Range>, idx: nat, r: Range)
    requires idx < |rs|
    ensures rs[idx := r] == rs[..idx] + [r] + rs[idx + 1..]
  {
  }

  lemma StartMissing(rs: seq<Range>, idx: nat, x: Range)
    requires WellFormed(rs) && idx < |rs| && forall i | 0 <= i < idx :: rs[i].end < x.start
    requires x.start < rs[idx].start
    ensures !Has(rs, x.start)
  {
    SplitAt(rs, idx);
    NotHas(rs[..idx], x.start, [rs[idx]] + rs[idx + 1..]);
  }

  lemma ExtendsLeft(rs: seq<Range>, idx: nat, x: Range)
    requires WellFormed(rs) && idx < |rs| && forall i | 0 <= i < idx :: rs[i].end < x.start
    requires x.start < x.end && rs[idx].start <= x.end <= rs[idx].end
    ensures if rs[idx].start > x.start then
              Union(rs, x, rs[idx := Range(x.start, rs[idx].end)]) && !Has(rs, x.start)
            else Union(rs, x, rs)
  {
    var range := rs[idx];
    assert range.start < range.end;
    hide Has, WellFormed, Around, Union;
    AroundAt(rs, idx, x);
    GrowsLeft(rs[..idx], range, rs[idx + 1..], x);
    SplitAt(rs, idx);
    if range.start > x.start {
      StartMissing(rs, idx, x);
      ReplaceAt(rs, idx, Range(x.start, range.end));
    }
  }

  lemma MergeKeeps(pre: seq<Range>, cur: Range, next: Range, merged: Range, post: seq<Range>, v: nat)
    requires cur.start <= next.start <= cur.end && next.start < next.end
    requires merged == Range(cur.start, Max(cur.end, next.end))
    ensures Has(pre + [merged] + post, v) <==> Has(pre + [cur] + ([next] + post), v)
  {
    HasThree(pre, merged, post, v);
    HasThree(pre, cur, [next] + post, v);
    HasConcat([next], post, v);
    HasOne(next, v);
  }

  class ArrayRangeSet {
    var ranges: seq<Range>

    constructor ()
      ensures ranges == []
    {
      ranges := [];
    }

    /** Absorbs into the range at `idx` every later range it reaches. */
    method MergeFollowing(idx: nat)
      requires idx < |ranges|
      requires ranges[idx].start < ranges[idx].end
      requires WellFormed(ranges[..idx]) && WellFormed(ranges[idx + 1..])
      requires forall i | 0 <= i < idx :: ranges[i].end < ranges[idx].start
      requires forall i | idx < i < |ranges| :: ranges[idx].start <= ranges[i].start
      modifies this
      ensures WellFormed(ranges)
      ensures forall v: nat :: Has(ranges, v) <==> old(Has(ranges, v))
    {
      hide Has;
      ghost var pre, post := ranges[..idx], ranges[idx + 1..];
      assert ranges == pre + [ranges[idx]] + post;
      while idx + 1 < |ranges| && ranges[idx].end >= ranges[idx + 1].start
        invariant idx < |ranges| && ranges == pre + [ranges[idx]] + post
        invariant ranges[idx].start == old(ranges[idx].start) < ranges[idx].end
        invariant WellFormed(post)
        invariant forall i | 0 <= i < |post| :: ranges[idx].start <= post[i].start
        invariant forall v: nat :: Has(ranges, v) <==> old(Has(ranges, v))
        decreases |ranges|
      {
        var cur, next := ranges[idx], ranges[idx + 1];
        var merged := Range(cur.start, if next.end >= cur.end then next.end else cur.end);
        assert next == post[0] && post == [next] + post[1..];
        forall v: nat ensures Has(pre + [merged] + post[1..], v) <==> Has(ranges, v) {
          MergeKeeps(pre, cur, next, merged, post[1..], v);
        }
        assert ranges[..idx] == pre && ranges[idx + 2..] == post[1..];
        ranges := ranges[..idx] + [merged] + ranges[idx + 2..];
        post := post[1..];
      }
      AroundWellFormed(pre, ranges[idx], post);
    }

    /** Adds `x` as a range of its own in front of the one at `idx`. */
    method InsertApart(idx: nat, x: Range) returns (changed: bool)
      requires idx <= |ranges| && x.start < x.end
      requires Around(ranges[..idx], x.start, x.end, ranges[idx..])
      modifies this
      ensures Union(old(ranges), x, ranges)
      ensures changed && !Has(old(ranges), x.start)
    {
      ghost var pre, post := ranges[..idx], ranges[idx..];
      assert ranges == pre + post;
      NotHas(pre, x.start, post);
      ranges := ranges[..idx] + [x] + ranges[idx..];
      AroundWellFormed(pre, x, post);
      forall v: nat ensures Has(ranges, v) <==> Has(pre + post, v) || Within(x, v) {
        HasThree(pre, x, post, v);
        HasConcat(pre, post, v);
      }
      changed := true;
    }

    /** Adds `x` when the range at `idx` reaches as far as its end. */
    method ExtendLeft(idx: nat, x: Range) returns (changed: bool)
      requires WellFormed(ranges)
      requires idx < |ranges| && x.start < x.end
      requires forall i | 0 <= i < idx :: ranges[i].end < x.start
      requires ranges[idx].start <= x.end <= ranges[idx].end
      modifies this
      ensures Union(old(ranges), x, ranges)
      ensures changed ==> !Has(old(ranges), x.start)
      ensures !changed ==> forall v: nat :: Within(x, v) ==> Has(old(ranges), v)
    {
      hide Has, WellFormed;
      ExtendsLeft(ranges, idx, x);
      var range := ranges[idx];
      changed := range.start > x.start;
      if changed {
        ranges := ranges[idx := Range(x.start, range.end)];
      }
    }

    /** Adds `x` when it meets the range at `idx` and goes beyond its end. */
    method ExtendRight(idx: nat, x: Range) returns (changed: bool)
      requires WellFormed(ranges)
      requires idx < |ranges| && x.start < x.end
      requires forall i | 0 <= i < idx :: ranges[i].end < x.start
      requires ranges[idx].start <= x.end && x.start <= ranges[idx].end < x.end
      modifies this
      ensures Union(old(ranges), x, ranges)
      ensures changed && !Has(old(ranges), old(ranges)[idx].end)
    {
      var range := ranges[idx];
      ghost var pre, post := ranges[..idx], ranges[idx + 1..];
      assert ranges == pre + [range] + post;
      assert ranges == (pre + [range]) + post;
      NotHas(pre + [range], range.end, post);
      var grown := Range(if range.start > x.start then x.start else range.start, x.end);
      ranges := ranges[idx := grown];
      assert ranges == pre + [grown] + post;
      assert ranges[..idx] == pre && ranges[idx + 1..] == post;
      ghost var extended := ranges;
      MergeFollowing(idx);
      forall v: nat ensures Has(ranges, v) <==> Has(pre + [range] + post, v) || Within(x, v) {
        HasThree(pre, range, post, v);
        HasThree(pre, grown, post, v);
        assert Has(ranges, v) <==> Has(extended, v);
      }
      changed := true;
    }

    /** Adds the numbers of `x`; tells whether any of them was missing. */
    method Insert(x: Range) returns (changed: bool)
      requires WellFormed(ranges)
      modifies this
      ensures Union(old(ranges), x, ranges)
      ensures changed <==> exists v: nat :: Within(x, v) && !Has(old(ranges), v)
    {
      if x.end <= x.start {
        return false;
      }
      var idx := 0;
      while idx != |ranges|
        invariant 0 <= idx <= |ranges|
        invariant ranges == old(ranges)
        invariant forall i | 0 <= i < idx :: ranges[i].end < x.start
      {
        var range := ranges[idx];
        if range.start > x.end {
          changed := InsertApart(idx, x);
          assert Within(x, x.start);
          return;
        }
        if x.end <= range.end {
          changed := ExtendLeft(idx, x);
          assert Within(x, x.start);
          return;
        }
        if x.start <= range.end {
          changed := ExtendRight(idx, x);
          assert Within(x, range.end);
          return;
        }
        idx := idx + 1;
      }
      changed := InsertApart(idx, x);
      assert Within(x, x.start);
    }
  }
}

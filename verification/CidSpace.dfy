/**
 Counting connection IDs: how many of a given length exist, and when one is still free
 (src/endpoint.rs, `cids_exhausted` and `new_cid`).
 */
module CidSpace {
  import opened Prelude
  import opened Coding

  function Below(n: nat): set<nat> {
    if n == 0 then {} else Below(n - 1) + {n - 1}
  }

  lemma {:induction false} CountBelow(n: nat)
    ensures |Below(n)| == n
    ensures forall x: nat :: x in Below(n) <==> x < n
  {
    if n > 0 {
      CountBelow(n - 1);
    }
  }

  ghost predicate OfLength(ids: set<Cid>, n: nat) {
    forall cid | cid in ids :: |cid| == n
  }

  /** The numbers that IDs spell, read as big-endian integers. */
  ghost function Values(ids: set<Cid>): set<nat> {
    set cid | cid in ids :: Value(cid)
  }

  lemma SameValue(a: Cid, b: Cid)
    requires |a| == |b| && Value(a) == Value(b)
    ensures a == b
  {
    BigEndianOfValue(a);
    BigEndianOfValue(b);
  }

  /** IDs of one length spell different numbers. */
  lemma {:induction false} CountValues(ids: set<Cid>, n: nat)
    requires OfLength(ids, n)
    ensures |Values(ids)| == |ids|
    decreases |ids|
  {
    if ids != {} {
      var cid :| cid in ids;
      var rest := ids - {cid};
      CountValues(rest, n);
      assert Values(ids) == Values(rest) + {Value(cid)};
      if Value(cid) in Values(rest) {
        var other :| other in rest && Value(other) == Value(cid);
        SameValue(cid, other);
      }
    }
  }

  /** There are never more IDs of a length than the space holds. */
  lemma SpaceBound(ids: set<Cid>, n: nat)
    requires OfLength(ids, n)
    ensures |ids| <= Pow256(n)
  {
    CountValues(ids, n);
    CountBelow(Pow256(n));
    forall cid | cid in ids ensures Value(cid) in Below(Pow256(n)) {
      BigEndianOfValue(cid);
    }
    Subset(Values(ids), Below(Pow256(n)));
  }

  lemma SomeMissing<T>(a: set<T>, b: set<T>) returns (x: T)
    requires |a| < |b|
    ensures x in b && x !in a
  {
    if b <= a {
      Subset(b, a);
      assert false;
    }
    x :| x in b && x !in a;
  }

  /** An ID of a length is free exactly when not all of that length are taken. */
  lemma FreeIffRoom(ids: set<Cid>, n: nat)
    requires OfLength(ids, n)
    ensures (exists cid: Cid :: |cid| == n && cid !in ids) <==> |ids| < Pow256(n)
  {
    hide Value, BigEndian, Below, Pow256;
    if |ids| < Pow256(n) {
      CountValues(ids, n);
      CountBelow(Pow256(n));
      var x := SomeMissing(Values(ids), Below(Pow256(n)));
      ValueOfBigEndian(x, n);
      assert |BigEndian(x, n)| == n && BigEndian(x, n) !in ids;
    }
    if cid: Cid :| |cid| == n && cid !in ids {
      SpaceBound(ids + {cid}, n);
    }
  }
}

/**
 The supply of connection IDs (src/endpoint.rs, `new_cid` and `cids_exhausted`;
 src/cid_generator.rs): when the loop that draws an ID ends, what the exhaustion check is worth,
 and for which generators it lets the supply run dry.
 */
module IdSupply {
  import opened Prelude
  import opened Coding
  import opened CidSpace
  import opened EndpointState
  import opened EndpointRuns

  /** The generator's IDs have the length it declares. */
  ghost predicate Declared(c: Config) {
    OfLength(c.space, c.cidLen)
  }

  ghost predicate DrawnAgain(draws: nat -> Cid, from: nat, cid: Cid) {
    exists k: nat :: from <= k && draws(k) == cid
  }

  /** A stream of IDs from `space` that never stops coming to any of them. */
  ghost predicate Fair(draws: nat -> Cid, space: set<Cid>) {
    && (forall k: nat :: draws(k) in space)
    && (forall from: nat, cid: Cid | cid in space :: DrawnAgain(draws, from, cid))
  }

  ghost predicate HasFree(c: Config, ids: map<Cid, Handle>) {
    exists cid: Cid :: cid in c.space && Acceptable(ids, cid)
  }

  ghost predicate DrawEnds(draws: nat -> Cid, from: nat, ids: map<Cid, Handle>) {
    exists k: nat :: from <= k && Acceptable(ids, draws(k))
  }

  /** The loop that draws an ID ends exactly when one of the generator's IDs is free. */
  lemma DrawEndsIff(c: Config, draws: nat -> Cid, from: nat, ids: map<Cid, Handle>)
    requires Fair(draws, c.space)
    ensures DrawEnds(draws, from, ids) <==> HasFree(c, ids)
  {
    if HasFree(c, ids) {
      var cid: Cid :| cid in c.space && Acceptable(ids, cid);
      assert DrawnAgain(draws, from, cid);
      var k: nat :| from <= k && draws(k) == cid;
      assert from <= k && Acceptable(ids, draws(k));
    }
    if DrawEnds(draws, from, ids) {
      var k: nat :| from <= k && Acceptable(ids, draws(k));
      assert draws(k) in c.space;
    }
  }

  /** One is free exactly when the empty ID is produced or not all that can be are in use. */
  lemma FreeIff(c: Config, ids: map<Cid, Handle>)
    ensures HasFree(c, ids) <==> [] in c.space || |ids.Keys * c.space| < |c.space|
  {
    var used := ids.Keys * c.space;
    Subset(used, c.space);
    if [] in c.space {
      assert Acceptable(ids, []);
    } else if used != c.space {
      var cid :| cid in c.space && cid !in used;
      assert Acceptable(ids, cid);
    } else {
      forall cid: Cid | cid in c.space ensures !Acceptable(ids, cid) {
        assert cid in used;
      }
    }
  }

  lemma NoneFreeIff(c: Config, ids: map<Cid, Handle>)
    ensures !HasFree(c, ids) <==> [] !in c.space && c.space <= ids.Keys
  {
    FreeIff(c, ids);
    var used := ids.Keys * c.space;
    Subset(used, c.space);
    assert used == c.space <==> c.space <= ids.Keys;
  }

  /** On every run the table holds only IDs of the generator, so counting it suffices, also where
      the IDs are empty. */
  lemma RunFreeIff(c: Config, ids: map<Cid, Handle>)
    requires SizedIds(c, ids)
    ensures HasFree(c, ids) <==> |ids| < |c.space|
    ensures |ids| <= |c.space|
  {
    FreeIff(c, ids);
    assert ids.Keys <= c.space;
    assert ids.Keys * c.space == ids.Keys && |ids.Keys| == |ids|;
    Subset(ids.Keys, c.space);
    if [] in c.space {
      assert [] !in ids.Keys;
    }
  }

  /** The exhaustion check subtracts no more than there is, on every run, when IDs have the
      length the generator declares. */
  lemma NoUnderflow(c: Config, s: State)
    requires Declared(c) && Sized(c, s)
    ensures |s.index.ids| <= |c.space| <= Pow256(c.cidLen)
  {
    RunFreeIff(c, s.index.ids);
    SpaceBound(c.space, c.cidLen);
  }

  /** There is room for `n` more IDs. */
  ghost predicate Room(c: Config, ids: map<Cid, Handle>, n: nat) {
    [] in c.space || |ids| + n <= |c.space|
  }

  lemma RoomIsFree(c: Config, ids: map<Cid, Handle>, n: nat)
    requires SizedIds(c, ids) && n > 0
    ensures Room(c, ids, n) ==> HasFree(c, ids)
    ensures HasFree(c, ids) ==> Room(c, ids, 1)
  {
    RunFreeIff(c, ids);
    if [] in c.space {
      assert Acceptable(ids, []);
    }
  }

  // ----- what the exhaustion check is worth -----

  lemma QuarterOfSpace(n: nat)
    requires 1 <= n <= 4
    ensures Pow256(n) % 4 == 0 && Pow256(n) / 4 >= 64
  {
    Powers();
  }

  /** With IDs of one to four octets the check passes exactly when a quarter of all IDs of that
      length are unused. */
  lemma CheckIsQuarter(cidLen: nat, inUse: nat)
    requires 1 <= cidLen <= 4
    ensures CidsExhausted(cidLen, inUse) <==> 4 * (Pow256(cidLen) - inUse) < Pow256(cidLen)
  {
    QuarterOfSpace(cidLen);
  }

  /** A generator of all IDs of one to four octets has room for the two that `accept` may draw
      whenever the check passes. */
  lemma CheckLeavesRoom(c: Config, s: State)
    requires Declared(c) && Sized(c, s) && 1 <= c.cidLen <= 4 && |c.space| == Pow256(c.cidLen)
    ensures !CidsExhausted(c.cidLen, |s.index.ids|) ==> Room(c, s.index.ids, 2) && HasFree(c, s.index.ids)
  {
    QuarterOfSpace(c.cidLen);
    RunFreeIff(c, s.index.ids);
  }

  /** The check passes, and yet no ID can be drawn: `connect` does not return. */
  ghost predicate Dry(c: Config, s: State) {
    !CidsExhausted(c.cidLen, |s.index.ids|) && !HasFree(c, s.index.ids)
  }

  const SOME_REMOTE := SocketAddr(V4([1, 2, 3, 4]), 1)

  ghost predicate HandlesBelow(conns: map<Handle, ConnectionMeta>, n: nat) {
    forall ch | ch in conns :: ch < n
  }

  ghost predicate AllConnect(es: seq<Event>) {
    forall i | 0 <= i < |es| :: es[i].ConnectEvent?
  }

  /** `t` has `target` IDs in use, and `k` connections more than `s`, numbered from `n` on. */
  ghost predicate Filled(c: Config, s: State, t: State, n: nat, k: nat, target: nat) {
    && SizedIds(c, t.index.ids) && |t.index.ids| == target
    && t.buffers == s.buffers && t.held == s.held && t.server == s.server
    && (forall ch | ch in s.connections :: ch in t.connections)
    && forall ch | n <= ch < n + k :: ch in t.connections
  }

  lemma FilledMore(c: Config, s: State, u: State, t: State, n: nat, k: nat, target: nat)
    requires u.buffers == s.buffers && u.held == s.held && u.server == s.server
    requires u.connections.Keys == s.connections.Keys + {n} && Filled(c, u, t, n + 1, k, target)
    ensures Filled(c, s, t, n, k + 1, target)
  {
    hide SizedIds;
    assert n in u.connections.Keys;
  }

  /** Connecting again and again until `target` IDs are in use, all of them if need be. */
  lemma {:induction false} FillRun(c: Config, s: State, n: nat, target: nat) returns (es: seq<Event>)
    requires SizedIds(c, s.index.ids) && [] !in c.space && |s.index.ids| <= target <= |c.space|
    requires !CidsExhausted(c.cidLen, target) && HandlesBelow(s.connections, n)
    ensures IsRun(c, s, es) && |es| == target - |s.index.ids| && AllConnect(es)
    ensures Filled(c, s, After(c, s, es), n, |es|, target)
    decreases target - |s.index.ids|
  {
    hide Enabled, Step, IsRun, After, CidsExhausted, HasFree, HandlesBelow;
    if |s.index.ids| == target {
      es := [];
      RunEmpty(c, s);
    } else {
      hide SizedIds, Filled;
      RunFreeIff(c, s.index.ids);
      var cid := FreeOne(c, s.index.ids);
      FillStep(c, s, n, cid, target);
      var e := ConnectEvent(n, SOME_REMOTE, true, [], cid, true);
      var t := Step(c, s, e);
      var rest := FillRun(c, t, n + 1, target);
      RunPrepend(c, s, e, rest);
      es := [e] + rest;
      FilledMore(c, s, t, After(c, t, rest), n, |rest|, target);
    }
  }

  lemma FreeOne(c: Config, ids: map<Cid, Handle>) returns (cid: Cid)
    requires HasFree(c, ids) && [] !in c.space
    ensures cid in c.space && cid !in ids
  {
    cid :| cid in c.space && Acceptable(ids, cid);
  }

  lemma Routable()
    ensures !Unroutable(SOME_REMOTE)
  {
    assert SOME_REMOTE.ip.octets[0] == 1;
  }

  lemma OneMore(ids: map<Cid, Handle>, cid: Cid, n: nat)
    requires cid !in ids
    ensures |ids[cid := n]| == |ids| + 1
  {
    assert ids[cid := n].Keys == ids.Keys + {cid};
    assert |ids[cid := n].Keys| == |ids[cid := n]| && |ids.Keys| == |ids|;
  }

  lemma FillStep(c: Config, s: State, n: nat, cid: Cid, target: nat)
    requires SizedIds(c, s.index.ids) && [] !in c.space && |s.index.ids| <= target && !CidsExhausted(c.cidLen, target)
    requires HandlesBelow(s.connections, n) && cid in c.space && cid !in s.index.ids
    ensures var e := ConnectEvent(n, SOME_REMOTE, true, [], cid, true);
            && Enabled(c, s, e)
            && var t := Step(c, s, e);
               && |t.index.ids| == |s.index.ids| + 1 && SizedIds(c, t.index.ids)
               && t.buffers == s.buffers && t.held == s.held && t.server == s.server
               && t.connections.Keys == s.connections.Keys + {n} && HandlesBelow(t.connections, n + 1)
  {
    hide CidsExhausted, HasFree, Enabled, Step, SizedIds, HandlesBelow;
    FewerInUse(c.cidLen, |s.index.ids|, target);
    VacantHandle(s.connections, n);
    ConnectStep(c, s, n, cid);
    OneMore(s.index.ids, cid, n);
    MoreSized(c, s.index.ids, cid, n);
    MoreHandles(s.connections, n, SomeMeta(cid));
  }

  lemma VacantHandle(conns: map<Handle, ConnectionMeta>, n: nat)
    requires HandlesBelow(conns, n)
    ensures n !in conns
  {
  }

  lemma MoreSized(c: Config, ids: map<Cid, Handle>, cid: Cid, n: nat)
    requires SizedIds(c, ids) && cid in c.space && cid != []
    ensures SizedIds(c, ids[cid := n])
  {
  }

  lemma MoreHandles(conns: map<Handle, ConnectionMeta>, n: nat, m: ConnectionMeta)
    requires HandlesBelow(conns, n)
    ensures HandlesBelow(conns[n := m], n + 1) && conns[n := m].Keys == conns.Keys + {n}
  {
  }

  function SomeMeta(cid: Cid): ConnectionMeta {
    NewMeta([], cid, None, FourTuple(SOME_REMOTE, None), Client)
  }

  lemma ConnectStep(c: Config, s: State, n: nat, cid: Cid)
    requires !CidsExhausted(c.cidLen, |s.index.ids|) && n !in s.connections
    requires cid != [] && cid in c.space && cid !in s.index.ids
    ensures var e := ConnectEvent(n, SOME_REMOTE, true, [], cid, true);
            && Enabled(c, s, e)
            && Step(c, s, e) == s.(index := s.index.(ids := s.index.ids[cid := n]),
                                   connections := s.connections[n := SomeMeta(cid)])
  {
    hide CidsExhausted, Unroutable;
    Routable();
    assert [cid][0] == cid;
  }

  lemma FewerInUse(cidLen: nat, fewer: nat, more: nat)
    requires fewer <= more && !CidsExhausted(cidLen, more)
    ensures !CidsExhausted(cidLen, fewer)
  {
  }

  /** The first draw behind a passed check, of `connect` or of `accept`, can find nothing free, on some
      run from the empty endpoint, exactly when IDs are not empty and the check would still pass with
      every one of them in use.  `IdDemand` has the draws that are behind no check of their own. */
  lemma RunsDryIff(c: Config)
    ensures (exists es :: IsRun(c, EMPTY, es) && Dry(c, After(c, EMPTY, es)))
       <==> [] !in c.space && !CidsExhausted(c.cidLen, |c.space|)
  {
    hide CidsExhausted;
    if [] !in c.space && !CidsExhausted(c.cidLen, |c.space|) {
      var es := FillRun(c, EMPTY, 0, |c.space|);
      FullIsDry(c, After(c, EMPTY, es));
    }
    if es :| IsRun(c, EMPTY, es) && Dry(c, After(c, EMPTY, es)) {
      RunSizedAndCounted(c, EMPTY, es);
      DryIsFull(c, After(c, EMPTY, es));
    }
  }

  lemma FullIsDry(c: Config, s: State)
    requires SizedIds(c, s.index.ids) && |s.index.ids| == |c.space| && !CidsExhausted(c.cidLen, |c.space|)
    ensures Dry(c, s)
  {
    RunFreeIff(c, s.index.ids);
  }

  lemma DryIsFull(c: Config, s: State)
    requires SizedIds(c, s.index.ids) && Dry(c, s)
    ensures |s.index.ids| == |c.space| && [] !in c.space && !CidsExhausted(c.cidLen, |c.space|)
  {
    RunFreeIff(c, s.index.ids);
    FreeIff(c, s.index.ids);
  }

  // ----- the default generator -----

  const NONCE_LEN := 3

  /** The rest of an ID is a function of its nonce, as a keyed hash makes it. */
  ghost predicate Hashed(c: Config) {
    && c.cidLen == 8 && Declared(c)
    && forall a, b | a in c.space && b in c.space && a[..NONCE_LEN] == b[..NONCE_LEN] :: a == b
  }

  ghost function Nonces(space: set<Cid>): set<Cid>
    requires OfLength(space, 8)
  {
    set cid | cid in space :: cid[..NONCE_LEN]
  }

  lemma {:induction false} CountNonces(space: set<Cid>)
    requires OfLength(space, 8)
    requires forall a, b | a in space && b in space && a[..NONCE_LEN] == b[..NONCE_LEN] :: a == b
    ensures |Nonces(space)| == |space|
    decreases |space|
  {
    if space != {} {
      var cid :| cid in space;
      var rest := space - {cid};
      CountNonces(rest);
      assert Nonces(space) == Nonces(rest) + {cid[..NONCE_LEN]};
    }
  }

  /** The default generator has at most 2^24 IDs, and that many exactly when it comes to every nonce. */
  lemma HashedSpace(c: Config)
    requires Hashed(c)
    ensures |c.space| <= 0x100_0000
    ensures |c.space| == 0x100_0000 <==> forall n: Cid | |n| == NONCE_LEN :: n in Nonces(c.space)
  {
    Powers();
    CountNonces(c.space);
    SpaceBound(Nonces(c.space), NONCE_LEN);
    FreeIffRoom(Nonces(c.space), NONCE_LEN);
    if |c.space| < 0x100_0000 {
      var n: Cid :| |n| == NONCE_LEN && n !in Nonces(c.space);
    } else {
      forall n: Cid | |n| == NONCE_LEN ensures n in Nonces(c.space) {
        if n !in Nonces(c.space) {
          assert false;
        }
      }
    }
  }

  /** The default generator runs dry, with the check passing, within 2^24 connections. */
  lemma HashedRunsDry(c: Config) returns (es: seq<Event>)
    requires Hashed(c)
    ensures IsRun(c, EMPTY, es) && |es| <= 0x100_0000
    ensures Dry(c, After(c, EMPTY, es)) && ConnectProceeds(c, After(c, EMPTY, es), SOME_REMOTE, true)
  {
    HashedSpace(c);
    es := FillRun(c, EMPTY, 0, |c.space|);
    FullIsDry(c, After(c, EMPTY, es));
    Routable();
  }
}

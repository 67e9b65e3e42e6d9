/**
 The draws the endpoint makes (src/endpoint.rs): how many connection IDs each call needs, when it
 gets them, for which generators every call of a kind always does, and how many connections a
 caller can plan with so that all of them do.
 */
module IdDemand {
  import opened Prelude
  import opened EndpointState
  import opened EndpointInvariant
  import opened EndpointRuns
  import opened CidSpace
  import opened Coding
  import opened IdSupply

  /** The calls that draw: `connect`, `accept`, and a connection's requests for more IDs, of its own
      accord or for one its peer retired. */
  datatype Call =
    | ConnectCall(remote: SocketAddr, versionOk: bool)
    | AcceptCall(idx: nat, config: Option<ServerConfig>, inputs: AcceptInputs)
    | IssueCall(ch: Handle, num: nat)
    | RetireCall(ch: Handle, sequence: nat, more: bool)

  predicate Allowed(s: State, call: Call) {
    match call
    case ConnectCall(_, _) => true
    case AcceptCall(idx, _, _) => idx in s.held && idx in s.buffers
    case IssueCall(ch, _) => ch in s.connections
    case RetireCall(ch, _, _) => ch in s.connections
  }

  /** How many IDs the call draws.  Only `connect` and `accept` look at the exhaustion check, once. */
  function Draws(c: Config, s: State, call: Call): nat
    requires Allowed(s, call)
  {
    match call
    case ConnectCall(remote, versionOk) => if ConnectProceeds(c, s, remote, versionOk) then 1 else 0
    case AcceptCall(_, override_, inputs) =>
      var config := AcceptConfig(s, override_);
      if !AcceptProceeds(c, s, config, inputs) then 0
      else if config.value.hasPreferredAddress && inputs.paramsOk then 2
      else 1
    case IssueCall(_, num) => num
    case RetireCall(ch, sequence, more) => if sequence in s.connections[ch].locCids && more then 1 else 0
  }

  /** The IDs in use when the call begins to draw. */
  function InUse(s: State, call: Call): map<Cid, Handle>
    requires Allowed(s, call)
  {
    if call.RetireCall? && call.sequence in s.connections[call.ch].locCids
    then s.index.ids - {s.connections[call.ch].locCids[call.sequence]}
    else s.index.ids
  }

  ghost predicate CanDraw(c: Config, ids: map<Cid, Handle>, n: nat) {
    exists cids :: |cids| == n && Drawn(c, ids, cids)
  }

  /** Every draw of the call finds an ID, so that the call returns. */
  ghost predicate Completes(c: Config, s: State, call: Call)
    requires Allowed(s, call)
  {
    CanDraw(c, InUse(s, call), Draws(c, s, call))
  }

  // ----- when a call completes -----

  lemma DrawnNext(c: Config, ids: map<Cid, Handle>, cids: seq<Cid>, cid: Cid)
    requires Drawn(c, ids, cids) && cid in c.space && Acceptable(ids, cid)
    requires cid != [] ==> cid !in cids
    ensures Drawn(c, ids, cids + [cid])
  {
    var all := cids + [cid];
    forall i, j | 0 <= i < j < |all| && all[i] != [] ensures all[i] != all[j] {
      assert all[i] == cids[i] && cids[i] in cids;
    }
  }

  ghost function Elements(cids: seq<Cid>): set<Cid> {
    set i | 0 <= i < |cids| :: cids[i]
  }

  lemma {:induction false} CountElements(cids: seq<Cid>)
    requires forall i, j | 0 <= i < j < |cids| :: cids[i] != cids[j]
    ensures |Elements(cids)| == |cids|
  {
    if cids != [] {
      var n := |cids| - 1;
      CountElements(cids[..n]);
      assert Elements(cids) == Elements(cids[..n]) + {cids[n]};
      assert cids[n] !in Elements(cids[..n]);
    }
  }

  /** Non-empty IDs drawn one after the other use up as many of the generator's. */
  lemma DrawnCount(c: Config, ids: map<Cid, Handle>, cids: seq<Cid>)
    requires SizedIds(c, ids) && Drawn(c, ids, cids) && [] !in c.space
    ensures |ids.Keys + Elements(cids)| == |ids| + |cids|
    ensures ids.Keys + Elements(cids) <= c.space
  {
    CountElements(cids);
    assert ids.Keys !! Elements(cids);
    assert |ids.Keys| == |ids|;
  }

  lemma {:induction false} DrawSome(c: Config, ids: map<Cid, Handle>, n: nat) returns (cids: seq<Cid>)
    requires SizedIds(c, ids) && Room(c, ids, n)
    ensures |cids| == n && Drawn(c, ids, cids)
    decreases n
  {
    if n == 0 {
      cids := [];
    } else {
      var some := DrawSome(c, ids, n - 1);
      if [] in c.space {
        DrawnNext(c, ids, some, []);
        cids := some + [[]];
      } else {
        DrawnCount(c, ids, some);
        var cid := SomeMissing(ids.Keys + Elements(some), c.space);
        assert cid in some ==> cid in Elements(some);
        DrawnNext(c, ids, some, cid);
        cids := some + [cid];
      }
    }
  }

  /** So many can be drawn exactly when there is room for them. */
  lemma CanDrawIff(c: Config, ids: map<Cid, Handle>, n: nat)
    requires SizedIds(c, ids)
    ensures CanDraw(c, ids, n) <==> Room(c, ids, n)
  {
    if Room(c, ids, n) {
      var cids := DrawSome(c, ids, n);
    } else if CanDraw(c, ids, n) {
      var cids :| |cids| == n && Drawn(c, ids, cids);
      DrawnCount(c, ids, cids);
      Subset(ids.Keys + Elements(cids), c.space);
      assert false;
    }
  }

  lemma CompletesIff(c: Config, s: State, call: Call)
    requires Sized(c, s) && Allowed(s, call)
    ensures Completes(c, s, call) <==> Room(c, InUse(s, call), Draws(c, s, call))
  {
    hide CanDraw, Room, Draws;
    CanDrawIff(c, InUse(s, call), Draws(c, s, call));
  }

  /** An ID is freed before the one that takes its place is drawn: retiring always completes. */
  lemma RetireCompletes(c: Config, s: State, call: Call)
    requires Sized(c, s) && Allowed(s, call) && call.RetireCall?
    ensures Completes(c, s, call)
  {
    CompletesIff(c, s, call);
    if Draws(c, s, call) == 1 {
      var gone := s.connections[call.ch].locCids[call.sequence];
      assert gone in c.space && Acceptable(s.index.ids - {gone}, gone);
      RoomIsFree(c, s.index.ids - {gone}, 1);
    }
  }

  // ----- for which generators every call always completes -----

  datatype Kind = ToConnect | ToAccept | ToIssue | ToRetire

  function KindOf(call: Call): Kind {
    match call
    case ConnectCall(_, _) => ToConnect
    case AcceptCall(_, _, _) => ToAccept
    case IssueCall(_, _) => ToIssue
    case RetireCall(_, _, _) => ToRetire
  }

  ghost predicate CompletesIn(c: Config, s: State, kind: Kind) {
    forall call | KindOf(call) == kind && Allowed(s, call) :: Completes(c, s, call)
  }

  /** On every run from the empty endpoint every call of the kind completes. */
  ghost predicate Reliable(c: Config, kind: Kind) {
    forall es | IsRun(c, EMPTY, es) :: CompletesIn(c, After(c, EMPTY, es), kind)
  }

  lemma EmptySized(c: Config)
    ensures Sized(c, EMPTY) && BuffersInv(EMPTY)
  {
  }

  lemma RunSized(c: Config, es: seq<Event>)
    requires IsRun(c, EMPTY, es)
    ensures Sized(c, After(c, EMPTY, es))
  {
    EmptySized(c);
    RunSizedAndCounted(c, EMPTY, es);
  }

  /** With empty IDs nothing is ever used up. */
  lemma EmptyIsReliable(c: Config, kind: Kind)
    requires [] in c.space
    ensures Reliable(c, kind)
  {
    hide IsRun, After, Completes, Sized;
    forall es | IsRun(c, EMPTY, es) ensures CompletesIn(c, After(c, EMPTY, es), kind) {
      RunSized(c, es);
      var s := After(c, EMPTY, es);
      forall call | KindOf(call) == kind && Allowed(s, call) ensures Completes(c, s, call) {
        CompletesIff(c, s, call);
      }
    }
  }

  lemma NotReliable(c: Config, es: seq<Event>, call: Call)
    requires IsRun(c, EMPTY, es) && Allowed(After(c, EMPTY, es), call) && !Completes(c, After(c, EMPTY, es), call)
    ensures !Reliable(c, KindOf(call))
  {
    hide Completes;
    assert !CompletesIn(c, After(c, EMPTY, es), KindOf(call));
  }

  /** `connect` always returns exactly when IDs are empty or the check refuses before all are in use. */
  lemma ConnectReliableIff(c: Config)
    ensures Reliable(c, ToConnect) <==> [] in c.space || CidsExhausted(c.cidLen, |c.space|)
  {
    hide CidsExhausted, IsRun, After, Sized, Unroutable, Completes;
    if [] in c.space {
      EmptyIsReliable(c, ToConnect);
    } else if CidsExhausted(c.cidLen, |c.space|) {
      forall es | IsRun(c, EMPTY, es) ensures CompletesIn(c, After(c, EMPTY, es), ToConnect) {
        RunSized(c, es);
        var s := After(c, EMPTY, es);
        forall call | KindOf(call) == ToConnect && Allowed(s, call) ensures Completes(c, s, call) {
          CheckedCompletes(c, s, call, 1);
        }
      }
    } else {
      EmptySized(c);
      assert SizedIds(c, EMPTY.index.ids) by { EmptyIds(c); }
      var es := FillRun(c, EMPTY, 0, |c.space|);
      RunSized(c, es);
      var s, call := After(c, EMPTY, es), ConnectCall(SOME_REMOTE, true);
      Routable();
      CompletesIff(c, s, call);
      NotReliable(c, es, call);
    }
  }

  lemma EmptyIds(c: Config)
    ensures SizedIds(c, EMPTY.index.ids) && |EMPTY.index.ids| == 0
  {
  }

  /** Draws behind a check that refuses with all but `n - 1` in use. */
  lemma CheckedCompletes(c: Config, s: State, call: Call, n: nat)
    requires Sized(c, s) && Allowed(s, call) && (call.ConnectCall? || call.AcceptCall?)
    requires Draws(c, s, call) <= n <= |c.space| + 1 && n > 0 && CidsExhausted(c.cidLen, |c.space| + 1 - n)
    ensures Completes(c, s, call)
  {
    CompletesIff(c, s, call);
    hide CidsExhausted;
    if Draws(c, s, call) > 0 {
      assert !CidsExhausted(c.cidLen, |s.index.ids|);
      RefusesFrom(c.cidLen, |c.space| + 1 - n, |s.index.ids|);
    }
    hide Draws;
    if Draws(c, s, call) == 0 {
      RunFreeIff(c, s.index.ids);
    }
  }

  lemma RefusesFrom(cidLen: nat, limit: nat, inUse: nat)
    requires CidsExhausted(cidLen, limit) && !CidsExhausted(cidLen, inUse)
    ensures inUse < limit
  {
  }

  const WITH_PREFERRED := ServerConfig(0, 0, 1, true)
  const ACCEPTABLE := AcceptInputs(false, true, true, true, true)
  const INITIAL := Packet([0, 0, 0, 0, 0, 0, 0, 0], InitialPacket(false), MIN_INITIAL_SIZE, None)

  /** An attempt is pending that would be given an ID for a preferred address, and `target` IDs are in use. */
  lemma PendingRun(c: Config, a: FourTuple, target: nat) returns (es: seq<Event>)
    requires [] !in c.space && target <= |c.space| && !CidsExhausted(c.cidLen, target)
    ensures IsRun(c, EMPTY, es)
    ensures var s := After(c, EMPTY, es);
            && Sized(c, s) && |s.index.ids| == target && s.server == Some(WITH_PREFERRED) && 0 in s.held
              && 0 in s.buffers
  {
    hide IsRun, After, Enabled, Step, CidsExhausted, Sized;
    var e1, e2 := SetServerConfigEvent(Some(WITH_PREFERRED)), DatagramEvent(0, a, INITIAL, ALL_OK, 0, true);
    ConfigStep(c, EMPTY, Some(WITH_PREFERRED));
    var s1 := Step(c, EMPTY, e1);
    Arrives(c, s1, WITH_PREFERRED, a, INITIAL);
    var s2 := Step(c, s1, e2);
    EmptyIds(c);
    var rest := FillRun(c, s2, 0, target);
    RunPrepend(c, s1, e2, rest);
    RunPrepend(c, EMPTY, e1, [e2] + rest);
    es := [e1] + ([e2] + rest);
    RunSized(c, es);
  }

  /** `accept` draws up to two IDs after one check: it always returns exactly when IDs are empty or the
      check refuses before all but one are in use. */
  lemma AcceptReliableIff(c: Config)
    requires c.space != {}
    ensures Reliable(c, ToAccept) <==> [] in c.space || CidsExhausted(c.cidLen, |c.space| - 1)
  {
    hide CidsExhausted, IsRun, After, Sized, Completes;
    if [] in c.space {
      EmptyIsReliable(c, ToAccept);
    } else if CidsExhausted(c.cidLen, |c.space| - 1) {
      forall es | IsRun(c, EMPTY, es) ensures CompletesIn(c, After(c, EMPTY, es), ToAccept) {
        RunSized(c, es);
        var s := After(c, EMPTY, es);
        forall call | KindOf(call) == ToAccept && Allowed(s, call) ensures Completes(c, s, call) {
          CheckedCompletes(c, s, call, 2);
        }
      }
    } else {
      var es := PendingRun(c, FourTuple(SOME_REMOTE, None), |c.space| - 1);
      var s, call := After(c, EMPTY, es), AcceptCall(0, None, ACCEPTABLE);
      CompletesIff(c, s, call);
      NotReliable(c, es, call);
    }
  }

  /** Some run ends with the check passing and fewer than two IDs free exactly when IDs are not empty
      and the check would pass with all but one in use. */
  lemma FewerThanTwoIff(c: Config)
    requires c.space != {}
    ensures (exists es :: IsRun(c, EMPTY, es) && Tight(c, After(c, EMPTY, es)))
       <==> [] !in c.space && !CidsExhausted(c.cidLen, |c.space| - 1)
  {
    hide CidsExhausted, IsRun, After, Sized;
    if [] !in c.space && !CidsExhausted(c.cidLen, |c.space| - 1) {
      EmptyIds(c);
      var es := FillRun(c, EMPTY, 0, |c.space| - 1);
      assert Tight(c, After(c, EMPTY, es));
    }
    if es :| IsRun(c, EMPTY, es) && Tight(c, After(c, EMPTY, es)) {
      FewerInUse(c.cidLen, |c.space| - 1, |After(c, EMPTY, es).index.ids|);
    }
  }

  ghost predicate Tight(c: Config, s: State) {
    !CidsExhausted(c.cidLen, |s.index.ids|) && !Room(c, s.index.ids, 2)
  }

  /** With 193 IDs of one octet `connect` always returns, and `accept` does not. */
  lemma SecondDrawFails(c: Config)
    requires c.cidLen == 1 && |c.space| == 193 && [] !in c.space
    ensures Reliable(c, ToConnect) && !Reliable(c, ToAccept)
  {
    hide Reliable;
    ConnectReliableIff(c);
    AcceptReliableIff(c);
    OneOctet();
  }

  // ----- requests for more IDs, which no check stands before -----

  lemma IssueStep(c: Config, s: State, ch: Handle, num: nat) returns (e: Event)
    requires SizedIds(c, s.index.ids) && [] !in c.space && ch in s.connections && |s.index.ids| + num <= |c.space|
    ensures e.NeedIdentifiersEvent? && e.ch == ch && |e.cids| == num && Enabled(c, s, e)
    ensures var t := Step(c, s, e);
            && SizedIds(c, t.index.ids) && |t.index.ids| == |s.index.ids| + num
            && t.connections.Keys == s.connections.Keys
  {
    hide SizedIds, IssueCids, Drawn;
    var cids := DrawSome(c, s.index.ids, num);
    e := NeedIdentifiersEvent(ch, cids);
    DrawnCount(c, s.index.ids, cids);
    NoneEmpty(c, s.index.ids, cids);
    IssuedKeys(s, ch, cids);
    KeysSized(c, IssueCids(s, ch, cids).index.ids);
  }

  lemma NoneEmpty(c: Config, ids: map<Cid, Handle>, cids: seq<Cid>)
    requires Drawn(c, ids, cids) && [] !in c.space
    ensures [] !in cids
  {
  }

  lemma KeysSized(c: Config, ids: map<Cid, Handle>)
    requires ids.Keys <= c.space && [] !in c.space
    ensures SizedIds(c, ids) && |ids| == |ids.Keys|
  {
  }

  lemma {:induction false} IssuedKeys(s: State, ch: Handle, cids: seq<Cid>)
    requires ch in s.connections && [] !in cids
    ensures var t := IssueCids(s, ch, cids);
            t.index.ids.Keys == s.index.ids.Keys + Elements(cids) && t.connections.Keys == s.connections.Keys
  {
    if cids != [] {
      var n := |cids| - 1;
      IssuedKeys(s, ch, cids[..n]);
      assert cids[n] in cids;
      assert Elements(cids) == Elements(cids[..n]) + {cids[n]};
    }
  }

  lemma NeverExhausted(cidLen: nat)
    ensures !CidsExhausted(cidLen, 0)
  {
  }

  /** A single connection that asks for all the other IDs. */
  lemma TakesAll(c: Config) returns (es: seq<Event>)
    requires c.space != {} && [] !in c.space
    ensures IsRun(c, EMPTY, es) && |es| == 2 && Sized(c, After(c, EMPTY, es))
    ensures |After(c, EMPTY, es).index.ids| == |c.space| && 0 in After(c, EMPTY, es).connections
  {
    hide IsRun, After, Sized, Enabled, Step, CidsExhausted, SizedIds;
    EmptyIds(c);
    NeverExhausted(c.cidLen);
    var cid :| cid in c.space;
    FillStep(c, EMPTY, 0, cid, 0);
    var e1 := ConnectEvent(0, SOME_REMOTE, true, [], cid, true);
    var s1 := Step(c, EMPTY, e1);
    var e2 := IssueStep(c, s1, 0, |c.space| - 1);
    RunEmpty(c, Step(c, s1, e2));
    RunPrepend(c, s1, e2, []);
    assert [e2] + [] == [e2];
    RunPrepend(c, EMPTY, e1, [e2]);
    es := [e1] + [e2];
    RunSized(c, es);
  }

  /** Requests for more IDs are always met exactly when IDs are empty, whatever their length: the check
      does not stand before them. */
  lemma IssueReliableIff(c: Config)
    requires c.space != {}
    ensures Reliable(c, ToIssue) <==> [] in c.space
  {
    hide IsRun, After, Sized, Completes;
    if [] in c.space {
      EmptyIsReliable(c, ToIssue);
    } else {
      var es := TakesAll(c);
      var call := IssueCall(0, 1);
      CompletesIff(c, After(c, EMPTY, es), call);
      NotReliable(c, es, call);
    }
  }

  lemma RetireReliable(c: Config)
    ensures Reliable(c, ToRetire)
  {
    hide IsRun, After, Completes, Sized;
    forall es | IsRun(c, EMPTY, es) ensures CompletesIn(c, After(c, EMPTY, es), ToRetire) {
      RunSized(c, es);
      var s := After(c, EMPTY, es);
      forall call | KindOf(call) == ToRetire && Allowed(s, call) ensures Completes(c, s, call) {
        RetireCompletes(c, s, call);
      }
    }
  }

  /** Over all runs every draw the endpoint makes finds an ID if and only if IDs are empty. */
  lemma AllReliableIff(c: Config)
    requires c.space != {}
    ensures (forall kind :: Reliable(c, kind)) <==> [] in c.space
  {
    hide Reliable;
    IssueReliableIff(c);
    if [] in c.space {
      forall kind ensures Reliable(c, kind) {
        EmptyIsReliable(c, kind);
      }
    }
  }

  /** Requests for `num` more IDs each by the connections from `k` up to `n`. */
  lemma {:induction false} AskRun(c: Config, s: State, k: nat, n: nat) returns (es: seq<Event>)
    requires SizedIds(c, s.index.ids) && [] !in c.space && k <= n
    requires (forall ch | k <= ch < n :: ch in s.connections) && |s.index.ids| + ASKED * (n - k) <= |c.space|
    ensures IsRun(c, s, es) && |es| == n - k
    ensures forall i | 0 <= i < |es| :: es[i].NeedIdentifiersEvent? && es[i].ch == k + i && |es[i].cids| == ASKED
    ensures var t := After(c, s, es);
            && |t.index.ids| == |s.index.ids| + ASKED * (n - k) && t.connections.Keys == s.connections.Keys
    decreases n - k
  {
    hide IsRun, After, Enabled, Step, SizedIds;
    if k == n {
      es := [];
      RunEmpty(c, s);
    } else {
      var e := IssueStep(c, s, k, ASKED);
      var rest := AskRun(c, Step(c, s, e), k + 1, n);
      RunPrepend(c, s, e, rest);
      es := [e] + rest;
    }
  }

  /** What a connection asks for after its handshake: eight IDs, but for the one it has. */
  const ASKED := 7

  /** A generator of all IDs of one octet: forty connections in a burst, none refused by the check, of
      which thirty get the seven further IDs each asks for.  The next one's request never ends. */
  lemma OneOctetBurst(c: Config) returns (es: seq<Event>)
    requires Declared(c) && c.cidLen == 1 && |c.space| == 256
    ensures IsRun(c, EMPTY, es) && |es| == 70
    ensures forall i | 0 <= i < 40 :: es[i].ConnectEvent?
    ensures forall i | 40 <= i < 70 :: es[i].NeedIdentifiersEvent? && es[i].ch == i - 40 && |es[i].cids| == ASKED
    ensures var s := After(c, EMPTY, es); 30 in s.connections && !Completes(c, s, IssueCall(30, ASKED))
  {
    hide IsRun, After, Sized, SizedIds, Completes, CidsExhausted;
    EmptyIds(c);
    assert !CidsExhausted(1, 40) by { CheckIsQuarter(1, 40); OneOctet(); }
    var es1 := FillRun(c, EMPTY, 0, 40);
    var s1 := After(c, EMPTY, es1);
    var es2 := AskRun(c, s1, 0, 30);
    RunAppend(c, EMPTY, es1, es2);
    es := es1 + es2;
    RunSized(c, es);
    CompletesIff(c, After(c, EMPTY, es), IssueCall(30, ASKED));
  }

  lemma OneOctet()
    ensures Pow256(1) == 256
  {
    Powers();
  }

  // ----- how many connections a caller can plan with -----

  /** IDs of all connections together. */
  ghost function Total(conns: Conns): nat {
    if conns == map[] then 0 else
    var ch :| ch in conns;
    |conns[ch].locCids| + Total(conns - {ch})
  }

  lemma {:induction false} TotalWithin(conns: Conns, size: nat, k: nat)
    requires |conns| == size && forall ch | ch in conns :: |conns[ch].locCids| <= k
    ensures Total(conns) <= size * k
    decreases size
  {
    if conns != map[] {
      var ch :| ch in conns && Total(conns) == |conns[ch].locCids| + Total(conns - {ch});
      FewerConnections(conns, ch);
      TotalWithin(conns - {ch}, size - 1, k);
      Products(size, size, k);
    }
  }

  lemma {:induction false} TotalWithout(conns: Conns, ch: Handle)
    requires ch in conns
    ensures Total(conns) == |conns[ch].locCids| + Total(conns - {ch})
    decreases |conns|
  {
    var o :| o in conns && Total(conns) == |conns[o].locCids| + Total(conns - {o});
    if o != ch {
      TotalWithout(conns - {o}, ch);
      TotalWithout(conns - {ch}, o);
      assert conns - {o} - {ch} == conns - {ch} - {o};
    }
  }

  lemma FewerConnections(conns: Conns, ch: Handle)
    requires ch in conns
    ensures |conns - {ch}| == |conns| - 1
  {
    assert (conns - {ch}).Keys == conns.Keys - {ch};
    assert |(conns - {ch}).Keys| == |conns - {ch}| && |conns.Keys| == |conns|;
  }

  lemma {:induction false} ValuesCount(m: map<nat, Cid>)
    requires forall i, j | i in m && j in m && i != j :: m[i] != m[j]
    ensures |m.Values| == |m|
    decreases |m|
  {
    if m != map[] {
      var n :| n in m;
      var rest := m - {n};
      ValuesCount(rest);
      forall v | v in m.Values ensures v in rest.Values + {m[n]} {
        var k :| k in m && m[k] == v;
        assert k != n ==> k in rest && rest[k] == v;
      }
      forall v | v in rest.Values ensures v in m.Values && v != m[n] {
        var k :| k in rest && rest[k] == v;
        assert k in m && m[k] == v && k != n;
      }
      assert m.Values == rest.Values + {m[n]};
      assert m.Keys == rest.Keys + {n} && |m.Keys| == |m| && |rest.Keys| == |rest|;
    }
  }

  lemma LessIds(ids: map<Cid, Handle>, gone: set<Cid>)
    requires gone <= ids.Keys
    ensures |ids - gone| == |ids| - |gone|
  {
    assert (ids - gone).Keys == ids.Keys - gone;
    assert |(ids - gone).Keys| == |ids - gone| && |ids.Keys| == |ids|;
  }

  /** The table of IDs has exactly as many entries as the connections have IDs. */
  lemma {:induction false} IdsTotal(ids: map<Cid, Handle>, conns: Conns)
    requires IdsInv(ids, conns)
    requires forall ch, n | ch in conns && n in conns[ch].locCids :: conns[ch].locCids[n] != []
    ensures |ids| == Total(conns)
    decreases |conns|
  {
    if conns == map[] {
      assert ids == map[];
    } else {
      var ch :| ch in conns;
      var loc := conns[ch].locCids;
      assert IdsFiled(ids, ch, loc, conns[ch].cidsIssued);
      ValuesCount(loc);
      LessIds(ids, loc.Values);
      IdsRemove(ids, conns, ch);
      FewerConnections(conns, ch);
      IdsTotal(ids - loc.Values, conns - {ch});
      TotalWithout(conns, ch);
    }
  }

  /** At most `n` connections at a time, with at most `k` IDs each, and the generator has `n * k`. */
  ghost predicate Planned(c: Config, s: State, n: nat, k: nat) {
    |s.connections| <= n && n * k <= |c.space| && forall ch | ch in s.connections :: |s.connections[ch].locCids| <= k
  }

  /** The call keeps to the plan. */
  predicate Keeps(c: Config, s: State, n: nat, k: nat, call: Call)
    requires Allowed(s, call)
  {
    match call
    case ConnectCall(_, _) => |s.connections| < n && Draws(c, s, call) <= k
    case AcceptCall(_, _, _) => |s.connections| < n && Draws(c, s, call) <= k
    case IssueCall(ch, num) => |s.connections[ch].locCids| + num <= k
    case RetireCall(_, _, _) => true
  }

  lemma CountedIds(c: Config, s: State)
    requires Inv(s) && Sized(c, s) && [] !in c.space
    ensures |s.index.ids| == Total(s.connections)
  {
    hide InitialInv, RemotesInv, TokensInv, BuffersInv, Total;
    IdsTotal(s.index.ids, s.connections);
  }

  /** What a connection does not have of its share is free, whatever the others have. */
  lemma ShareIsFree(c: Config, s: State, n: nat, k: nat, ch: Handle)
    requires Inv(s) && Sized(c, s) && Planned(c, s, n, k) && [] !in c.space && ch in s.connections
    ensures |s.index.ids| + (k - |s.connections[ch].locCids|) <= |c.space|
  {
    hide Inv, Sized, Total;
    CountedIds(c, s);
    var conns := s.connections;
    var size := |conns|;
    TotalWithout(conns, ch);
    FewerConnections(conns, ch);
    TotalWithin(conns - {ch}, size - 1, k);
    Products(size, n, k);
  }

  /** So is the whole share of a connection that is yet to come. */
  lemma NewShareIsFree(c: Config, s: State, n: nat, k: nat)
    requires Inv(s) && Sized(c, s) && Planned(c, s, n, k) && [] !in c.space && |s.connections| < n
    ensures |s.index.ids| + k <= |c.space|
  {
    hide Inv, Sized, Total;
    CountedIds(c, s);
    var size := |s.connections|;
    TotalWithin(s.connections, size, k);
    Products(size + 1, n, k);
  }

  lemma Products(a: nat, b: nat, k: nat)
    requires 0 < a <= b
    ensures (a - 1) * k + k <= b * k
  {
    assert (a - 1) * k + k == a * k;
    assert a * k <= b * k;
  }

  /** A call that keeps to the plan completes. */
  lemma PlannedCompletes(c: Config, s: State, n: nat, k: nat, call: Call)
    requires Inv(s) && Sized(c, s) && Planned(c, s, n, k) && Allowed(s, call) && Keeps(c, s, n, k, call)
    ensures Completes(c, s, call)
  {
    hide Inv, Sized, Planned, Completes;
    CompletesIff(c, s, call);
    if call.RetireCall? {
      RetireCompletes(c, s, call);
    } else if [] !in c.space && call.IssueCall? {
      ShareIsFree(c, s, n, k, call.ch);
    } else if [] !in c.space {
      NewShareIsFree(c, s, n, k);
    }
  }

  /** On every run without an early return: with at most `n` connections at a time of at most `k` IDs
      each, and `n * k` IDs to draw from, every call that keeps to that completes. */
  lemma PlannedRunCompletes(c: Config, es: seq<Event>, n: nat, k: nat, call: Call)
    requires IsRun(c, EMPTY, es) && !RunLeaks(c, EMPTY, es)
    requires var s := After(c, EMPTY, es);
             Planned(c, s, n, k) && Allowed(s, call) && Keeps(c, s, n, k, call)
    ensures Completes(c, After(c, EMPTY, es), call)
  {
    hide Inv, Sized, Planned, Keeps, Completes, Step, Enabled;
    EmptyInv();
    RunKeepsIff(c, EMPTY, es);
    EndKeeps(c, EMPTY, es);
    RunSized(c, es);
    PlannedCompletes(c, After(c, EMPTY, es), n, k, call);
  }
}

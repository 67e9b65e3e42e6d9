/**
 Happy Eyeballs (src/happy_eyeballs.rs): the interleaving sort of section 4 of RFC 8305 and the
 connection race of section 5.
 */
module HappyEyeballs {
  import opened Prelude

  datatype Family = IPv6Preferred | IPv4Preferred

  datatype Config = Config(firstCount: nat, family: Family)

  predicate IsPreferred(c: Config, a: SocketAddr) {
    a.ip.V6? == (c.family == IPv6Preferred)
  }

  // ----- sorting -----

  /** The addresses that are preferred, or those that are not, in their order. */
  function Only(c: Config, s: seq<SocketAddr>, preferred: bool): seq<SocketAddr> {
    if s == [] then []
    else if IsPreferred(c, s[0]) == preferred then [s[0]] + Only(c, s[1..], preferred)
    else Only(c, s[1..], preferred)
  }

  /** One of `a`, one of `b`, and so on until one of them is used up. */
  function Alternate(a: seq<SocketAddr>, b: seq<SocketAddr>): seq<SocketAddr> {
    if a == [] then b else if b == [] then a else [a[0], b[0]] + Alternate(a[1..], b[1..])
  }

  function Head(c: Config, s: seq<SocketAddr>): nat {
    Min(c.firstCount, |Only(c, s, true)|)
  }

  function Sorted(c: Config, s: seq<SocketAddr>): seq<SocketAddr> {
    var preferred := Only(c, s, true);
    preferred[..Head(c, s)] + Alternate(Only(c, s, false), preferred[Head(c, s)..])
  }

  method Filter(c: Config, s: seq<SocketAddr>, preferred: bool) returns (r: seq<SocketAddr>)
    ensures r == Only(c, s, preferred)
  {
    r := [];
    for i := 0 to |s|
      invariant r + Only(c, s[i..], preferred) == Only(c, s, preferred)
    {
      assert s[i..][0] == s[i] && s[i..][1..] == s[i + 1..];
      if IsPreferred(c, s[i]) == preferred {
        r := r + [s[i]];
      }
    }
    assert s[|s|..] == [];
  }

  /** One round of the interleaving loop. */
  lemma AlternateStep(a: seq<SocketAddr>, i: nat, b: seq<SocketAddr>, j: nat)
    requires i <= |a| && j <= |b|
    ensures i < |a| && j < |b| ==> Alternate(a[i..], b[j..]) == [a[i]] + [b[j]] + Alternate(a[i + 1..], b[j + 1..])
    ensures i < |a| && j == |b| ==> Alternate(a[i..], b[j..]) == [a[i]] + Alternate(a[i + 1..], b[j..])
    ensures i == |a| && j < |b| ==> Alternate(a[i..], b[j..]) == [b[j]] + Alternate(a[i..], b[j + 1..])
    ensures i == |a| && j == |b| ==> Alternate(a[i..], b[j..]) == []
  {
    if i < |a| {
      assert a[i..][1..] == a[i + 1..] && a[i..] == [a[i]] + a[i + 1..];
    }
    if j < |b| {
      assert b[j..][1..] == b[j + 1..] && b[j..] == [b[j]] + b[j + 1..];
    }
  }

  method Interleave(a: seq<SocketAddr>, b: seq<SocketAddr>) returns (r: seq<SocketAddr>)
    ensures r == Alternate(a, b)
  {
    hide Alternate;
    r := [];
    var i, j := 0, 0;
    assert a[0..] == a && b[0..] == b;
    while i < |a| || j < |b|
      invariant 0 <= i <= |a| && 0 <= j <= |b|
      invariant r + Alternate(a[i..], b[j..]) == Alternate(a, b)
      decreases |a| - i + |b| - j
    {
      AlternateStep(a, i, b, j);
      if i < |a| && j < |b| {
        r := r + [a[i]] + [b[j]];
        i, j := i + 1, j + 1;
      } else if i < |a| {
        r := r + [a[i]];
        i := i + 1;
      } else {
        r := r + [b[j]];
        j := j + 1;
      }
    }
    AlternateStep(a, i, b, j);
  }

  /** `t` has the addresses of `s`, those of each family in the same order. */
  ghost predicate Rearranges(s: seq<SocketAddr>, t: seq<SocketAddr>) {
    && multiset(t) == multiset(s)
    && OfFamily(t, true) == OfFamily(s, true) && OfFamily(t, false) == OfFamily(s, false)
  }

  /** Sorts addresses for connection attempts. */
  method SortAddresses(addresses: seq<SocketAddr>, c: Config) returns (result: seq<SocketAddr>)
    ensures result == Sorted(c, addresses)
    ensures Rearranges(addresses, result)
  {
    SortKeepsFamilies(c, addresses);
    SortKeepsOrder(c, addresses, true);
    SortKeepsOrder(c, addresses, false);
    if addresses == [] {
      return [];
    }
    var preferred := Filter(c, addresses, true);
    var other := Filter(c, addresses, false);
    var first := if c.firstCount < |preferred| then c.firstCount else |preferred|;
    var woven := Interleave(other, preferred[first..]);
    result := preferred[..first] + woven;
  }

  // What the sort promises, without reference to how it is done.

  lemma {:induction false} OnlySplit(c: Config, s: seq<SocketAddr>)
    ensures multiset(Only(c, s, true)) + multiset(Only(c, s, false)) == multiset(s)
  {
    hide IsPreferred;
    if s != [] {
      OnlySplit(c, s[1..]);
      assert s == [s[0]] + s[1..];
    }
  }

  ghost predicate AllOf(c: Config, s: seq<SocketAddr>, preferred: bool) {
    forall i | 0 <= i < |s| :: IsPreferred(c, s[i]) == preferred
  }

  lemma {:induction false} OnlyIsAllOf(c: Config, s: seq<SocketAddr>, preferred: bool)
    ensures AllOf(c, Only(c, s, preferred), preferred)
  {
    hide IsPreferred;
    if s != [] {
      OnlyIsAllOf(c, s[1..], preferred);
    }
  }

  lemma {:induction false} OnlyConcat(c: Config, a: seq<SocketAddr>, b: seq<SocketAddr>, preferred: bool)
    ensures Only(c, a + b, preferred) == Only(c, a, preferred) + Only(c, b, preferred)
  {
    if a == [] {
      assert a + b == b;
    } else {
      OnlyConcat(c, a[1..], b, preferred);
      assert (a + b)[1..] == a[1..] + b;
    }
  }

  lemma {:induction false} OnlyAll(c: Config, s: seq<SocketAddr>, preferred: bool)
    requires AllOf(c, s, preferred)
    ensures Only(c, s, preferred) == s && Only(c, s, !preferred) == []
  {
    hide IsPreferred;
    if s != [] {
      OnlyAll(c, s[1..], preferred);
    }
  }

  lemma {:induction false} AlternateIsMerge(a: seq<SocketAddr>, b: seq<SocketAddr>)
    ensures multiset(Alternate(a, b)) == multiset(a) + multiset(b)
  {
    if a != [] && b != [] {
      AlternateIsMerge(a[1..], b[1..]);
      Uncons(a);
      Uncons(b);
      var rest := Alternate(a[1..], b[1..]);
      assert multiset(Alternate(a, b)) == multiset{a[0], b[0]} + multiset(rest);
    }
  }

  lemma Uncons(s: seq<SocketAddr>)
    requires s != []
    ensures multiset(s) == multiset{s[0]} + multiset(s[1..])
  {
    assert s == [s[0]] + s[1..];
  }

  lemma OnlyOfPair(c: Config, x: SocketAddr, y: SocketAddr)
    requires !IsPreferred(c, x) && IsPreferred(c, y)
    ensures Only(c, [x, y], false) == [x] && Only(c, [x, y], true) == [y]
  {
    hide IsPreferred;
    assert [x, y][1..] == [y] && [y][1..] == [];
    assert Only(c, [y], true) == [y] && Only(c, [y], false) == [];
  }

  lemma {:induction false} AlternateKeeps(c: Config, a: seq<SocketAddr>, b: seq<SocketAddr>)
    requires AllOf(c, a, false) && AllOf(c, b, true)
    ensures Only(c, Alternate(a, b), false) == a && Only(c, Alternate(a, b), true) == b
  {
    hide IsPreferred, Only;
    if a == [] {
      OnlyAll(c, b, true);
    } else if b == [] {
      OnlyAll(c, a, false);
    } else {
      AlternateKeeps(c, a[1..], b[1..]);
      var rest := Alternate(a[1..], b[1..]);
      OnlyConcat(c, [a[0], b[0]], rest, false);
      OnlyConcat(c, [a[0], b[0]], rest, true);
      OnlyOfPair(c, a[0], b[0]);
    }
  }

  /** Nothing is lost or added, and each family keeps its order. */
  lemma SortKeepsFamilies(c: Config, s: seq<SocketAddr>)
    ensures multiset(Sorted(c, s)) == multiset(s)
    ensures Only(c, Sorted(c, s), true) == Only(c, s, true)
    ensures Only(c, Sorted(c, s), false) == Only(c, s, false)
  {
    hide IsPreferred, Only, Alternate;
    var p, o, k := Only(c, s, true), Only(c, s, false), Head(c, s);
    var head, tail := p[..k], p[k..];
    var rest := Alternate(o, tail);
    assert p == head + tail;
    OnlySplit(c, s);
    OnlyIsAllOf(c, s, true);
    OnlyIsAllOf(c, s, false);
    AlternateIsMerge(o, tail);
    AlternateKeeps(c, o, tail);
    OnlyAll(c, head, true);
    OnlyConcat(c, head, rest, true);
    OnlyConcat(c, head, rest, false);
    assert multiset(head + rest) == multiset(head) + multiset(rest);
  }

  lemma {:induction false} AlternateShape(c: Config, a: seq<SocketAddr>, b: seq<SocketAddr>, i: nat)
    requires AllOf(c, a, false) && AllOf(c, b, true)
    requires i < |Alternate(a, b)|
    ensures |Alternate(a, b)| == |a| + |b|
    ensures IsPreferred(c, Alternate(a, b)[i]) <==>
            if i < 2 * Min(|a|, |b|) then i % 2 == 1 else |a| < |b|
  {
    hide IsPreferred;
    if a != [] && b != [] {
      var rest := Alternate(a[1..], b[1..]);
      if i >= 2 {
        AlternateShape(c, a[1..], b[1..], i - 2);
      } else if rest != [] {
        AlternateShape(c, a[1..], b[1..], 0);
      }
    }
  }

  /** The first `firstCount` places, as far as they go, are preferred; then the families take
      turns, the other one first, until one of them is used up. */
  lemma SortShape(c: Config, s: seq<SocketAddr>, i: nat)
    requires i < |s|
    ensures |Sorted(c, s)| == |s|
    ensures var k := Head(c, s);
            var rounds := Min(|Only(c, s, false)|, |Only(c, s, true)| - k);
            IsPreferred(c, Sorted(c, s)[i]) <==>
              if i < k then true
              else if i < k + 2 * rounds then (i - k) % 2 == 1
              else |Only(c, s, false)| < |Only(c, s, true)| - k
  {
    hide IsPreferred, Only, Alternate;
    var p, o, k := Only(c, s, true), Only(c, s, false), Head(c, s);
    OnlyIsAllOf(c, s, true);
    OnlyIsAllOf(c, s, false);
    SortKeepsFamilies(c, s);
    assert |Sorted(c, s)| == |multiset(Sorted(c, s))| == |multiset(s)| == |s|;
    if i >= k {
      AlternateShape(c, o, p[k..], i - k);
    }
  }

  /** The addresses of one family, in their order. */
  function OfFamily(s: seq<SocketAddr>, v6: bool): seq<SocketAddr> {
    if s == [] then [] else (if s[0].ip.V6? == v6 then [s[0]] else []) + OfFamily(s[1..], v6)
  }

  lemma {:induction false} OnlyIsFamily(c: Config, s: seq<SocketAddr>, preferred: bool)
    ensures Only(c, s, preferred) == OfFamily(s, (c.family == IPv6Preferred) == preferred)
  {
    if s != [] {
      OnlyIsFamily(c, s[1..], preferred);
    }
  }

  /** The IPv6 addresses keep their order, and so do the IPv4 addresses. */
  lemma SortKeepsOrder(c: Config, s: seq<SocketAddr>, v6: bool)
    ensures OfFamily(Sorted(c, s), v6) == OfFamily(s, v6)
  {
    hide Only, Sorted;
    var preferred := v6 == (c.family == IPv6Preferred);
    OnlyIsFamily(c, s, preferred);
    OnlyIsFamily(c, Sorted(c, s), preferred);
    SortKeepsFamilies(c, s);
  }

  /** Which family stands at every place: with IPv6 preferred, `firstCount` IPv6 addresses, or as many as
      there are, then IPv4 and IPv6 by turns until one family is used up, then what is left; and the
      same with the families exchanged when IPv4 is preferred. */
  lemma FamilyAtEveryPlace(c: Config, s: seq<SocketAddr>, i: nat)
    requires i < |s|
    ensures |Sorted(c, s)| == |s|
    ensures var six := c.family == IPv6Preferred;
            var p, o := |OfFamily(s, six)|, |OfFamily(s, !six)|;
            var first := if c.firstCount < p then c.firstCount else p;
            var turns := if o < p - first then o else p - first;
            Sorted(c, s)[i].ip.V6? <==>
              if i < first then six
              else if i < first + 2 * turns then ((i - first) % 2 == 1) == six
              else (o < p - first) == six
  {
    OnlyIsFamily(c, s, true);
    OnlyIsFamily(c, s, false);
    hide Only, Sorted, OfFamily;
    SortShape(c, s, i);
  }

  // ----- racing -----

  type Message = string

  datatype Outcome = Won(addr: SocketAddr) | AllFailed(errors: seq<(SocketAddr, Message)>) | NoAddresses

  /** The race: `running` holds the addresses of attempts whose result has not been received. */
  datatype Race = Race(
    sorted: seq<SocketAddr>,
    nextIndex: nat,
    inFlight: int,
    errors: seq<(SocketAddr, Message)>,
    running: multiset<SocketAddr>,
    outcome: Option<Outcome>)

  /** The delay timer fires, or the result of an attempt is received. */
  datatype Event = Timer | Success(addr: SocketAddr) | Failure(addr: SocketAddr, message: Message)

  function Spawn(r: Race): Race
    requires r.nextIndex < |r.sorted|
  {
    r.(nextIndex := r.nextIndex + 1, inFlight := r.inFlight + 1, running := r.running + multiset{r.sorted[r.nextIndex]})
  }

  /** The first attempt starts at once; without addresses the race is over. */
  function Start(sorted: seq<SocketAddr>): Race {
    if sorted == [] then Race([], 0, 0, [], multiset{}, Some(NoAddresses))
    else Spawn(Race(sorted, 0, 0, [], multiset{}, None))
  }

  /** Results come from attempts under way; the timer is armed while addresses remain. */
  predicate Enabled(r: Race, e: Event) {
    && r.outcome.None?
    && match e
       case Timer => r.nextIndex < |r.sorted|
       case Success(addr) => addr in r.running
       case Failure(addr, _) => addr in r.running
  }

  function Step(r: Race, e: Event): Race
    requires Enabled(r, e)
  {
    match e
    case Timer => Spawn(r)
    case Success(addr) => r.(outcome := Some(Won(addr)))
    case Failure(addr, message) =>
      var r1 := r.(errors := r.errors + [(addr, message)], inFlight := r.inFlight - 1,
                   running := r.running - multiset{addr});
      if r1.nextIndex < |r1.sorted| then Spawn(r1)
      else if r1.inFlight == 0 then r1.(outcome := Some(AllFailed(r1.errors)))
      else r1
  }

  function Addrs(errors: seq<(SocketAddr, Message)>): seq<SocketAddr> {
    seq(|errors|, i requires 0 <= i < |errors| => errors[i].0)
  }

  ghost predicate Inv(r: Race) {
    && r.nextIndex <= |r.sorted|
    && r.inFlight == |r.running|
    && r.inFlight + |r.errors| == r.nextIndex
    && multiset(Addrs(r.errors)) + r.running == multiset(r.sorted[..r.nextIndex])
    && (r.outcome.None? ==> r.inFlight > 0)
    && (r.outcome.Some? && r.outcome.value.AllFailed? ==>
          r.outcome.value.errors == r.errors && r.nextIndex == |r.sorted| && r.running == multiset{})
  }

  /** The timer and every failure start the next address in order at once, as long as there is one; a
      success ends the race, and so does the failure of the last attempt under way when none is left. */
  lemma StepStartsNext(r: Race, e: Event)
    requires Enabled(r, e)
    ensures var t := Step(r, e);
            var left := if e.Failure? then r.running - multiset{e.addr} else r.running;
            && t.sorted == r.sorted
            && (if !e.Success? && r.nextIndex < |r.sorted| then
                  && t.nextIndex == r.nextIndex + 1 && t.running == left + multiset{r.sorted[r.nextIndex]}
                  && t.outcome == None
                else
                  t.nextIndex == r.nextIndex && t.running == left)
            && t.errors == r.errors + (if e.Failure? then [(e.addr, e.message)] else [])
            && (e.Success? ==> t.outcome == Some(Won(e.addr)))
  {
  }

  lemma SpawnKeeps(r: Race)
    requires r.nextIndex < |r.sorted| && r.outcome.None?
    requires r.inFlight == |r.running| && r.inFlight + |r.errors| == r.nextIndex
    requires multiset(Addrs(r.errors)) + r.running == multiset(r.sorted[..r.nextIndex])
    ensures Inv(Spawn(r))
  {
    hide Addrs;
    var n := r.nextIndex;
    assert r.sorted[..n + 1] == r.sorted[..n] + [r.sorted[n]];
  }

  /** Attempts started are the attempts under way plus the failed ones, and some attempt is under
      way until the race is decided. */
  lemma StepKeeps(r: Race, e: Event)
    requires Inv(r) && Enabled(r, e)
    ensures Inv(Step(r, e))
  {
    match e
    case Timer => SpawnKeeps(r);
    case Success(_) =>
    case Failure(addr, message) =>
      var r1 := r.(errors := r.errors + [(addr, message)], inFlight := r.inFlight - 1,
                   running := r.running - multiset{addr});
      assert Addrs(r1.errors) == Addrs(r.errors) + [addr];
      assert r.running == r1.running + multiset{addr};
      if r1.nextIndex < |r1.sorted| {
        SpawnKeeps(r1);
      }
  }

  predicate IsRun(r: Race, es: seq<Event>)
    decreases |es|
  {
    es == [] || (Enabled(r, es[0]) && IsRun(Step(r, es[0]), es[1..]))
  }

  function After(r: Race, es: seq<Event>): Race
    requires IsRun(r, es)
    decreases |es|
  {
    if es == [] then r else After(Step(r, es[0]), es[1..])
  }

  /** The failures received, in order. */
  function Failures(es: seq<Event>): seq<(SocketAddr, Message)> {
    if es == [] then []
    else if es[0].Failure? then [(es[0].addr, es[0].message)] + Failures(es[1..])
    else Failures(es[1..])
  }

  /** Attempts still to be started and results still to be received. */
  function Budget(r: Race): int {
    |r.sorted| - r.nextIndex + |r.sorted| - |r.errors|
  }

  lemma StepSpends(r: Race, e: Event)
    requires Inv(r) && Enabled(r, e)
    ensures Step(r, e).sorted == r.sorted
    ensures Step(r, e).outcome.None? ==> Budget(Step(r, e)) < Budget(r)
    ensures Step(r, e).errors == r.errors + (if e.Failure? then [(e.addr, e.message)] else [])
  {
  }

  lemma {:induction false} RunKeeps(r: Race, es: seq<Event>)
    requires Inv(r) && IsRun(r, es)
    ensures Inv(After(r, es)) && After(r, es).sorted == r.sorted
    ensures |es| <= Budget(r)
    decreases |es|
  {
    hide Inv, Step, Budget;
    InvBudget(r);
    if es != [] {
      StepKeeps(r, es[0]);
      StepSpends(r, es[0]);
      var t := Step(r, es[0]);
      RunKeeps(t, es[1..]);
      if t.outcome.Some? {
        assert es[1..] == [];
      }
    }
  }

  lemma {:induction false} RunCollects(r: Race, es: seq<Event>)
    requires Inv(r) && IsRun(r, es)
    ensures After(r, es).errors == r.errors + Failures(es)
    decreases |es|
  {
    hide Inv, Step;
    if es != [] {
      StepKeeps(r, es[0]);
      StepSpends(r, es[0]);
      RunCollects(Step(r, es[0]), es[1..]);
    }
  }

  lemma InvBudget(r: Race)
    requires Inv(r)
    ensures Budget(r) >= 0 && (r.outcome.None? ==> Budget(r) >= 1)
  {
  }

  /** Once a success is received the race is over and nothing more is handled. */
  lemma {:induction false} WonByLastEvent(r: Race, es: seq<Event>)
    requires r.outcome.None? && IsRun(r, es)
    ensures forall i | 0 <= i < |es| && es[i].Success? :: i == |es| - 1
    ensures es != [] && es[|es| - 1].Success? ==> After(r, es).outcome == Some(Won(es[|es| - 1].addr))
    ensures After(r, es).outcome.Some? && After(r, es).outcome.value.Won? ==>
              es != [] && es[|es| - 1] == Success(After(r, es).outcome.value.addr)
    decreases |es|
  {
    if es != [] {
      var t, rest := Step(r, es[0]), es[1..];
      if t.outcome.Some? {
        assert rest == [];
      } else {
        WonByLastEvent(t, rest);
        assert forall i | 0 <= i < |es| && es[i].Success? :: i > 0 && rest[i - 1] == es[i];
        if rest != [] {
          assert es[|es| - 1] == rest[|rest| - 1];
        }
      }
    }
  }

  /** What a race over `addresses` has come to after `es`: decided by the first success received
      or, failing that, with one error per address, in the order received; until then some
      attempt is under way. */
  ghost predicate Decided(addresses: seq<SocketAddr>, es: seq<Event>, r: Race) {
    match r.outcome
    case None => r.inFlight > 0 && r.inFlight + |r.errors| == r.nextIndex
    case Some(NoAddresses) => addresses == []
    case Some(Won(a)) => es != [] && es[|es| - 1] == Success(a) && forall i | 0 <= i < |es| - 1 :: !es[i].Success?
    case Some(AllFailed(errors)) =>
      && errors == Failures(es) && multiset(Addrs(errors)) == multiset(addresses)
      && forall i | 0 <= i < |es| :: !es[i].Success?
  }

  lemma EndIsDecided(sorted: seq<SocketAddr>, es: seq<Event>, r: Race)
    requires Inv(r) && r.sorted == sorted && r.errors == Failures(es) && r.outcome != Some(NoAddresses)
    requires forall i | 0 <= i < |es| && es[i].Success? :: i == |es| - 1
    requires es != [] && es[|es| - 1].Success? ==> r.outcome == Some(Won(es[|es| - 1].addr))
    requires r.outcome.Some? && r.outcome.value.Won? ==> es != [] && es[|es| - 1] == Success(r.outcome.value.addr)
    ensures Decided(sorted, es, r)
  {
    hide Addrs, Failures;
    assert sorted[..|sorted|] == sorted;
    assert multiset(Addrs(r.errors)) + multiset{} == multiset(Addrs(r.errors));
  }

  lemma NonemptyRace(sorted: seq<SocketAddr>, es: seq<Event>)
    requires sorted != [] && IsRun(Start(sorted), es)
    ensures |es| < 2 * |sorted| && Decided(sorted, es, After(Start(sorted), es))
  {
    var start := Start(sorted);
    assert start.sorted == sorted;
    hide IsRun, After, Start, Failures, Inv, Decided, Budget;
    StartInv(sorted);
    RunKeeps(start, es);
    RunCollects(start, es);
    assert [] + Failures(es) == Failures(es);
    WonByLastEvent(start, es);
    NoAddressesOnlyAtStart(start, es);
    EndIsDecided(sorted, es, After(start, es));
  }

  /** Under every schedule of timers and results the race is decided within `2 * total` events. */
  lemma RaceDecided(c: Config, addresses: seq<SocketAddr>, es: seq<Event>)
    requires IsRun(Start(Sorted(c, addresses)), es)
    ensures |es| <= 2 * |addresses|
    ensures Decided(addresses, es, After(Start(Sorted(c, addresses)), es))
  {
    var sorted := Sorted(c, addresses);
    SortKeepsFamilies(c, addresses);
    assert |sorted| == |multiset(sorted)| == |multiset(addresses)| == |addresses|;
    if sorted == [] {
      assert es == [];
    } else {
      hide Sorted, After, Start, IsRun;
      NonemptyRace(sorted, es);
    }
  }

  lemma {:induction false} NoAddressesOnlyAtStart(r: Race, es: seq<Event>)
    requires IsRun(r, es) && r.outcome != Some(NoAddresses)
    ensures After(r, es).outcome != Some(NoAddresses)
    decreases |es|
  {
    if es != [] {
      NoAddressesOnlyAtStart(Step(r, es[0]), es[1..]);
    }
  }

  lemma StartInv(sorted: seq<SocketAddr>)
    requires sorted != []
    ensures Inv(Start(sorted)) && Start(sorted).outcome.None? && Start(sorted).errors == []
    ensures Budget(Start(sorted)) < 2 * |sorted|
  {
    SpawnKeeps(Race(sorted, 0, 0, [], multiset{}, None));
  }

  lemma SortedLength(c: Config, s: seq<SocketAddr>)
    ensures |Sorted(c, s)| == |s|
  {
    SortKeepsFamilies(c, s);
    assert |Sorted(c, s)| == |multiset(Sorted(c, s))| == |multiset(s)|;
  }

  /** Handling the next event of a schedule. */
  lemma NextEvent(r: Race, es: seq<Event>)
    requires es != [] && IsRun(r, es)
    ensures Enabled(r, es[0]) && IsRun(Step(r, es[0]), es[1..])
    ensures After(r, es) == After(Step(r, es[0]), es[1..])
    ensures Step(r, es[0]).outcome.Some? ==> es[1..] == [] && After(r, es) == Step(r, es[0])
  {
    hide Step;
  }

  /** What the loop keeps of the race, without the attempts themselves. */
  lemma StartCounts(sorted: seq<SocketAddr>)
    requires sorted != []
    ensures var r := Start(sorted);
            r.sorted == sorted && r.nextIndex == 1 && r.inFlight == 1 && r.errors == [] && r.outcome == None
  {
  }

  lemma StepCounts(r: Race, e: Event)
    requires Enabled(r, e)
    ensures var t := Step(r, e);
            var more := r.nextIndex < |r.sorted|;
            && t.sorted == r.sorted && r.outcome == None
            && match e
               case Timer =>
                 && t.nextIndex == r.nextIndex + 1 && t.inFlight == r.inFlight + 1
                 && t.errors == r.errors && t.outcome == None
               case Success(addr) => t.outcome == Some(Won(addr))
               case Failure(addr, message) =>
                 && t.errors == r.errors + [(addr, message)]
                 && t.nextIndex == (if more then r.nextIndex + 1 else r.nextIndex)
                 && t.inFlight == (if more then r.inFlight else r.inFlight - 1)
                 && t.outcome == if !more && t.inFlight == 0 then Some(AllFailed(t.errors)) else None
  {
  }

  /** The event loop, driven by the events of `schedule` as they come; None means that it is still
      waiting when they have come. */
  method RaceConnect(addresses: seq<SocketAddr>, c: Config, schedule: seq<Event>) returns (r: Option<Outcome>)
    requires IsRun(Start(Sorted(c, addresses)), schedule)
    ensures r == After(Start(Sorted(c, addresses)), schedule).outcome
  {
    SortedLength(c, addresses);
    if addresses == [] {
      return Some(NoAddresses);
    }
    hide Sorted, IsRun, After, Rearranges, Step, Enabled, Start;
    var sorted := SortAddresses(addresses, c);
    var total := |sorted|;
    var nextIndex, inFlight := 1, 1;
    var errors := [];
    ghost var race, end := Start(sorted), After(Start(sorted), schedule);
    StartCounts(sorted);
    var rest := schedule;
    while rest != []
      invariant IsRun(race, rest) && After(race, rest) == end
      invariant race.sorted == sorted && race.nextIndex == nextIndex && race.inFlight == inFlight
                && race.errors == errors
      invariant race.outcome == None
      decreases |rest|
    {
      NextEvent(race, rest);
      var e := rest[0];
      StepCounts(race, e);
      race, rest := Step(race, e), rest[1..];
      match e {
        case Timer =>
          nextIndex, inFlight := nextIndex + 1, inFlight + 1;
        case Success(addr) =>
          return Some(Won(addr));
        case Failure(addr, message) =>
          errors := errors + [(addr, message)];
          inFlight := inFlight - 1;
          if nextIndex < total {
            nextIndex, inFlight := nextIndex + 1, inFlight + 1;
          } else if inFlight == 0 {
            return Some(AllFailed(errors));
          }
      }
    }
    NoMoreEvents(race);
    r := None;
  }

  lemma NoMoreEvents(r: Race)
    ensures IsRun(r, []) && After(r, []) == r
  {
  }
}

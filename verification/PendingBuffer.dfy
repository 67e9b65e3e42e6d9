/**
 The bounded buffer of pending messages per peer (src/bounded_pending_buffer.rs): what each
 operation does to the queues, the object that does it, and what whole runs conserve.
 */
module PendingBuffer {
  import opened Prelude

  type Peer = nat

  datatype Entry = Entry(data: seq<byte>, createdAt: Time)

  datatype Config = Config(maxBytes: nat, maxMessages: nat, ttl: nat)

  /** The queues of the peers that have one, and the counters. */
  datatype State = State(queues: map<Peer, seq<Entry>>, dropped: nat, expired: nat)

  const EMPTY := State(map[], 0, 0)

  function Queue(s: State, p: Peer): seq<Entry> {
    if p in s.queues then s.queues[p] else []
  }

  function Bytes(q: seq<Entry>): nat {
    if q == [] then 0 else |q[0].data| + Bytes(q[1..])
  }

  // ----- pushing -----

  /** Whether a message of `len` octets may be added behind `q`. */
  predicate Fits(c: Config, q: seq<Entry>, len: nat) {
    Bytes(q) + len <= c.maxBytes && |q| < c.maxMessages
  }

  /** How many of the oldest entries give way: as few as possible, all of them if need be. */
  function Evicted(c: Config, q: seq<Entry>, len: nat): (n: nat)
    ensures n <= |q|
  {
    if Fits(c, q, len) || q == [] then 0 else 1 + Evicted(c, q[1..], len)
  }

  /** What stays is the longest suffix beside which the new message keeps to both limits, or nothing. */
  lemma {:induction false} EvictedIsLeast(c: Config, q: seq<Entry>, len: nat)
    ensures var n := Evicted(c, q, len);
            && (n == |q| || (Bytes(q[n..]) + len <= c.maxBytes && |q| - n < c.maxMessages))
            && forall k | 0 <= k < n :: Bytes(q[k..]) + len > c.maxBytes || |q| - k >= c.maxMessages
  {
    assert q[0..] == q;
    if !Fits(c, q, len) && q != [] {
      EvictedIsLeast(c, q[1..], len);
      var n := Evicted(c, q[1..], len);
      assert q[1..][n..] == q[n + 1..];
      forall k | 0 <= k < n + 1 ensures Bytes(q[k..]) + len > c.maxBytes || |q| - k >= c.maxMessages {
        if k > 0 {
          assert q[1..][k - 1..] == q[k..];
        }
      }
    }
  }

  /** The queue after a push. */
  function Pushed(c: Config, q: seq<Entry>, e: Entry): seq<Entry> {
    q[Evicted(c, q, |e.data|)..] + [e]
  }

  lemma {:induction false} BytesConcat(a: seq<Entry>, b: seq<Entry>)
    ensures Bytes(a + b) == Bytes(a) + Bytes(b)
  {
    if a == [] {
      assert a + b == b;
    } else {
      BytesConcat(a[1..], b);
      assert (a + b)[1..] == a[1..] + b;
    }
  }

  lemma BytesAppend(q: seq<Entry>, e: Entry)
    ensures Bytes(q + [e]) == Bytes(q) + |e.data|
  {
    BytesConcat(q, [e]);
    assert [e][1..] == [];
  }

  /** Limits of a queue: its octets, and its length, which is one at least when anything was let in. */
  ghost predicate WithinLimits(c: Config, q: seq<Entry>) {
    Bytes(q) <= c.maxBytes && |q| <= Max(1, c.maxMessages)
  }

  lemma PushedWithinLimits(c: Config, q: seq<Entry>, e: Entry)
    requires |e.data| <= c.maxBytes
    ensures WithinLimits(c, Pushed(c, q, e))
  {
    var n := Evicted(c, q, |e.data|);
    EvictedIsLeast(c, q, |e.data|);
    BytesConcat(q[n..], [e]);
    assert Bytes([e]) == |e.data| + Bytes([e][1..]);
    if n == |q| {
      assert q[n..] == [];
    }
  }

  // ----- expiry -----

  predicate IsFresh(c: Config, e: Entry, now: Time) {
    Max(0, now - e.createdAt) < c.ttl
  }

  function Retained(c: Config, q: seq<Entry>, now: Time): (r: seq<Entry>)
    ensures |r| <= |q|
  {
    if q == [] then []
    else if IsFresh(c, q[0], now) then [q[0]] + Retained(c, q[1..], now)
    else Retained(c, q[1..], now)
  }

  /** Expiry keeps every entry younger than the time to live, as often as it was there, and no other:
      an entry from the future counts as just made. */
  lemma {:induction false} RetainedExactly(c: Config, q: seq<Entry>, now: Time, e: Entry)
    ensures multiset(Retained(c, q, now))[e] ==
            if (if now < e.createdAt then 0 else now - e.createdAt) < c.ttl then multiset(q)[e] else 0
  {
    if q == [] {
    } else {
      RetainedExactly(c, q[1..], now, e);
      assert q == [q[0]] + q[1..];
    }
  }

  ghost predicate InOrder(q: seq<Entry>) {
    forall i, j | 0 <= i < j < |q| :: q[i].createdAt <= q[j].createdAt
  }

  /** With entries in order of time, expiry takes a prefix. */
  lemma {:induction false} RetainedIsSuffix(c: Config, q: seq<Entry>, now: Time)
    requires InOrder(q)
    ensures Retained(c, q, now) == q[|q| - |Retained(c, q, now)|..]
  {
    if q != [] {
      RetainedIsSuffix(c, q[1..], now);
      if IsFresh(c, q[0], now) {
        AllRetained(c, q[1..], now);
      }
    }
  }

  lemma {:induction false} AllRetained(c: Config, q: seq<Entry>, now: Time)
    requires forall i | 0 <= i < |q| :: IsFresh(c, q[i], now)
    ensures Retained(c, q, now) == q
  {
    if q != [] {
      AllRetained(c, q[1..], now);
    }
  }

  // ----- operations -----

  datatype Event =
    | Push(peer: Peer, data: seq<byte>, now: Time)
    | Pop(peer: Peer)
    | Clear(peer: Peer)
    | Cleanup(now: Time)

  /** Keeps no queue for a peer that has nothing pending. */
  function WithQueue(s: State, p: Peer, q: seq<Entry>): State {
    s.(queues := if q == [] then s.queues - {p} else s.queues[p := q])
  }

  function RetainAll(c: Config, m: map<Peer, seq<Entry>>, now: Time): map<Peer, seq<Entry>> {
    map p | p in m && Retained(c, m[p], now) != [] :: Retained(c, m[p], now)
  }

  /** Entries all peers together lose to expiry at `now`. */
  ghost function ExpiredAt(c: Config, m: map<Peer, seq<Entry>>, now: Time): nat {
    if m == map[] then 0 else
    var p :| p in m;
    |m[p]| - |Retained(c, m[p], now)| + ExpiredAt(c, m - {p}, now)
  }

  ghost function Step(c: Config, s: State, e: Event): State {
    match e
    case Push(p, data, now) =>
      if |data| > c.maxBytes then s
      else
        var q := Queue(s, p);
        WithQueue(s, p, Pushed(c, q, Entry(data, now))).(dropped := s.dropped + Evicted(c, q, |data|))
    case Pop(p) => if p in s.queues && s.queues[p] != [] then WithQueue(s, p, s.queues[p][1..]) else s
    case Clear(p) => WithQueue(s, p, [])
    case Cleanup(now) =>
      s.(queues := RetainAll(c, s.queues, now), expired := s.expired + ExpiredAt(c, s.queues, now))
  }

  /** A message longer than the limit changes nothing.  Any other joins the end of its peer's queue,
      of which the oldest entries have given way, counted as dropped: none if there was room, and only
      where every longer suffix would have broken a limit.  Other peers keep their queues. */
  lemma PushGives(c: Config, s: State, p: Peer, data: seq<byte>, now: Time)
    ensures var t, q := Step(c, s, Push(p, data, now)), Queue(s, p);
            && (|data| > c.maxBytes ==> t == s)
            && (|data| <= c.maxBytes ==>
                  && s.dropped <= t.dropped <= s.dropped + |q| && t.expired == s.expired
                  && var n := t.dropped - s.dropped;
                     && Queue(t, p) == q[n..] + [Entry(data, now)]
                     && (Bytes(q) + |data| <= c.maxBytes && |q| < c.maxMessages ==> n == 0)
                     && (forall k | 0 <= k < n :: Bytes(q[k..]) + |data| > c.maxBytes || |q| - k >= c.maxMessages))
            && (forall o | o != p :: Queue(t, o) == Queue(s, o))
  {
    EvictedIsLeast(c, Queue(s, p), |data|);
    assert Queue(s, p)[0..] == Queue(s, p);
    hide Evicted, Bytes;
  }

  lemma PushState(c: Config, s: State, p: Peer, data: seq<byte>, now: Time)
    ensures var q := Queue(s, p);
            var n := Evicted(c, q, |data|);
            Step(c, s, Push(p, data, now)) ==
            if |data| > c.maxBytes then s
            else State(s.queues[p := q[n..] + [Entry(data, now)]], s.dropped + n, s.expired)
  {
    hide Evicted;
  }

  /** A queue with room for the message loses nothing. */
  lemma RoomLosesNothing(c: Config, s: State, p: Peer, data: seq<byte>, now: Time)
    requires Bytes(Queue(s, p)) + |data| <= c.maxBytes && |Queue(s, p)| < c.maxMessages
    ensures Queue(Step(c, s, Push(p, data, now)), p) == Queue(s, p) + [Entry(data, now)]
    ensures Step(c, s, Push(p, data, now)).dropped == s.dropped
  {
    hide Step, Bytes;
    PushGives(c, s, p, data, now);
    assert Queue(s, p)[0..] == Queue(s, p);
  }

  /** After a cleanup every peer still has each of its entries younger than the time to live, as often
      as before, and no other. */
  lemma CleanupGives(c: Config, s: State, now: Time, p: Peer, e: Entry)
    ensures multiset(Queue(Step(c, s, Cleanup(now)), p))[e] ==
            if (if now < e.createdAt then 0 else now - e.createdAt) < c.ttl then multiset(Queue(s, p))[e] else 0
  {
    RetainedExactly(c, Queue(s, p), now, e);
    hide Retained;
    if p in s.queues {
      assert Queue(Step(c, s, Cleanup(now)), p) == Retained(c, Queue(s, p), now);
    }
  }

  ghost predicate Inv(c: Config, s: State) {
    forall p | p in s.queues :: s.queues[p] != [] && WithinLimits(c, s.queues[p])
  }

  lemma {:induction false} SuffixWithin(c: Config, q: seq<Entry>, k: nat)
    requires WithinLimits(c, q) && k <= |q|
    ensures WithinLimits(c, q[k..])
  {
    BytesConcat(q[..k], q[k..]);
    assert q == q[..k] + q[k..];
  }

  lemma {:induction false} RetainedBytes(c: Config, q: seq<Entry>, now: Time)
    ensures Bytes(Retained(c, q, now)) <= Bytes(q)
  {
    if q != [] {
      RetainedBytes(c, q[1..], now);
    }
  }

  /** Every operation keeps every queue non-empty and within its limits. */
  lemma StepKeeps(c: Config, s: State, e: Event)
    requires Inv(c, s)
    ensures Inv(c, Step(c, s, e))
  {
    hide WithinLimits, Retained, Evicted;
    match e
    case Push(p, data, now) =>
      if |data| <= c.maxBytes {
        PushedWithinLimits(c, Queue(s, p), Entry(data, now));
      }
    case Pop(p) =>
      if p in s.queues {
        SuffixWithin(c, s.queues[p], 1);
      }
    case Clear(p) =>
    case Cleanup(now) =>
      forall p | p in s.queues ensures WithinLimits(c, Retained(c, s.queues[p], now)) {
        RetainedWithin(c, s.queues[p], now);
      }
  }

  lemma RetainedWithin(c: Config, q: seq<Entry>, now: Time)
    requires WithinLimits(c, q)
    ensures WithinLimits(c, Retained(c, q, now))
  {
    RetainedBytes(c, q, now);
  }

  // ----- totals over runs, whatever the clock does -----

  ghost function Held(m: map<Peer, seq<Entry>>): nat {
    if m == map[] then 0 else
    var p :| p in m;
    |m[p]| + Held(m - {p})
  }

  lemma {:induction false} HeldWithout(m: map<Peer, seq<Entry>>, p: Peer)
    requires p in m
    ensures Held(m) == |m[p]| + Held(m - {p})
    decreases |m|
  {
    var j :| j in m && Held(m) == |m[j]| + Held(m - {j});
    if j != p {
      HeldWithout(m - {j}, p);
      HeldWithout(m - {p}, j);
      assert m - {j} - {p} == m - {p} - {j};
    }
  }

  /** Octets of all the queues together. */
  ghost function HeldBytes(m: map<Peer, seq<Entry>>): nat {
    if m == map[] then 0 else
    var p :| p in m;
    Bytes(m[p]) + HeldBytes(m - {p})
  }

  lemma {:induction false} HeldBytesWithout(m: map<Peer, seq<Entry>>, p: Peer)
    requires p in m
    ensures HeldBytes(m) == Bytes(m[p]) + HeldBytes(m - {p})
    decreases |m|
  {
    hide Bytes;
    var j :| j in m && HeldBytes(m) == Bytes(m[j]) + HeldBytes(m - {j});
    if j != p {
      HeldBytesWithout(m - {j}, p);
      HeldBytesWithout(m - {p}, j);
      assert m - {j} - {p} == m - {p} - {j};
    }
  }

  lemma HeldChanged(s: State, p: Peer, q: seq<Entry>)
    ensures Held(WithQueue(s, p, q).queues) == Held(s.queues) - |Queue(s, p)| + |q|
    ensures WithQueue(s, p, q).dropped == s.dropped && WithQueue(s, p, q).expired == s.expired
  {
    hide Held;
    var m, m' := s.queues, WithQueue(s, p, q).queues;
    if p in m {
      HeldWithout(m, p);
    }
    if p in m' {
      HeldWithout(m', p);
    }
    assert m - {p} == m' - {p};
    if p !in m {
      assert m - {p} == m;
    }
    if p !in m' {
      assert m' - {p} == m';
    }
  }

  lemma RetainAllWithout(c: Config, m: map<Peer, seq<Entry>>, p: Peer, now: Time)
    requires p in m
    ensures var kept := RetainAll(c, m, now);
            && RetainAll(c, m - {p}, now) == kept - {p}
            && (if p in kept then kept[p] == Retained(c, m[p], now) else Retained(c, m[p], now) == [])
  {
    hide Retained;
  }

  lemma {:induction false} HeldRetained(c: Config, m: map<Peer, seq<Entry>>, now: Time)
    ensures Held(RetainAll(c, m, now)) + ExpiredAt(c, m, now) == Held(m)
    decreases |m|
  {
    if m == map[] {
      assert RetainAll(c, m, now) == map[];
    } else {
      var p :| p in m && ExpiredAt(c, m, now) == |m[p]| - |Retained(c, m[p], now)| + ExpiredAt(c, m - {p}, now);
      hide Retained, ExpiredAt, Held, RetainAll;
      HeldRetained(c, m - {p}, now);
      HeldWithout(m, p);
      var kept := RetainAll(c, m, now);
      RetainAllWithout(c, m, p, now);
      if p in kept {
        HeldWithout(kept, p);
      } else {
        assert kept - {p} == kept;
      }
    }
  }

  function AcceptedBy(c: Config, e: Event): nat {
    if e.Push? && |e.data| <= c.maxBytes then 1 else 0
  }

  /** Messages handed out or cleared by an operation. */
  function TakenBy(s: State, e: Event): nat {
    match e
    case Pop(p) => if Queue(s, p) == [] then 0 else 1
    case Clear(p) => |Queue(s, p)|
    case _ => 0
  }

  lemma StepConserves(c: Config, s: State, e: Event)
    ensures var t := Step(c, s, e);
            Held(s.queues) + AcceptedBy(c, e)
            == Held(t.queues) + (t.dropped - s.dropped) + (t.expired - s.expired) + TakenBy(s, e)
  {
    hide Held, ExpiredAt, Retained, Evicted, WithQueue;
    match e
    case Push(p, data, now) => HeldChanged(s, p, Pushed(c, Queue(s, p), Entry(data, now)));
    case Pop(p) =>
      if p in s.queues && s.queues[p] != [] {
        HeldChanged(s, p, s.queues[p][1..]);
      }
    case Clear(p) => HeldChanged(s, p, []);
    case Cleanup(now) => HeldRetained(c, s.queues, now);
  }

  ghost function After(c: Config, s: State, es: seq<Event>): State
    decreases |es|
  {
    if es == [] then s else After(c, Step(c, s, es[0]), es[1..])
  }

  ghost function Accepted(c: Config, es: seq<Event>): nat {
    if es == [] then 0 else AcceptedBy(c, es[0]) + Accepted(c, es[1..])
  }

  ghost function Taken(c: Config, s: State, es: seq<Event>): nat
    decreases |es|
  {
    if es == [] then 0 else TakenBy(s, es[0]) + Taken(c, Step(c, s, es[0]), es[1..])
  }

  /** Over every run the queues stay within their limits, and every accepted message is held,
      counted as dropped or expired, or was taken: none is lost or counted twice. */
  lemma {:induction false} RunConserves(c: Config, s: State, es: seq<Event>)
    requires Inv(c, s)
    ensures Inv(c, After(c, s, es))
    ensures var t := After(c, s, es);
            Held(s.queues) + Accepted(c, es)
            == Held(t.queues) + (t.dropped - s.dropped) + (t.expired - s.expired) + Taken(c, s, es)
    decreases |es|
  {
    hide Held, Step, Inv;
    if es != [] {
      StepKeeps(c, s, es[0]);
      StepConserves(c, s, es[0]);
      RunConserves(c, Step(c, s, es[0]), es[1..]);
    }
  }

  // ----- order, with a clock that does not run backwards -----

  datatype Why = Popped | Dropped | Expired | Cleared

  datatype Gone = Gone(entry: Entry, why: Why)

  function Tag(q: seq<Entry>, why: Why): (r: seq<Gone>)
    ensures |r| == |q| && forall i | 0 <= i < |q| :: r[i] == Gone(q[i], why)
  {
    if q == [] then [] else [Gone(q[0], why)] + Tag(q[1..], why)
  }

  function Entries(g: seq<Gone>): seq<Entry> {
    if g == [] then [] else [g[0].entry] + Entries(g[1..])
  }

  lemma {:induction false} EntriesOfTag(q: seq<Entry>, why: Why)
    ensures Entries(Tag(q, why)) == q
  {
    if q != [] {
      EntriesOfTag(q[1..], why);
    }
  }

  lemma EntriesStep(g: seq<Gone>)
    requires g != []
    ensures Entries(g) == [g[0].entry] + Entries(g[1..])
  {
  }

  lemma {:induction false} EntriesConcat(a: seq<Gone>, b: seq<Gone>)
    ensures Entries(a + b) == Entries(a) + Entries(b)
  {
    if a == [] {
      assert a + b == b;
    } else {
      EntriesConcat(a[1..], b);
      EntriesStep(a);
      EntriesStep(a + b);
      hide Entries;
      assert (a + b)[1..] == a[1..] + b;
      var first, rest, more := [a[0].entry], Entries(a[1..]), Entries(b);
      assert first + (rest + more) == (first + rest) + more;
    }
  }

  /** What an operation takes off the front of a peer's queue, and why. */
  function GoneBy(c: Config, s: State, e: Event, p: Peer): seq<Gone> {
    var q := Queue(s, p);
    match e
    case Push(peer, data, _) =>
      if peer == p && |data| <= c.maxBytes then Tag(q[..Evicted(c, q, |data|)], Dropped) else []
    case Pop(peer) => if peer == p && q != [] then Tag(q[..1], Popped) else []
    case Clear(peer) => if peer == p then Tag(q, Cleared) else []
    case Cleanup(now) => Tag(q[..|q| - |Retained(c, q, now)|], Expired)
  }

  function AddedBy(c: Config, e: Event, p: Peer): seq<Entry> {
    if e.Push? && e.peer == p && |e.data| <= c.maxBytes then [Entry(e.data, e.now)] else []
  }

  lemma SplitTagged(q: seq<Entry>, n: nat, why: Why, add: seq<Entry>)
    requires n <= |q|
    ensures q + add == Entries(Tag(q[..n], why)) + (q[n..] + add)
  {
    EntriesOfTag(q[..n], why);
    assert q == q[..n] + q[n..];
  }

  lemma StepInOrder(c: Config, s: State, e: Event, p: Peer)
    requires Inv(c, s) && InOrder(Queue(s, p))
    ensures Queue(s, p) + AddedBy(c, e, p) == Entries(GoneBy(c, s, e, p)) + Queue(Step(c, s, e), p)
  {
    hide Retained, Evicted, ExpiredAt, InOrder, WithinLimits, Tag, Entries;
    var q := Queue(s, p);
    NoEntries();
    match e
    case Push(peer, data, now) =>
      if peer == p && |data| <= c.maxBytes {
        SplitTagged(q, Evicted(c, q, |data|), Dropped, [Entry(data, now)]);
      }
    case Pop(peer) =>
      if peer == p && q != [] {
        SplitTagged(q, 1, Popped, []);
        assert q[1..] + [] == q[1..];
      }
    case Clear(peer) =>
      if peer == p {
        SplitTagged(q, |q|, Cleared, []);
        assert q[..|q|] == q && q[|q|..] + [] == [];
      }
    case Cleanup(now) =>
      RetainedIsSuffix(c, q, now);
      SplitTagged(q, |q| - |Retained(c, q, now)|, Expired, []);
      NothingRetained(c, now);
      var kept := Retained(c, q, now);
      assert kept + [] == kept;
  }

  lemma NoEntries()
    ensures Entries([]) == []
  {
  }

  lemma RetainedStep(c: Config, q: seq<Entry>, now: Time)
    requires q != []
    ensures Retained(c, q, now)
         == (if IsFresh(c, q[0], now) then [q[0]] + Retained(c, q[1..], now) else Retained(c, q[1..], now))
  {
  }

  lemma NothingRetained(c: Config, now: Time)
    ensures Retained(c, [], now) == []
  {
  }

  function TimeOf(e: Event, now: Time): Time {
    if e.Push? || e.Cleanup? then e.now else now
  }

  predicate ClockForward(es: seq<Event>, now: Time) {
    es == [] || (now <= TimeOf(es[0], now) && ClockForward(es[1..], TimeOf(es[0], now)))
  }

  /** The queue is in order of time and holds nothing dated later than `now`. */
  ghost predicate Dated(q: seq<Entry>, now: Time) {
    InOrder(q) && forall i | 0 <= i < |q| :: q[i].createdAt <= now
  }

  lemma DatedStep(c: Config, s: State, e: Event, p: Peer, now: Time)
    requires Inv(c, s) && Dated(Queue(s, p), now) && now <= TimeOf(e, now)
    ensures Dated(Queue(Step(c, s, e), p), TimeOf(e, now))
  {
    hide Retained, Evicted, ExpiredAt, WithinLimits;
    if e.Cleanup? {
      RetainedIsSuffix(c, Queue(s, p), e.now);
      NothingRetained(c, e.now);
    }
  }

  ghost function GoneIn(c: Config, s: State, es: seq<Event>, p: Peer): seq<Gone>
    decreases |es|
  {
    if es == [] then [] else GoneBy(c, s, es[0], p) + GoneIn(c, Step(c, s, es[0]), es[1..], p)
  }

  ghost function AddedIn(c: Config, es: seq<Event>, p: Peer): seq<Entry> {
    if es == [] then [] else AddedBy(c, es[0], p) + AddedIn(c, es[1..], p)
  }

  /** Over every run with a forward clock a peer's queue is first in, first out: what was queued
      and accepted is, in this order, what left, whatever the reason, and what is left. */
  lemma {:induction false} RunIsFifo(c: Config, s: State, es: seq<Event>, p: Peer, now: Time)
    requires Inv(c, s) && Dated(Queue(s, p), now) && ClockForward(es, now)
    ensures Queue(s, p) + AddedIn(c, es, p) == Entries(GoneIn(c, s, es, p)) + Queue(After(c, s, es), p)
    decreases |es|
  {
    hide Inv, Step, Queue, AddedBy, GoneBy;
    if es != [] {
      var e, rest := es[0], es[1..];
      var t := Step(c, s, e);
      StepKeeps(c, s, e);
      StepInOrder(c, s, e, p);
      DatedStep(c, s, e, p, now);
      RunIsFifo(c, t, rest, p, TimeOf(e, now));
      EntriesConcat(GoneBy(c, s, e, p), GoneIn(c, t, rest, p));
      var q, add, more, out := Queue(s, p), AddedBy(c, e, p), AddedIn(c, rest, p), Entries(GoneBy(c, s, e, p));
      assert q + (add + more) == (q + add) + more;
      assert out + Queue(t, p) + more == out + (Queue(t, p) + more);
    }
  }

  predicate IsSubsequence(a: seq<Entry>, b: seq<Entry>) {
    a == [] || (b != [] && ((a[0] == b[0] && IsSubsequence(a[1..], b[1..])) || IsSubsequence(a, b[1..])))
  }

  lemma {:induction false} SubsequenceExtends(a: seq<Entry>, b: seq<Entry>, more: seq<Entry>)
    requires IsSubsequence(a, b)
    ensures IsSubsequence(a, b + more)
    decreases |b|
  {
    if a != [] {
      assert (b + more)[1..] == b[1..] + more;
      if a[0] == b[0] && IsSubsequence(a[1..], b[1..]) {
        SubsequenceExtends(a[1..], b[1..], more);
      } else {
        SubsequenceExtends(a, b[1..], more);
      }
    }
  }

  /** The entries that left for the given reason. */
  function For(g: seq<Gone>, why: Why): seq<Entry> {
    if g == [] then []
    else if g[0].why == why then [g[0].entry] + For(g[1..], why)
    else For(g[1..], why)
  }

  lemma {:induction false} ForIsSubsequence(g: seq<Gone>, why: Why)
    ensures IsSubsequence(For(g, why), Entries(g))
  {
    if g != [] {
      ForIsSubsequence(g[1..], why);
      assert Entries(g)[1..] == Entries(g[1..]);
      if g[0].why == why {
        assert For(g, why)[1..] == For(g[1..], why);
      }
    }
  }

  /** A peer's popped messages come out in the order they were accepted. */
  lemma PoppedInOrder(c: Config, es: seq<Event>, p: Peer, now: Time)
    requires ClockForward(es, now)
    ensures IsSubsequence(For(GoneIn(c, EMPTY, es, p), Popped), AddedIn(c, es, p))
  {
    RunIsFifo(c, EMPTY, es, p, now);
    var gone := GoneIn(c, EMPTY, es, p);
    ForIsSubsequence(gone, Popped);
    SubsequenceExtends(For(gone, Popped), Entries(gone), Queue(After(c, EMPTY, es), p));
    assert [] + AddedIn(c, es, p) == AddedIn(c, es, p);
  }

  // ----- the object -----

  datatype PeerData = PeerData(entries: seq<Entry>, totalBytes: nat)

  function EntriesOf(data: map<Peer, PeerData>): map<Peer, seq<Entry>> {
    map p | p in data :: data[p].entries
  }

  lemma QueueOf(data: map<Peer, PeerData>, p: Peer, s: State)
    requires s.queues == EntriesOf(data)
    ensures Queue(s, p) == if p in data then data[p].entries else []
  {
  }

  lemma EntriesPut(data: map<Peer, PeerData>, p: Peer, d: PeerData)
    ensures EntriesOf(data[p := d]) == EntriesOf(data)[p := d.entries]
  {
  }

  class BoundedPendingBuffer {
    const config: Config
    var data: map<Peer, PeerData>
    var dropped: nat
    var expired: nat

    ghost function View(): State
      reads this
    {
      State(EntriesOf(data), dropped, expired)
    }

    /** Octets are counted exactly, so that the source's saturating subtractions never saturate. */
    ghost predicate Valid()
      reads this
    {
      Inv(config, View()) && forall p | p in data :: data[p].totalBytes == Bytes(data[p].entries)
    }

    constructor (config: Config)
      ensures Valid() && View() == EMPTY && this.config == config
    {
      this.config, data, dropped, expired := config, map[], 0, 0;
    }

    /** Queues a message, dropping the oldest ones until it fits; one that can never fit is refused. */
    method PushMessage(p: Peer, message: seq<byte>, now: Time) returns (ok: bool)
      requires Valid()
      modifies this
      ensures Valid() && View() == Step(config, old(View()), Push(p, message, now))
      ensures ok <==> |message| <= config.maxBytes
      ensures var q := Queue(old(View()), p);
              Bytes(q) + |message| <= config.maxBytes && |q| < config.maxMessages ==>
                Queue(View(), p) == q + [Entry(message, now)] && dropped == old(dropped)
    {
      assert Bytes([]) == 0;
      hide Inv, Evicted, Bytes, Step, EntriesOf, Pushed;
      ghost var before := View();
      StepKeeps(config, before, Push(p, message, now));
      PushState(config, before, p, message, now);
      if Bytes(Queue(before, p)) + |message| <= config.maxBytes && |Queue(before, p)| < config.maxMessages {
        RoomLosesNothing(config, before, p, message, now);
      }
      if |message| > config.maxBytes {
        return false;
      }
      var old_ := if p in data then data[p] else PeerData([], 0);
      QueueOf(data, p, before);
      var entries, bytes, count := MakeRoom(old_.entries, old_.totalBytes, |message|);
      dropped := dropped + count;
      BytesAppend(entries, Entry(message, now));
      var new_ := PeerData(entries + [Entry(message, now)], bytes + |message|);
      EntriesPut(data, p, new_);
      data := data[p := new_];
      return true;
    }

    /** Drops the oldest entries until a message of `len` octets fits, or none is left. */
    method MakeRoom(q: seq<Entry>, total: nat, len: nat) returns (entries: seq<Entry>, bytes: nat, count: nat)
      requires total == Bytes(q)
      ensures count == Evicted(config, q, len) && entries == q[count..] && bytes == Bytes(entries)
      ensures entries == [] || (bytes + len <= config.maxBytes && |entries| < config.maxMessages)
    {
      entries, bytes, count := q, total, 0;
      while bytes + len > config.maxBytes || |entries| >= config.maxMessages
        invariant count <= |q| && entries == q[count..] && bytes == Bytes(entries)
        invariant Evicted(config, q, len) == count + Evicted(config, entries, len)
        decreases |entries|
      {
        if entries == [] {
          break;
        }
        bytes := SaturatingSub(bytes, |entries[0].data|);
        entries := entries[1..];
        count := count + 1;
      }
    }

    /** Hands out a peer's oldest message. */
    method PopMessage(p: Peer) returns (r: Option<seq<byte>>)
      requires Valid()
      modifies this
      ensures Valid() && View() == Step(config, old(View()), Pop(p))
      ensures r == if Queue(old(View()), p) == [] then None else Some(Queue(old(View()), p)[0].data)
    {
      ghost var before := View();
      StepKeeps(config, before, Pop(p));
      if p !in data {
        return None;
      }
      var d := data[p];
      assert d.entries == before.queues[p];
      if d.entries == [] {
        assert false;
      } else {
        r := Some(d.entries[0].data);
        var left := d.entries[1..];
        var bytes := SaturatingSub(d.totalBytes, |d.entries[0].data|);
        data := if left == [] then data - {p} else data[p := PeerData(left, bytes)];
        assert View().queues == WithQueue(before, p, left).queues;
      }
    }

    /** Hands out the oldest message of some peer; there is none exactly when nothing is held. */
    method PopAny() returns (r: Option<(Peer, seq<byte>)>)
      requires Valid()
      modifies this
      ensures Valid()
      ensures r.None? <==> old(View()).queues == map[]
      ensures r.None? ==> View() == old(View())
      ensures r.Some? ==>
                && r.value.0 in old(View()).queues && r.value.1 == old(View()).queues[r.value.0][0].data
                && View() == Step(config, old(View()), Pop(r.value.0))
    {
      if data == map[] {
        return None;
      }
      var p :| p in data;
      assert p in View().queues;
      var m := PopMessage(p);
      r := Some((p, m.value));
    }

    /** The figures reported are the totals that `RunConserves` is about. */
    method Stats() returns (peers: nat, messages: nat, bytes: nat)
      requires Valid()
      ensures peers == |View().queues| && messages == Held(View().queues) && bytes == HeldBytes(View().queues)
    {
      hide Inv, Held, HeldBytes, Rest, EntriesOf;
      ghost var queues := EntriesOf(data);
      StatsStart(data);
      peers, messages, bytes := |data|, 0, 0;
      var left := data.Keys;
      while left != {}
        invariant left <= data.Keys
        invariant messages + Held(Rest(queues, left)) == Held(queues)
        invariant bytes + HeldBytes(Rest(queues, left)) == HeldBytes(queues)
        decreases |left|
      {
        var p :| p in left;
        StatsStep(data, left, p);
        messages := messages + |data[p].entries|;
        bytes := bytes + data[p].totalBytes;
        left := left - {p};
      }
      StatsEnd(queues);
    }

    method ClearPeer(p: Peer)
      requires Valid()
      modifies this
      ensures Valid() && View() == Step(config, old(View()), Clear(p))
    {
      ghost var before := View();
      StepKeeps(config, before, Clear(p));
      data := data - {p};
      assert View().queues == before.queues - {p};
    }

    /** Drops what is past its time from one queue. */
    method RetainFresh(d: PeerData, now: Time) returns (r: PeerData)
      requires d.totalBytes == Bytes(d.entries)
      ensures r == PeerData(Retained(config, d.entries, now), Bytes(Retained(config, d.entries, now)))
    {
      hide Retained, Bytes, IsFresh, Filtering;
      var kept, bytes, left := [], d.totalBytes, d.entries;
      FilterStart(config, left, now);
      while left != []
        invariant Filtering(config, d.entries, now, kept, bytes, left)
        decreases |left|
      {
        var e := left[0];
        FilterStep(config, d.entries, now, kept, bytes, left);
        if IsFresh(config, e, now) {
          kept := kept + [e];
        } else {
          bytes := SaturatingSub(bytes, |e.data|);
        }
        left := left[1..];
      }
      FilterEnd(config, d.entries, now, kept, bytes);
      r := PeerData(kept, bytes);
    }

    /** Drops what is past its time from every queue. */
    method CleanupExpired(now: Time)
      requires Valid()
      modifies this
      ensures Valid() && View() == Step(config, old(View()), Cleanup(now))
    {
      hide Retained, ExpiredAt, Inv, Sweeping, Rest, RetainAll, Bytes;
      ghost var before := View();
      StepKeeps(config, before, Cleanup(now));
      var left := data.Keys;
      assert left == before.queues.Keys;
      AllLeft(config, before.queues, now);
      SweepStart(config, before.queues, now, data);
      while left != {}
        invariant Sweeping(config, before.queues, now, left, data)
        invariant expired + ExpiredAt(config, Rest(before.queues, left), now)
               == before.expired + ExpiredAt(config, before.queues, now)
        invariant dropped == before.dropped
        decreases |left|
      {
        var p :| p in left;
        SweepHolds(config, before.queues, now, left, data, p);
        var d := data[p];
        var kept := RetainFresh(d, now);
        RestWithout(config, before.queues, left, p, now);
        expired := expired + (|d.entries| - |kept.entries|);
        SweepStep(config, before.queues, now, left, data, p, kept);
        data := if kept.entries == [] then data - {p} else data[p := kept];
        left := left - {p};
      }
      NothingLeft(config, before.queues, now);
      SweepEnd(config, before.queues, now, data);
    }
  }

  /** Part of the way through one queue: `left` is still to be looked at. */
  ghost predicate Filtering(c: Config, q: seq<Entry>, now: Time, kept: seq<Entry>, bytes: nat, left: seq<Entry>) {
    bytes == Bytes(kept) + Bytes(left) && kept + Retained(c, left, now) == Retained(c, q, now)
  }

  lemma FilterStart(c: Config, q: seq<Entry>, now: Time)
    ensures Filtering(c, q, now, [], Bytes(q), q)
  {
    hide Retained;
    assert [] + Retained(c, q, now) == Retained(c, q, now);
  }

  lemma Reassociate(a: seq<Entry>, b: seq<Entry>, c: seq<Entry>)
    ensures a + (b + c) == (a + b) + c
  {
  }

  lemma BytesOfNext(kept: seq<Entry>, left: seq<Entry>)
    requires left != []
    ensures Bytes(kept + [left[0]]) == Bytes(kept) + |left[0].data|
    ensures Bytes(left) == |left[0].data| + Bytes(left[1..])
  {
    BytesConcat(kept, [left[0]]);
    assert [left[0]][1..] == [];
  }

  lemma FilterStep(c: Config, q: seq<Entry>, now: Time, kept: seq<Entry>, bytes: nat, left: seq<Entry>)
    requires Filtering(c, q, now, kept, bytes, left) && left != []
    ensures var e := left[0];
            if IsFresh(c, e, now) then Filtering(c, q, now, kept + [e], bytes, left[1..])
            else |e.data| <= bytes && Filtering(c, q, now, kept, bytes - |e.data|, left[1..])
  {
    hide Retained, Bytes, IsFresh;
    var e := left[0];
    RetainedStep(c, left, now);
    BytesOfNext(kept, left);
    Reassociate(kept, [e], Retained(c, left[1..], now));
  }

  lemma FilterEnd(c: Config, q: seq<Entry>, now: Time, kept: seq<Entry>, bytes: nat)
    requires Filtering(c, q, now, kept, bytes, [])
    ensures kept == Retained(c, q, now) && bytes == Bytes(kept)
  {
    NothingRetained(c, now);
    assert Bytes([]) == 0;
    hide Retained, Bytes;
    assert kept + [] == kept;
  }

  /** Part of the way through a sweep: the queues of `left` are still to be done. */
  ghost predicate Sweeping(c: Config, before: map<Peer, seq<Entry>>, now: Time, left: set<Peer>,
                           data: map<Peer, PeerData>) {
    && left <= before.Keys && data.Keys <= before.Keys
    && (forall p | p in left :: p in data && data[p] == PeerData(before[p], Bytes(before[p])))
    && (forall p | p in before && p !in left :: p in data <==> Retained(c, before[p], now) != [])
    && (forall p | p in data && p !in left ::
          data[p] == PeerData(Retained(c, before[p], now), Bytes(Retained(c, before[p], now))))
  }

  lemma SweepStart(c: Config, before: map<Peer, seq<Entry>>, now: Time, data: map<Peer, PeerData>)
    requires data.Keys == before.Keys && forall p | p in data :: data[p] == PeerData(before[p], Bytes(before[p]))
    ensures Sweeping(c, before, now, before.Keys, data)
  {
  }

  lemma SweepHolds(c: Config, before: map<Peer, seq<Entry>>, now: Time, left: set<Peer>, data: map<Peer, PeerData>,
                   p: Peer)
    requires Sweeping(c, before, now, left, data) && p in left
    ensures p in before && p in data && data[p] == PeerData(before[p], Bytes(before[p]))
  {
  }

  lemma SweepStep(c: Config, before: map<Peer, seq<Entry>>, now: Time, left: set<Peer>, data: map<Peer, PeerData>,
                  p: Peer, kept: PeerData)
    requires Sweeping(c, before, now, left, data) && p in left
    requires kept == PeerData(Retained(c, before[p], now), Bytes(Retained(c, before[p], now)))
    ensures Sweeping(c, before, now, left - {p}, if kept.entries == [] then data - {p} else data[p := kept])
  {
    hide Retained, Bytes;
  }

  lemma SweepEnd(c: Config, before: map<Peer, seq<Entry>>, now: Time, data: map<Peer, PeerData>)
    requires Sweeping(c, before, now, {}, data)
    ensures EntriesOf(data) == RetainAll(c, before, now)
    ensures forall p | p in data :: data[p].totalBytes == Bytes(data[p].entries)
  {
    hide Retained, Bytes;
  }

  ghost function Rest(m: map<Peer, seq<Entry>>, left: set<Peer>): map<Peer, seq<Entry>> {
    map p | p in m && p in left :: m[p]
  }

  lemma {:induction false} ExpiredWithout(c: Config, m: map<Peer, seq<Entry>>, p: Peer, now: Time)
    requires p in m
    ensures ExpiredAt(c, m, now) == |m[p]| - |Retained(c, m[p], now)| + ExpiredAt(c, m - {p}, now)
    decreases |m|
  {
    var j :| j in m && ExpiredAt(c, m, now) == |m[j]| - |Retained(c, m[j], now)| + ExpiredAt(c, m - {j}, now);
    if j != p {
      ExpiredWithout(c, m - {j}, p, now);
      ExpiredWithout(c, m - {p}, j, now);
      assert m - {j} - {p} == m - {p} - {j};
    }
  }

  lemma StatsStart(data: map<Peer, PeerData>)
    ensures var queues := EntriesOf(data); Rest(queues, data.Keys) == queues && |queues| == |data|
  {
    assert EntriesOf(data).Keys == data.Keys;
    assert |EntriesOf(data).Keys| == |EntriesOf(data)| && |data.Keys| == |data|;
  }

  lemma StatsStep(data: map<Peer, PeerData>, left: set<Peer>, p: Peer)
    requires p in left && p in data
    ensures var queues := EntriesOf(data);
            && Held(Rest(queues, left)) == |data[p].entries| + Held(Rest(queues, left - {p}))
            && HeldBytes(Rest(queues, left)) == Bytes(data[p].entries) + HeldBytes(Rest(queues, left - {p}))
  {
    hide Held, HeldBytes, Bytes;
    var queues := EntriesOf(data);
    HeldWithout(Rest(queues, left), p);
    HeldBytesWithout(Rest(queues, left), p);
    assert Rest(queues, left) - {p} == Rest(queues, left - {p});
  }

  lemma StatsEnd(m: map<Peer, seq<Entry>>)
    ensures Held(Rest(m, {})) == 0 && HeldBytes(Rest(m, {})) == 0
  {
    assert Rest(m, {}) == map[];
  }

  lemma RestWithout(c: Config, m: map<Peer, seq<Entry>>, left: set<Peer>, p: Peer, now: Time)
    requires p in m && p in left
    ensures ExpiredAt(c, Rest(m, left), now)
         == |m[p]| - |Retained(c, m[p], now)| + ExpiredAt(c, Rest(m, left - {p}), now)
  {
    hide ExpiredAt, Retained;
    ExpiredWithout(c, Rest(m, left), p, now);
    assert Rest(m, left) - {p} == Rest(m, left - {p});
  }

  lemma NothingLeft(c: Config, m: map<Peer, seq<Entry>>, now: Time)
    ensures ExpiredAt(c, Rest(m, {}), now) == 0
  {
    assert Rest(m, {}) == map[];
  }

  lemma AllLeft(c: Config, m: map<Peer, seq<Entry>>, now: Time)
    ensures ExpiredAt(c, Rest(m, m.Keys), now) == ExpiredAt(c, m, now)
  {
    hide ExpiredAt;
    assert Rest(m, m.Keys) == m;
  }
}

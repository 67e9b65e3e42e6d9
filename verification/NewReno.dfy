/**
 The simplified NewReno congestion controller (src/congestion.rs): the object, what one event
 does to it, and what every run of events keeps.
 */
module NewReno {
  import opened Prelude

  const BASE_DATAGRAM_SIZE := 1200

  datatype Reno = Reno(window: nat, ssthresh: nat, minWindow: nat, maxWindow: nat, mtu: nat, recoveryStart: Time)

  datatype Event =
    | Ack(sent: Time, bytes: nat, appLimited: bool)
    | Congestion(now: Time, sent: Time, persistent: bool)
    | MtuUpdate(mtu: nat)

  function Start(minWindow: nat, maxWindow: nat, now: Time): Reno {
    Reno(Max(minWindow, 10 * BASE_DATAGRAM_SIZE), maxWindow, minWindow, maxWindow, BASE_DATAGRAM_SIZE, now)
  }

  /** The acknowledgement is for a packet sent after the recovery period began, and the window was in use. */
  predicate Counts(s: Reno, e: Event) {
    e.Ack? && !e.appLimited && s.recoveryStart < e.sent
  }

  predicate InAvoidance(s: Reno) {
    s.ssthresh <= s.window
  }

  /** The event cuts the window: the lost packet was sent after the recovery period began. */
  predicate Cuts(s: Reno, e: Event) {
    e.Congestion? && s.recoveryStart < e.sent
  }

  /** What an acknowledgement adds in congestion avoidance. */
  function Increase(bytes: nat, mtu: nat, window: nat): nat
    requires window > 0
  {
    bytes * mtu / window
  }

  predicate Divides(s: Reno, e: Event) {
    Counts(s, e) && InAvoidance(s)
  }

  function Step(s: Reno, e: Event): Reno
    requires Divides(s, e) ==> s.window > 0
  {
    match e
    case Ack(sent, bytes, _) =>
      if !Counts(s, e) then s
      else if !InAvoidance(s) then s.(window := Min(s.window + bytes, s.maxWindow))
      else s.(window := Min(s.window + Increase(bytes, s.mtu, s.window), s.maxWindow))
    case Congestion(now, sent, persistent) =>
      if !Cuts(s, e) then s
      else
        var cut := Max(s.window / 2, s.minWindow);
        s.(recoveryStart := now, ssthresh := cut, window := if persistent then s.minWindow else cut)
    case MtuUpdate(mtu) =>
      s.(mtu := mtu, minWindow := 2 * mtu, window := Max(s.window, 2 * mtu))
  }

  // ----- the window's bounds -----

  ghost predicate Within(s: Reno) {
    0 < s.minWindow <= s.window <= s.maxWindow
  }

  /** What a datagram size must meet for the least window to stay possible. */
  predicate Admissible(s: Reno, e: Event) {
    e.MtuUpdate? ==> 0 < 2 * e.mtu <= s.maxWindow
  }

  /** The controller is created within its bounds exactly when the initial window is no more than
      the maximum: nothing in its construction sees to that. */
  lemma StartsWithinIff(minWindow: nat, maxWindow: nat, now: Time)
    ensures Within(Start(minWindow, maxWindow, now))
       <==> 0 < minWindow <= maxWindow && 10 * BASE_DATAGRAM_SIZE <= maxWindow
  {
  }

  /** The bounds do fail: a small maximum is exceeded at once, and a large one by a jumbo datagram. */
  lemma BoundsCanFail(now: Time)
    ensures Start(2400, 10000, now).window > Start(2400, 10000, now).maxWindow
    ensures Within(Start(2400, 100_000, now))
    ensures Step(Start(2400, 100_000, now), MtuUpdate(65_535)).window > 100_000
  {
  }

  lemma StepWithinIff(s: Reno, e: Event)
    requires Within(s)
    ensures Within(Step(s, e)) <==> Admissible(s, e)
    ensures Step(s, e).maxWindow == s.maxWindow
  {
    hide Increase;
  }

  /** No step of the run divides by a window of zero. */
  ghost predicate Defined(s: Reno, es: seq<Event>)
    decreases |es|
  {
    es == [] || ((Divides(s, es[0]) ==> s.window > 0) && Defined(Step(s, es[0]), es[1..]))
  }

  /** Positive bounds and datagram sizes are enough for that, also where the maximum is exceeded. */
  lemma {:induction false} PositiveIsDefined(s: Reno, es: seq<Event>)
    requires s.window > 0 && s.minWindow > 0 && s.maxWindow > 0
    requires forall i | 0 <= i < |es| && es[i].MtuUpdate? :: es[i].mtu > 0
    ensures Defined(s, es)
    decreases |es|
  {
    hide Increase;
    if es != [] {
      PositiveIsDefined(Step(s, es[0]), es[1..]);
    }
  }

  /** The window is within its bounds in every state of the run. */
  ghost predicate AlwaysWithin(s: Reno, es: seq<Event>)
    ensures AlwaysWithin(s, es) ==> Defined(s, es)
    decreases |es|
  {
    Within(s) && (es == [] || AlwaysWithin(Step(s, es[0]), es[1..]))
  }

  /** Over every run the window stays within [minWindow, maxWindow], and so is never zero where it
      divides, exactly when it starts there and no datagram size reported exceeds half the maximum. */
  lemma {:induction false} RunWithinIff(s: Reno, es: seq<Event>)
    ensures AlwaysWithin(s, es) <==> Within(s) && forall i | 0 <= i < |es| :: Admissible(s, es[i])
    decreases |es|
  {
    hide Step, Within;
    if es != [] && Within(s) {
      assert Positive(s) by { WithinPositive(s); }
      var t := Step(s, es[0]);
      StepWithinIff(s, es[0]);
      RunWithinIff(t, es[1..]);
      if Admissible(s, es[0]) {
        forall i | 0 <= i < |es| ensures Admissible(s, es[i]) <==> i == 0 || Admissible(t, es[1..][i - 1]) {
        }
      }
    }
  }

  ghost predicate Positive(s: Reno) {
    s.window > 0
  }

  lemma WithinPositive(s: Reno)
    requires Within(s)
    ensures Positive(s)
  {
  }

  /** Within its bounds no intermediate value of an acknowledgement leaves 64 bits, for maxima
      and acknowledged sizes that leave 16 bits of room. */
  lemma AckFitsIn64Bits(s: Reno, e: Event)
    requires Within(s) && e.Ack? && s.mtu < 0x1_0000
    requires s.maxWindow < 0x1_0000_0000_0000 && e.bytes < 0x1_0000_0000_0000
    ensures e.bytes * s.mtu < 0x1_0000_0000_0000_0000
    ensures s.window + e.bytes < 0x1_0000_0000_0000_0000
    ensures s.window + Increase(e.bytes, s.mtu, s.window) < 0x1_0000_0000_0000_0000
  {
    MulBound(e.bytes, s.mtu, 0x1_0000_0000_0000 - 1, 0xFFFF);
    IncreaseAntitone(e.bytes, s.mtu, 1, s.window);
    assert Increase(e.bytes, s.mtu, 1) == e.bytes * s.mtu;
  }

  // ----- growth in congestion avoidance -----

  function AckedBytes(es: seq<Event>): nat {
    if es == [] then 0 else (if es[0].Ack? then es[0].bytes else 0) + AckedBytes(es[1..])
  }

  ghost predicate AllAcks(es: seq<Event>) {
    forall i | 0 <= i < |es| :: es[i].Ack?
  }

  ghost function After(s: Reno, es: seq<Event>): Reno
    requires AlwaysWithin(s, es)
    decreases |es|
  {
    if es == [] then s else After(Step(s, es[0]), es[1..])
  }

  lemma AcksStayWithin(s: Reno, es: seq<Event>)
    requires Within(s) && AllAcks(es)
    ensures AlwaysWithin(s, es)
  {
    RunWithinIff(s, es);
  }

  lemma MulBound(a: nat, b: nat, c: nat, d: nat)
    requires a <= c && b <= d
    ensures a * b <= c * d
  {
    assert a * b <= c * b;
    assert c * b <= c * d;
  }

  lemma CancelFactor(x: int, y: int, w: int)
    requires w > 0 && x * w < y * w
    ensures x < y
  {
  }

  /** The quotient is the number of whole times `w` goes into the product. */
  lemma IncreaseIs(b: nat, m: nat, w: nat)
    requires w > 0
    ensures var q := Increase(b, m, w); q * w <= b * m < q * w + w
  {
    var a := b * m;
    assert a == a / w * w + a % w;
  }

  lemma IncreaseIsLeast(b: nat, m: nat, w: nat, k: nat)
    requires w > 0 && k * w <= b * m
    ensures k <= Increase(b, m, w)
  {
    IncreaseIs(b, m, w);
    hide Increase;
    var q := Increase(b, m, w);
    assert (q + 1) * w == q * w + w;
    CancelFactor(k, q + 1, w);
  }

  lemma IncreasesAdd(b: nat, c: nat, m: nat, w: nat)
    requires w > 0
    ensures Increase(b, m, w) + Increase(c, m, w) <= Increase(b + c, m, w)
  {
    IncreaseIs(b, m, w);
    IncreaseIs(c, m, w);
    hide Increase;
    var x, y := Increase(b, m, w), Increase(c, m, w);
    assert (x + y) * w == x * w + y * w;
    assert (b + c) * m == b * m + c * m;
    IncreaseIsLeast(b + c, m, w, x + y);
  }

  lemma IncreaseAntitone(b: nat, m: nat, v: nat, w: nat)
    requires 0 < v <= w
    ensures Increase(b, m, w) <= Increase(b, m, v)
  {
    IncreaseIs(b, m, w);
    hide Increase;
    var x := Increase(b, m, w);
    MulBound(x, v, x, w);
    IncreaseIsLeast(b, m, v, x);
  }

  lemma IncreaseMonotone(b: nat, c: nat, m: nat, w: nat)
    requires w > 0 && b <= c
    ensures Increase(b, m, w) <= Increase(c, m, w)
  {
    hide Increase;
    IncreasesAdd(b, c - b, m, w);
  }

  /** Growth against any reference window `w` the run starts at or above. */
  lemma {:induction false} GrowthBound(s: Reno, es: seq<Event>, w: nat)
    requires Within(s) && AllAcks(es) && InAvoidance(s) && 0 < w <= s.window
    ensures AlwaysWithin(s, es)
    ensures s.window <= After(s, es).window <= s.window + Increase(AckedBytes(es), s.mtu, w)
    decreases |es|
  {
    hide Increase, Within;
    AcksStayWithin(s, es);
    if es != [] {
      var e, rest := es[0], es[1..];
      AckGrows(s, e, w);
      var t := Step(s, e);
      assert AllAcks(rest);
      GrowthBound(t, rest, w);
      IncreasesAdd(e.bytes, AckedBytes(rest), s.mtu, w);
    }
  }

  lemma AckGrows(s: Reno, e: Event, w: nat)
    requires Within(s) && e.Ack? && InAvoidance(s) && 0 < w <= s.window
    ensures var t := Step(s, e);
            && t == s.(window := t.window) && Within(t)
            && s.window <= t.window <= s.window + Increase(e.bytes, s.mtu, w)
  {
    hide Increase;
    IncreaseAntitone(e.bytes, s.mtu, w, s.window);
  }

  /** In congestion avoidance, acknowledging at most one window of octets, in however many
      acknowledgements, grows the window by at most one datagram (section 7.3.3 of RFC 9002). */
  lemma OneDatagramPerWindow(s: Reno, acks: seq<Event>)
    requires Within(s) && AllAcks(acks) && InAvoidance(s) && AckedBytes(acks) <= s.window
    ensures AlwaysWithin(s, acks)
    ensures s.window <= After(s, acks).window <= s.window + s.mtu
  {
    hide Increase;
    GrowthBound(s, acks, s.window);
    IncreaseMonotone(AckedBytes(acks), s.window, s.mtu, s.window);
    WholeIncrease(s.mtu, s.window);
  }

  lemma WholeIncrease(m: nat, w: nat)
    requires w > 0
    ensures Increase(w, m, w) == m
  {
    IncreaseIs(w, m, w);
    IncreaseIsLeast(w, m, w, m);
    hide Increase;
    var q := Increase(w, m, w);
    assert (m + 1) * w == w * m + w;
    CancelFactor(q, m + 1, w);
  }

  /** The bound is met: one acknowledgement of the whole window grows it by the datagram size
      itself, up to the maximum. */
  lemma WholeWindowGrowsByDatagram(s: Reno, e: Event)
    requires Within(s) && Divides(s, e) && e.bytes == s.window
    ensures Step(s, e).window == Min(s.window + s.mtu, s.maxWindow)
  {
    hide Increase;
    WholeIncrease(s.mtu, s.window);
  }

  lemma IncreasesIff(b: nat, m: nat, w: nat)
    requires w > 0
    ensures Increase(b, m, w) > 0 <==> b * m >= w
  {
    IncreaseIs(b, m, w);
    if b * m >= w {
      IncreaseIsLeast(b, m, w, 1);
    }
  }

  /** An acknowledgement grows the window exactly when the window was in use, the packet was sent after
      the recovery period began, there is room below the maximum, and it covers any octets at all
      below the threshold, or at the threshold and above so many that a datagram's share of the window
      is an octet at least.  It changes nothing else. */
  lemma AckGrowsIff(s: Reno, e: Event)
    requires Within(s) && e.Ack?
    ensures var t := Step(s, e);
            && t == s.(window := t.window) && s.window <= t.window
            && (s.window < t.window <==>
                  && !e.appLimited && s.recoveryStart < e.sent && s.window < s.maxWindow
                  && (if s.window < s.ssthresh then e.bytes > 0 else e.bytes * s.mtu >= s.window))
  {
    IncreasesIff(e.bytes, s.mtu, s.window);
    hide Increase;
  }

  /** A datagram size reported takes effect: the window is at least two of them from then on, also after
      persistent congestion, and a window's worth of acknowledged octets adds one of them. */
  lemma NewSizeIsUsed(s: Reno, size: nat, e: Event)
    requires Within(s) && 0 < 2 * size <= s.maxWindow
    ensures var t := Step(s, MtuUpdate(size));
            && t == s.(mtu := size, minWindow := 2 * size, window := if s.window < 2 * size then 2 * size else s.window)
            && (e.Congestion? && e.persistent && s.recoveryStart < e.sent ==> Step(t, e).window == 2 * size)
            && (e.Ack? && !e.appLimited && s.recoveryStart < e.sent && t.ssthresh <= t.window && e.bytes == t.window ==>
                  Step(t, e).window == if t.window + size < s.maxWindow then t.window + size else s.maxWindow)
  {
    var t := Step(s, MtuUpdate(size));
    if e.Ack? && Divides(t, e) && e.bytes == t.window {
      WholeWindowGrowsByDatagram(t, e);
    }
    hide Increase;
  }

  // ----- growth in slow start -----

  ghost predicate AllCount(s: Reno, es: seq<Event>) {
    forall i | 0 <= i < |es| :: Counts(s, es[i])
  }

  /** Below the threshold every acknowledged octet is added: in however many acknowledgements, one
      window of octets doubles the window (section 7.3.1 of RFC 9002). */
  lemma {:induction false} SlowStartAddsAll(s: Reno, acks: seq<Event>)
    requires Within(s) && AllCount(s, acks)
    requires s.window + AckedBytes(acks) <= s.ssthresh && s.window + AckedBytes(acks) <= s.maxWindow
    ensures AlwaysWithin(s, acks)
    ensures After(s, acks) == s.(window := s.window + AckedBytes(acks))
    decreases |acks|
  {
    hide Increase;
    assert AllAcks(acks);
    AcksStayWithin(s, acks);
    if acks != [] {
      var t := Step(s, acks[0]);
      if InAvoidance(s) {
        NothingAcked(acks);
        NoIncrease(s.mtu, s.window);
      }
      assert t == s.(window := s.window + acks[0].bytes);
      assert AllCount(t, acks[1..]);
      SlowStartAddsAll(t, acks[1..]);
    }
  }

  /** A new controller is in slow start up to its maximum: every octet acknowledged adds one, of packets
      sent after it was created. */
  lemma StartsInSlowStart(minWindow: nat, maxWindow: nat, now: Time, acks: seq<Event>)
    requires 0 < minWindow && forall i | 0 <= i < |acks| :: acks[i].Ack? && !acks[i].appLimited && now < acks[i].sent
    requires Max(minWindow, 12_000) + AckedBytes(acks) <= maxWindow
    ensures var s := Start(minWindow, maxWindow, now);
            AlwaysWithin(s, acks) && After(s, acks).window == Max(minWindow, 12_000) + AckedBytes(acks)
  {
    SlowStartAddsAll(Start(minWindow, maxWindow, now), acks);
  }

  /** Packets sent no later than its creation neither grow nor cut its window. */
  lemma EarlierPacketsIgnored(minWindow: nat, maxWindow: nat, now: Time, e: Event)
    requires !e.MtuUpdate? && e.sent <= now
    ensures Step(Start(minWindow, maxWindow, now), e) == Start(minWindow, maxWindow, now)
  {
  }

  lemma NothingAcked(acks: seq<Event>)
    requires acks != [] && acks[0].Ack? && AckedBytes(acks) == 0
    ensures acks[0].bytes == 0
  {
  }

  lemma NoIncrease(m: nat, w: nat)
    requires w > 0
    ensures Increase(0, m, w) == 0
  {
  }

  // ----- one cut per recovery period -----

  /** A cut halves the window but for the minimum, sets the threshold to that, and ends slow start;
      with persistent congestion the window starts again from the minimum
      (sections 7.3.2 and 7.6.2 of RFC 9002). */
  lemma CutHalves(s: Reno, e: Event)
    requires Within(s) && Cuts(s, e)
    ensures var t := Step(s, e);
            && (s.window - 1 <= 2 * t.ssthresh <= s.window || t.ssthresh == s.minWindow > s.window / 2)
            && (if e.persistent then t.window == s.minWindow <= t.ssthresh
                else t.window == t.ssthresh && InAvoidance(t))
            && t.recoveryStart == e.now
  {
  }

  /** Without a cut the window never shrinks and the recovery period stays the same. */
  lemma {:induction false} OnlyCutsShrink(s: Reno, es: seq<Event>)
    requires AlwaysWithin(s, es) && CutsOf(s, es) == []
    ensures After(s, es).window >= s.window && After(s, es).recoveryStart == s.recoveryStart
    decreases |es|
  {
    hide Increase;
    if es != [] {
      OnlyCutsShrink(Step(s, es[0]), es[1..]);
    }
  }

  /** The events of a run that cut the window. */
  ghost function CutsOf(s: Reno, es: seq<Event>): seq<Event>
    requires Defined(s, es)
    decreases |es|
  {
    if es == [] then []
    else (if Cuts(s, es[0]) then [es[0]] else []) + CutsOf(Step(s, es[0]), es[1..])
  }

  /** Each cut is for a packet sent after the cut before it, or after `start` for the first. */
  ghost predicate Spaced(cuts: seq<Event>, start: Time) {
    && (forall i | 0 <= i < |cuts| :: cuts[i].Congestion?)
    && (cuts != [] ==> start < cuts[0].sent && Spaced(cuts[1..], cuts[0].now))
  }

  /** Over every run a packet sent no later than the last cut never causes another
      (section 7.3.2 of RFC 9002). */
  lemma {:induction false} OneCutPerPeriod(s: Reno, es: seq<Event>)
    requires Defined(s, es)
    ensures Spaced(CutsOf(s, es), s.recoveryStart)
    decreases |es|
  {
    if es != [] {
      var t := Step(s, es[0]);
      OneCutPerPeriod(t, es[1..]);
      var cuts := CutsOf(t, es[1..]);
      if Cuts(s, es[0]) {
        assert ([es[0]] + cuts)[1..] == cuts;
      } else {
        assert [] + cuts == cuts;
      }
    }
  }

  /** Losses are noticed no earlier than the packet was sent. */
  ghost predicate Causal(es: seq<Event>) {
    forall i | 0 <= i < |es| && es[i].Congestion? :: es[i].sent <= es[i].now
  }

  lemma {:induction false} SpacedApart(cuts: seq<Event>, start: Time, i: nat, j: nat)
    requires Spaced(cuts, start) && Causal(cuts) && i < j < |cuts|
    ensures cuts[i].Congestion? && cuts[j].Congestion? && cuts[i].now < cuts[j].sent
    decreases |cuts|
  {
    var rest := cuts[1..];
    assert Causal(rest);
    if i > 0 {
      SpacedApart(rest, cuts[0].now, i - 1, j - 1);
    } else if j > 1 {
      SpacedApart(rest, cuts[0].now, 0, j - 1);
      assert rest[0].sent <= rest[0].now;
      assert cuts[0].now < rest[0].sent;
    } else {
      assert cuts[1] == rest[0];
    }
  }

  lemma {:induction false} CutsAreEvents(s: Reno, es: seq<Event>)
    requires Defined(s, es) && Causal(es)
    ensures Causal(CutsOf(s, es))
    decreases |es|
  {
    if es != [] {
      assert Causal(es[1..]);
      CutsAreEvents(Step(s, es[0]), es[1..]);
    }
  }

  /** Of any two cuts of a run, however far apart, the later one is for a packet sent after the earlier cut. */
  lemma CutsNeverOverlap(s: Reno, es: seq<Event>, i: nat, j: nat)
    requires Defined(s, es) && Causal(es) && i < j < |CutsOf(s, es)|
    ensures var cuts := CutsOf(s, es);
            && cuts[i].Congestion? && cuts[j].Congestion? && cuts[i].now < cuts[j].sent
  {
    OneCutPerPeriod(s, es);
    CutsAreEvents(s, es);
    SpacedApart(CutsOf(s, es), s.recoveryStart, i, j);
  }

  // ----- the object -----

  class Controller {
    var window: nat
    var ssthresh: nat
    var minWindow: nat
    const maxWindow: nat
    const initialWindow: nat
    var currentMtu: nat
    var recoveryStartTime: Time

    ghost function View(): Reno
      reads this
    {
      Reno(window, ssthresh, minWindow, maxWindow, currentMtu, recoveryStartTime)
    }

    constructor (minWindow: nat, maxWindow: nat, now: Time)
      ensures View() == Start(minWindow, maxWindow, now) && initialWindow == window
    {
      var initial := Max(minWindow, 10 * BASE_DATAGRAM_SIZE);
      this.window, this.ssthresh, this.minWindow, this.maxWindow := initial, maxWindow, minWindow, maxWindow;
      this.initialWindow, this.currentMtu, this.recoveryStartTime := initial, BASE_DATAGRAM_SIZE, now;
    }

    method OnAck(sent: Time, bytes: nat, appLimited: bool)
      requires Divides(View(), Ack(sent, bytes, appLimited)) ==> window > 0
      modifies this
      ensures View() == Step(old(View()), Ack(sent, bytes, appLimited))
    {
      if appLimited || sent <= recoveryStartTime {
        return;
      }
      if window < ssthresh {
        window := Min(window + bytes, maxWindow);
      } else {
        var increase := bytes * currentMtu / window;
        window := Min(window + increase, maxWindow);
      }
    }

    method OnCongestionEvent(now: Time, sent: Time, persistent: bool)
      modifies this
      ensures View() == Step(old(View()), Congestion(now, sent, persistent))
    {
      if sent <= recoveryStartTime {
        return;
      }
      recoveryStartTime := now;
      window := Max(window / 2, minWindow);
      ssthresh := window;
      if persistent {
        window := minWindow;
      }
    }

    method OnMtuUpdate(newMtu: nat)
      modifies this
      ensures View() == Step(old(View()), MtuUpdate(newMtu))
    {
      currentMtu := newMtu;
      minWindow := 2 * currentMtu;
      window := Max(window, minWindow);
    }
  }
}

/**
 Engine selection under concurrency (src/connection_router.rs).

 `select_engine_with_fallback` counts the preferred engine first and, when it falls back, adds
 to the counter of the engine it ends up with and then takes one off the preferred counter.
 Any number of callers do this at once on shared atomic counters; each atomic operation is one
 step of the state machine below.
 */
module EngineSelection {
  import opened Prelude

  const U64 := 0x1_0000_0000_0000_0000

  datatype Engine = Quic | Constrained

  /** A call: what the transport supports and which engines are available to it.  A `detailed`
      call is one of `select_engine_detailed` alone. */
  datatype Call = Call(supportsQuic: bool, quicAvailable: bool, constrainedAvailable: bool, detailed: bool)

  datatype Decision = Direct(engine: Engine) | Fallback(engine: Engine) | NoEngine

  function Preferred(preferQuic: bool, c: Call): Engine {
    if c.supportsQuic && preferQuic then Quic else Constrained
  }

  function Decide(preferQuic: bool, c: Call): Decision {
    if c.detailed then Direct(Preferred(preferQuic, c))
    else match Preferred(preferQuic, c)
      case Quic =>
        if c.quicAvailable then Direct(Quic)
        else if c.constrainedAvailable then Fallback(Constrained)
        else NoEngine
      case Constrained =>
        if c.constrainedAvailable then Direct(Constrained)
        else if c.quicAvailable && c.supportsQuic then Fallback(Quic)
        else NoEngine
  }

  predicate QuicUsable(c: Call) {
    c.supportsQuic && c.quicAvailable
  }

  /** A call with fallback gets no engine exactly when none is usable; QUIC at once when it is preferred
      and usable, the constrained engine at once when that is preferred, or QUIC not supported, and
      available; and the other engine by falling back exactly when only that one is usable. */
  lemma DecisionRight(preferQuic: bool, c: Call)
    requires !c.detailed
    ensures var d := Decide(preferQuic, c);
            && (d == NoEngine <==> !QuicUsable(c) && !c.constrainedAvailable)
            && (d == Direct(Quic) <==> preferQuic && QuicUsable(c))
            && (d == Direct(Constrained) <==> (!preferQuic || !c.supportsQuic) && c.constrainedAvailable)
            && (d == Fallback(Quic) <==> !preferQuic && QuicUsable(c) && !c.constrainedAvailable)
            && (d == Fallback(Constrained) <==>
                  preferQuic && c.supportsQuic && !c.quicAvailable && c.constrainedAvailable)
  {
  }

  /** A call without fallback gets QUIC exactly when it is preferred and supported. */
  lemma DetailedRight(preferQuic: bool, c: Call)
    requires c.detailed
    ensures Decide(preferQuic, c) == Direct(if preferQuic && c.supportsQuic then Quic else Constrained)
  {
  }

  // ----- the counters and the callers -----

  datatype Pc = Begun | Selected | FallbackCounted | ChosenCounted | Finished

  datatype Caller = Caller(call: Call, pc: Pc)

  datatype State = State(quic: nat, constrained: nat, fallback: nat, callers: map<nat, Caller>)

  function Counter(s: State, e: Engine): nat {
    if e == Quic then s.quic else s.constrained
  }

  /** `fetch_add(1)`: wraps at 2^64. */
  function Bump(n: nat): nat {
    (n + 1) % U64
  }

  function BumpEngine(s: State, e: Engine): State {
    if e == Quic then s.(quic := Bump(s.quic)) else s.(constrained := Bump(s.constrained))
  }

  /** `saturating_sub(1)`. */
  function LowerEngine(s: State, e: Engine): State {
    if e == Quic then s.(quic := if s.quic == 0 then 0 else s.quic - 1)
    else s.(constrained := if s.constrained == 0 then 0 else s.constrained - 1)
  }

  function Goto(s: State, k: nat, pc: Pc): State
    requires k in s.callers
  {
    s.(callers := s.callers[k := s.callers[k].(pc := pc)])
  }

  datatype Event = Begin(k: nat, call: Call) | Advance(k: nat)

  predicate Enabled(s: State, e: Event) {
    match e
    case Begin(k, _) => k !in s.callers
    case Advance(k) => k in s.callers && s.callers[k].pc != Finished
  }

  /** One atomic step of one caller. */
  function Step(preferQuic: bool, s: State, e: Event): State
    requires Enabled(s, e)
  {
    match e
    case Begin(k, call) => s.(callers := s.callers[k := Caller(call, Begun)])
    case Advance(k) =>
      var c := s.callers[k].call;
      var d := Decide(preferQuic, c);
      match s.callers[k].pc
      case Begun => Goto(BumpEngine(s, Preferred(preferQuic, c)), k, Selected)
      case Selected =>
        if d.Fallback? then Goto(s.(fallback := Bump(s.fallback)), k, FallbackCounted) else Goto(s, k, Finished)
      case FallbackCounted =>
        // Only falling back leads here.
        if d.Fallback? then Goto(BumpEngine(s, d.engine), k, ChosenCounted) else s
      case ChosenCounted => Goto(LowerEngine(s, Preferred(preferQuic, c)), k, Finished)
      case Finished => s
  }

  // ----- the invariant -----

  /** Whether a caller's own operations so far have left one more on the counter of `e`. */
  predicate Contributes(preferQuic: bool, c: Caller, e: Engine) {
    var d := Decide(preferQuic, c.call);
    match c.pc
    case Begun => false
    case Selected => e == Preferred(preferQuic, c.call)
    case FallbackCounted => e == Preferred(preferQuic, c.call)
    case ChosenCounted => true
    case Finished => if d.Fallback? then e == d.engine else e == Preferred(preferQuic, c.call)
  }

  predicate FellBack(c: Caller) {
    c.pc == FallbackCounted || c.pc == ChosenCounted || c.pc == Finished
  }

  ghost function Contributors(preferQuic: bool, s: State, e: Engine): set<nat> {
    set k | k in s.callers && Contributes(preferQuic, s.callers[k], e)
  }

  ghost function Fallbacks(preferQuic: bool, s: State): set<nat> {
    set k | k in s.callers && FellBack(s.callers[k]) && Decide(preferQuic, s.callers[k].call).Fallback?
  }

  /** Every counter is the number of callers whose operations left one more on it, and only callers
      that fall back get past their first check. */
  ghost predicate Inv(preferQuic: bool, s: State) {
    && s.quic == |Contributors(preferQuic, s, Quic)|
    && s.constrained == |Contributors(preferQuic, s, Constrained)|
    && s.fallback == |Fallbacks(preferQuic, s)|
    && PastCheckFallsBack(preferQuic, s)
  }

  /** The set of contributors after one caller moved. */
  lemma ContributorsMoved(preferQuic: bool, s: State, k: nat, t: State, e: Engine)
    requires Moved(s, k, t)
    ensures Contributors(preferQuic, t, e)
         == if Contributes(preferQuic, t.callers[k], e) then Contributors(preferQuic, s, e) + {k}
            else Contributors(preferQuic, s, e) - {k}
    ensures Fallbacks(preferQuic, t)
         == if FellBack(t.callers[k]) && Decide(preferQuic, t.callers[k].call).Fallback?
            then Fallbacks(preferQuic, s) + {k}
            else Fallbacks(preferQuic, s) - {k}
  {
    hide Contributes, Decide, FellBack;
    forall j ensures j in Contributors(preferQuic, t, e) <==>
                     j in (if Contributes(preferQuic, t.callers[k], e) then Contributors(preferQuic, s, e) + {k}
                           else Contributors(preferQuic, s, e) - {k})
    {
      if j != k && j in t.callers {
        assert t.callers[j] == s.callers[j];
      }
    }
    forall j ensures j in Fallbacks(preferQuic, t) <==>
                     j in (if FellBack(t.callers[k]) && Decide(preferQuic, t.callers[k].call).Fallback?
                           then Fallbacks(preferQuic, s) + {k} else Fallbacks(preferQuic, s) - {k})
    {
      if j != k && j in t.callers {
        assert t.callers[j] == s.callers[j];
      }
    }
  }

  /** Whoever is about to lower the preferred counter still has one of its own on it: the
      saturating subtraction never clamps. */
  lemma NeverClamps(preferQuic: bool, s: State, k: nat)
    requires Inv(preferQuic, s) && k in s.callers && s.callers[k].pc == ChosenCounted
    ensures Counter(s, Preferred(preferQuic, s.callers[k].call)) >= 1
  {
    var e := Preferred(preferQuic, s.callers[k].call);
    assert k in Contributors(preferQuic, s, e);
  }

  ghost predicate Was(preferQuic: bool, s: State, k: nat, e: Engine) {
    k in s.callers && Contributes(preferQuic, s.callers[k], e)
  }

  /** A counter that follows one caller's moves stays exact. */
  lemma CounterFollows(preferQuic: bool, s: State, k: nat, t: State, e: Engine)
    requires Moved(s, k, t) && |s.callers| < U64
    requires Counter(s, e) == |Contributors(preferQuic, s, e)|
    requires k !in s.callers ==> !Contributes(preferQuic, t.callers[k], e)
    requires Counter(t, e)
          == if Was(preferQuic, s, k, e) == Contributes(preferQuic, t.callers[k], e) then Counter(s, e)
             else if Contributes(preferQuic, t.callers[k], e) then Bump(Counter(s, e))
             else if Counter(s, e) == 0 then 0 else Counter(s, e) - 1
    ensures Counter(t, e) == |Contributors(preferQuic, t, e)|
  {
    hide Contributes, Bump;
    ContributorsMoved(preferQuic, s, k, t, e);
    var before := Contributors(preferQuic, s, e);
    assert k in before <==> Was(preferQuic, s, k, e);
    SizeFollows(before, s.callers.Keys, k, Contributes(preferQuic, t.callers[k], e), Counter(t, e));
  }

  /** Counting a set that one element enters or leaves, on a counter that wraps and saturates. */
  lemma SizeFollows(before: set<nat>, all: set<nat>, k: nat, now: bool, next: nat)
    requires before <= all && |all| < U64 && (now && k !in before ==> k in all)
    requires next
          == if (k in before) == now then |before|
             else if now then Bump(|before|)
             else if |before| == 0 then 0 else |before| - 1
    ensures next == |if now then before + {k} else before - {k}|
  {
    Subset(before, all);
    if now && k !in before {
      Subset(before + {k}, all);
    }
  }

  lemma FallbackFollows(preferQuic: bool, s: State, k: nat, t: State)
    requires Moved(s, k, t) && |s.callers| < U64
    requires s.fallback == |Fallbacks(preferQuic, s)|
    requires k in s.callers ==> s.callers[k].call == t.callers[k].call
    requires k !in s.callers ==> !FellBack(t.callers[k])
    requires k in s.callers && FellBack(s.callers[k]) ==> FellBack(t.callers[k])
    requires t.fallback
          == if k in s.callers && !FellBack(s.callers[k]) && FellBack(t.callers[k])
                && Decide(preferQuic, t.callers[k].call).Fallback? then Bump(s.fallback) else s.fallback
    ensures t.fallback == |Fallbacks(preferQuic, t)|
  {
    hide FellBack, Decide, Bump;
    ContributorsMoved(preferQuic, s, k, t, Quic);
    var before := Fallbacks(preferQuic, s);
    var now := FellBack(t.callers[k]) && Decide(preferQuic, t.callers[k].call).Fallback?;
    SizeFollows(before, s.callers.Keys, k, now, t.fallback);
  }

  ghost predicate Moved(s: State, k: nat, t: State) {
    && t.callers.Keys == s.callers.Keys + {k}
    && forall j | j in s.callers && j != k :: t.callers[j] == s.callers[j]
  }

  ghost predicate PastCheckFallsBack(preferQuic: bool, s: State) {
    forall k | k in s.callers && (s.callers[k].pc == FallbackCounted || s.callers[k].pc == ChosenCounted) ::
      Decide(preferQuic, s.callers[k].call).Fallback?
  }

  /** What a step does to one selection counter, in terms of the caller's own contribution. */
  lemma StepMovesCounter(preferQuic: bool, s: State, ev: Event, t: State, e: Engine)
    requires Enabled(s, ev) && t == Step(preferQuic, s, ev) && PastCheckFallsBack(preferQuic, s)
    ensures Moved(s, ev.k, t) && PastCheckFallsBack(preferQuic, t)
    ensures ev.k !in s.callers ==> !Contributes(preferQuic, t.callers[ev.k], e)
    ensures Counter(t, e)
         == if Was(preferQuic, s, ev.k, e) == Contributes(preferQuic, t.callers[ev.k], e) then Counter(s, e)
            else if Contributes(preferQuic, t.callers[ev.k], e) then Bump(Counter(s, e))
            else if Counter(s, e) == 0 then 0 else Counter(s, e) - 1
  {
    hide Bump;
    if ev.Advance? {
      FallbackIsOther(preferQuic, s.callers[ev.k].call);
    }
  }

  lemma FallbackIsOther(preferQuic: bool, c: Call)
    ensures Decide(preferQuic, c).Fallback? ==> Decide(preferQuic, c).engine != Preferred(preferQuic, c)
  {
  }

  lemma StepMovesFallback(preferQuic: bool, s: State, ev: Event, t: State)
    requires Enabled(s, ev) && t == Step(preferQuic, s, ev)
    ensures ev.k in s.callers ==> s.callers[ev.k].call == t.callers[ev.k].call
    ensures ev.k !in s.callers ==> !FellBack(t.callers[ev.k])
    ensures ev.k in s.callers && FellBack(s.callers[ev.k]) ==> FellBack(t.callers[ev.k])
    ensures t.fallback
         == if ev.k in s.callers && !FellBack(s.callers[ev.k]) && FellBack(t.callers[ev.k])
               && Decide(preferQuic, t.callers[ev.k].call).Fallback? then Bump(s.fallback) else s.fallback
  {
    hide Bump, Decide, Preferred;
  }

  /** Every atomic step of every caller keeps the counters exact, as long as fewer than 2^64 calls
      have been made. */
  lemma StepKeeps(preferQuic: bool, s: State, e: Event)
    requires Inv(preferQuic, s) && Enabled(s, e) && |s.callers| < U64
    ensures Inv(preferQuic, Step(preferQuic, s, e))
  {
    hide Contributors, Fallbacks, Bump, Step, Contributes, Decide, FellBack, Was;
    var t := Step(preferQuic, s, e);
    StepMovesCounter(preferQuic, s, e, t, Quic);
    StepMovesCounter(preferQuic, s, e, t, Constrained);
    StepMovesFallback(preferQuic, s, e, t);
    CounterFollows(preferQuic, s, e.k, t, Quic);
    CounterFollows(preferQuic, s, e.k, t, Constrained);
    FallbackFollows(preferQuic, s, e.k, t);
  }

  // ----- runs -----

  predicate IsRun(preferQuic: bool, s: State, es: seq<Event>)
    decreases |es|
  {
    es == [] || (Enabled(s, es[0]) && IsRun(preferQuic, Step(preferQuic, s, es[0]), es[1..]))
  }

  function After(preferQuic: bool, s: State, es: seq<Event>): State
    requires IsRun(preferQuic, s, es)
    decreases |es|
  {
    if es == [] then s else After(preferQuic, Step(preferQuic, s, es[0]), es[1..])
  }

  lemma {:induction false} CallersGrow(preferQuic: bool, s: State, es: seq<Event>)
    requires IsRun(preferQuic, s, es)
    ensures |s.callers| <= |After(preferQuic, s, es).callers|
    decreases |es|
  {
    hide Decide, Preferred;
    if es != [] {
      var t := Step(preferQuic, s, es[0]);
      assert s.callers.Keys <= t.callers.Keys;
      Subset(s.callers.Keys, t.callers.Keys);
      CallersGrow(preferQuic, t, es[1..]);
    }
  }

  lemma {:induction false} RunKeeps(preferQuic: bool, s: State, es: seq<Event>)
    requires Inv(preferQuic, s) && IsRun(preferQuic, s, es) && |After(preferQuic, s, es).callers| < U64
    ensures Inv(preferQuic, After(preferQuic, s, es))
    decreases |es|
  {
    hide Inv;
    if es != [] {
      var t := Step(preferQuic, s, es[0]);
      CallersGrow(preferQuic, t, es[1..]);
      StepKeeps(preferQuic, s, es[0]);
      RunKeeps(preferQuic, t, es[1..]);
    }
  }

  const START := State(0, 0, 0, map[])

  /** The call ends up with `e`, by the flags alone. */
  predicate Gets(preferQuic: bool, c: Call, e: Engine) {
    match e
    case Quic =>
      if c.detailed then preferQuic && c.supportsQuic
      else QuicUsable(c) && (preferQuic || !c.constrainedAvailable)
    case Constrained =>
      if c.detailed then !preferQuic || !c.supportsQuic
      else c.constrainedAvailable && !(preferQuic && QuicUsable(c))
  }

  /** The call ends up with nothing though it wanted `e`. */
  predicate FailsWanting(preferQuic: bool, c: Call, e: Engine) {
    && !c.detailed && !QuicUsable(c) && !c.constrainedAvailable
    && (e == Quic <==> preferQuic && c.supportsQuic)
  }

  predicate FallsBack(preferQuic: bool, c: Call) {
    && !c.detailed
    && (if preferQuic && c.supportsQuic then !c.quicAvailable && c.constrainedAvailable
        else QuicUsable(c) && !c.constrainedAvailable)
  }

  ghost function Chose(preferQuic: bool, s: State, e: Engine): set<nat> {
    set k | k in s.callers && Gets(preferQuic, s.callers[k].call, e)
  }

  ghost function FailedPreferring(preferQuic: bool, s: State, e: Engine): set<nat> {
    set k | k in s.callers && FailsWanting(preferQuic, s.callers[k].call, e)
  }

  ghost function ThatFellBack(preferQuic: bool, s: State): set<nat> {
    set k | k in s.callers && FallsBack(preferQuic, s.callers[k].call)
  }

  /** What a finished call has left on the counters, by the flags alone. */
  lemma FinishedLeaves(preferQuic: bool, c: Call, e: Engine)
    ensures Contributes(preferQuic, Caller(c, Finished), e) <==>
            Gets(preferQuic, c, e) || FailsWanting(preferQuic, c, e)
    ensures !(Gets(preferQuic, c, e) && FailsWanting(preferQuic, c, e))
    ensures Decide(preferQuic, c).Fallback? <==> FallsBack(preferQuic, c)
  {
  }

  ghost predicate AtRest(s: State) {
    forall k | k in s.callers :: s.callers[k] == Caller(s.callers[k].call, Finished)
  }

  lemma ContributorsAtRest(preferQuic: bool, s: State, e: Engine)
    requires AtRest(s)
    ensures Contributors(preferQuic, s, e) == Chose(preferQuic, s, e) + FailedPreferring(preferQuic, s, e)
    ensures Chose(preferQuic, s, e) !! FailedPreferring(preferQuic, s, e)
    ensures Fallbacks(preferQuic, s) == ThatFellBack(preferQuic, s)
  {
    hide Decide, Preferred, Contributes, Gets, FailsWanting, FallsBack;
    forall k | k in s.callers
      ensures k in Contributors(preferQuic, s, e) <==>
              k in Chose(preferQuic, s, e) || k in FailedPreferring(preferQuic, s, e)
      ensures !(k in Chose(preferQuic, s, e) && k in FailedPreferring(preferQuic, s, e))
      ensures k in Fallbacks(preferQuic, s) <==> k in ThatFellBack(preferQuic, s)
    {
      FinishedLeaves(preferQuic, s.callers[k].call, e);
    }
  }

  lemma CountsAtRest(preferQuic: bool, s: State, e: Engine)
    requires Inv(preferQuic, s) && AtRest(s)
    ensures Counter(s, e) == |Chose(preferQuic, s, e)| + |FailedPreferring(preferQuic, s, e)|
    ensures s.fallback == |ThatFellBack(preferQuic, s)|
  {
    hide AtRest, Chose, FailedPreferring, Contributors, Fallbacks, ThatFellBack, PastCheckFallsBack;
    ContributorsAtRest(preferQuic, s, e);
  }

  /** In every interleaving, once all calls are finished, each selection counter is the number of
      calls that finally chose that engine plus the failed calls that preferred it, and the
      fallback counter is the number of calls that fell back. */
  lemma QuiescentCounts(preferQuic: bool, es: seq<Event>, e: Engine)
    requires IsRun(preferQuic, START, es)
    requires |After(preferQuic, START, es).callers| < U64
    requires forall k | k in After(preferQuic, START, es).callers ::
             After(preferQuic, START, es).callers[k].pc == Finished
    ensures var s := After(preferQuic, START, es);
            && Counter(s, e) == |Chose(preferQuic, s, e)| + |FailedPreferring(preferQuic, s, e)|
            && s.fallback == |ThatFellBack(preferQuic, s)|
  {
    assert Inv(preferQuic, START) by {
      assert Contributors(preferQuic, START, Quic) == {} && Contributors(preferQuic, START, Constrained) == {};
      assert Fallbacks(preferQuic, START) == {};
    }
    hide Inv, After;
    RunKeeps(preferQuic, START, es);
    assert AtRest(After(preferQuic, START, es));
    CountsAtRest(preferQuic, After(preferQuic, START, es), e);
  }

  /** In every interleaving, whoever lowers a counter finds at least one on it. */
  lemma NeverClampsInRun(preferQuic: bool, es: seq<Event>, k: nat)
    requires IsRun(preferQuic, START, es)
    requires var s := After(preferQuic, START, es);
             |s.callers| < U64 && k in s.callers && s.callers[k].pc == ChosenCounted
    ensures var s := After(preferQuic, START, es);
            Counter(s, if preferQuic && s.callers[k].call.supportsQuic then Quic else Constrained) >= 1
  {
    assert Inv(preferQuic, START) by {
      assert Contributors(preferQuic, START, Quic) == {} && Contributors(preferQuic, START, Constrained) == {};
      assert Fallbacks(preferQuic, START) == {};
    }
    hide Inv, After;
    RunKeeps(preferQuic, START, es);
    NeverClamps(preferQuic, After(preferQuic, START, es), k);
  }
}

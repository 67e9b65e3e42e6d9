/**
 The staged connection strategy (src/connection_strategy.rs): the transitions, the driver loop
 its documentation shows, and the driver that src/p2p_endpoint.rs runs.
 */
module ConnectionStrategy {
  import opened Prelude

  /** How a connection was made. */
  datatype Method = ByIPv4 | ByIPv6 | HolePunched(coordinator: SocketAddr) | Relayed(relay: SocketAddr)

  /** What the error log says was tried. */
  datatype Attempted = IPv4 | IPv6 | HolePunch(round: nat) | AnyRelay

  datatype Entry = Entry(tried: Attempted, error: string)

  datatype Stage =
    | DirectIPv4
    | DirectIPv6
    | HolePunching(coordinator: SocketAddr, round: nat)
    | Relay(addr: SocketAddr, index: nat)
    | Connected(via: Method)
    | Failed(errors: seq<Entry>)

  datatype Config = Config(
    maxRounds: nat,
    ipv6Enabled: bool,
    holepunchEnabled: bool,
    relayEnabled: bool,
    coordinator: Option<SocketAddr>,
    relays: seq<SocketAddr>)

  datatype Strategy = Strategy(stage: Stage, config: Config, errors: seq<Entry>)

  function Start(config: Config): Strategy {
    Strategy(DirectIPv4, config, [])
  }

  predicate Terminal(s: Strategy) {
    s.stage.Connected? || s.stage.Failed?
  }

  // ----- the transitions -----

  function Logged(s: Strategy, tried: Attempted, error: string): Strategy {
    s.(errors := s.errors + [Entry(tried, error)])
  }

  function ToFailed(s: Strategy, error: string): Strategy {
    var t := if s.stage.Relay? then Logged(s, AnyRelay, error) else s;
    Strategy(Failed(t.errors), s.config, [])
  }

  function EnterRelay(s: Strategy): Strategy {
    if s.config.relayEnabled && s.config.relays != [] then s.(stage := Relay(s.config.relays[0], 0))
    else if !s.config.relayEnabled then ToFailed(s, "Relay disabled and all other methods failed")
    else ToFailed(s, "No relay servers configured")
  }

  function EnterHolePunch(s: Strategy): Strategy {
    if s.config.holepunchEnabled && s.config.coordinator.Some?
    then s.(stage := HolePunching(s.config.coordinator.value, 1))
    else EnterRelay(s)
  }

  function ToIPv6(s: Strategy, error: string): Strategy {
    var t := Logged(s, IPv4, error);
    if s.config.ipv6Enabled then t.(stage := DirectIPv6) else EnterHolePunch(t)
  }

  function ToHolePunch(s: Strategy, error: string): Strategy {
    EnterHolePunch(Logged(s, IPv6, error))
  }

  predicate ShouldRetry(s: Strategy) {
    s.stage.HolePunching? && s.stage.round < s.config.maxRounds
  }

  function NextRound(s: Strategy): Strategy {
    if s.stage.HolePunching? then s.(stage := HolePunching(s.stage.coordinator, s.stage.round + 1)) else s
  }

  function ToRelay(s: Strategy, error: string): Strategy {
    EnterRelay(if s.stage.HolePunching? then Logged(s, HolePunch(s.stage.round), error) else s)
  }

  function NextRelay(s: Strategy, error: string): Strategy {
    if !s.stage.Relay? then s
    else
      var t := Logged(s, AnyRelay, error);
      var next := s.stage.index + 1;
      if next < |s.config.relays| then t.(stage := Relay(s.config.relays[next], next))
      else Strategy(Failed(t.errors), s.config, [])
  }

  function WithCoordinator(s: Strategy, coordinator: SocketAddr): Strategy {
    s.(stage := if s.stage.HolePunching? then HolePunching(coordinator, s.stage.round) else s.stage,
       config := s.config.(coordinator := Some(coordinator)))
  }

  // ----- the plan a configuration stands for -----

  /** One thing to try. */
  datatype Try = Direct4 | Direct6 | Punch(coordinator: SocketAddr, round: nat) | Via(relay: SocketAddr)

  function MethodOf(t: Try): Method {
    match t
    case Direct4 => ByIPv4
    case Direct6 => ByIPv6
    case Punch(c, _) => HolePunched(c)
    case Via(r) => Relayed(r)
  }

  function AttemptedOf(t: Try): Attempted {
    match t
    case Direct4 => IPv4
    case Direct6 => IPv6
    case Punch(_, round) => HolePunch(round)
    case Via(_) => AnyRelay
  }

  /** Rounds `first` to `last` with one coordinator. */
  function Rounds(c: SocketAddr, first: nat, last: nat): (r: seq<Try>)
    requires first <= last
    ensures |r| == last - first + 1 && forall i | 0 <= i < |r| :: r[i] == Punch(c, first + i)
    decreases last - first
  {
    [Punch(c, first)] + if first == last then [] else Rounds(c, first + 1, last)
  }

  function Relays(relays: seq<SocketAddr>): (r: seq<Try>)
    ensures |r| == |relays| && forall i | 0 <= i < |r| :: r[i] == Via(relays[i])
  {
    if relays == [] then [] else [Via(relays[0])] + Relays(relays[1..])
  }

  predicate UsesHolePunch(c: Config) {
    c.holepunchEnabled && c.coordinator.Some?
  }

  predicate UsesRelay(c: Config) {
    c.relayEnabled && c.relays != []
  }

  function RelayPlan(c: Config): seq<Try> {
    if UsesRelay(c) then Relays(c.relays) else []
  }

  function PunchPlan(c: Config): seq<Try> {
    (if UsesHolePunch(c) then Rounds(c.coordinator.value, 1, Max(1, c.maxRounds)) else []) + RelayPlan(c)
  }

  /** Everything there is to try, in order: IPv4, IPv6 if enabled, the hole-punching rounds if
      enabled with a coordinator, every relay if enabled. */
  function Plan(c: Config): seq<Try> {
    [Direct4] + (if c.ipv6Enabled then [Direct6] else []) + PunchPlan(c)
  }

  function RoundCount(c: Config): nat {
    if !c.holepunchEnabled || c.coordinator.None? then 0 else if c.maxRounds == 0 then 1 else c.maxRounds
  }

  lemma PunchPlanAt(c: Config, i: nat)
    ensures var n := RoundCount(c);
            && |PunchPlan(c)| == n + (if c.relayEnabled then |c.relays| else 0)
            && (i < |PunchPlan(c)| ==>
                  PunchPlan(c)[i] == if i < n then Punch(c.coordinator.value, i + 1) else Via(c.relays[i - n]))
  {
    hide Rounds, Relays;
  }

  /** The plan place by place: IPv4, IPv6 if enabled, rounds 1 to the maximum (one at least) with the
      coordinator if there is one and hole punching is enabled, and every relay in order if enabled. */
  lemma PlanAt(c: Config, i: nat)
    ensures var direct, n := if c.ipv6Enabled then 2 else 1, RoundCount(c);
            && |Plan(c)| == direct + n + (if c.relayEnabled then |c.relays| else 0)
            && (i < |Plan(c)| ==>
                  Plan(c)[i] == if i == 0 then Direct4
                                else if i < direct then Direct6
                                else if i < direct + n then Punch(c.coordinator.value, i - direct + 1)
                                else Via(c.relays[i - direct - n]))
  {
    hide PunchPlan, RoundCount;
    var direct := if c.ipv6Enabled then 2 else 1;
    PunchPlanAt(c, if direct <= i then i - direct else 0);
  }

  /** What is left to try in a state. */
  function Remaining(s: Strategy): seq<Try> {
    match s.stage
    case DirectIPv4 => Plan(s.config)
    case DirectIPv6 => [Direct6] + PunchPlan(s.config)
    case HolePunching(c, round) => Rounds(c, round, Max(round, s.config.maxRounds)) + RelayPlan(s.config)
    case Relay(_, index) => if index <= |s.config.relays| then Relays(s.config.relays[index..]) else []
    case Connected(_) => []
    case Failed(_) => []
  }

  /** The stage fits the configuration. */
  predicate Good(s: Strategy) {
    match s.stage
    case HolePunching(_, round) => 1 <= round
    case Relay(addr, index) => index < |s.config.relays| && addr == s.config.relays[index] && s.config.relayEnabled
    case _ => true
  }

  /** A coordinator set is the one used from then on: by every round that is left, and for the rounds still
      to come if hole punching is enabled.  The relays to try stay the same. */
  lemma NewCoordinatorIsUsed(s: Strategy, coordinator: SocketAddr, t: Try)
    requires Good(s)
    ensures var u := WithCoordinator(s, coordinator);
            && Good(u) && u.errors == s.errors
            && (t.Punch? && t in Remaining(u) ==> t.coordinator == coordinator)
            && (s.stage.HolePunching? ==> Punch(coordinator, s.stage.round) in Remaining(u))
            && ((s.stage.DirectIPv4? || s.stage.DirectIPv6?) && s.config.holepunchEnabled ==>
                  Punch(coordinator, 1) in Remaining(u))
            && (t.Via? ==> (t in Remaining(u) <==> t in Remaining(s)))
  {
    hide Rounds, Relays;
    var u := WithCoordinator(s, coordinator);
    assert RelayPlan(u.config) == RelayPlan(s.config);
    if s.stage.HolePunching? {
      assert Rounds(coordinator, s.stage.round, Max(s.stage.round, s.config.maxRounds))[0]
          == Punch(coordinator, s.stage.round);
    } else if (s.stage.DirectIPv4? || s.stage.DirectIPv6?) && s.config.holepunchEnabled {
      assert Rounds(coordinator, 1, Max(1, s.config.maxRounds))[0] == Punch(coordinator, 1);
    }
  }

  function Log(s: Strategy): seq<Entry> {
    if s.stage.Failed? then s.stage.errors else s.errors
  }

  // ----- the documented driver -----

  /** What the documented driver does when what the stage stands for fails. */
  function Fail(s: Strategy, error: string): Strategy {
    match s.stage
    case DirectIPv4 => ToIPv6(s, error)
    case DirectIPv6 => ToHolePunch(s, error)
    case HolePunching(_, round) =>
      if ShouldRetry(s) then NextRound(Logged(s, HolePunch(round), error)) else ToRelay(s, error)
    case Relay(_, _) => NextRelay(s, error)
    case Connected(_) => s
    case Failed(_) => s
  }

  lemma NothingRemainsIff(s: Strategy)
    requires Good(s)
    ensures Remaining(s) == [] <==> Terminal(s)
  {
  }

  lemma EnterRelayPlans(s: Strategy)
    requires !s.stage.Relay? && !s.stage.Failed?
    ensures var t := EnterRelay(s);
            Good(t) && !t.stage.Connected? && Remaining(t) == RelayPlan(s.config) && Log(t) == s.errors
              && t.config == s.config
  {
    assert s.config.relays[0..] == s.config.relays;
  }

  lemma EnterHolePunchPlans(s: Strategy)
    requires !s.stage.Relay? && !s.stage.Failed?
    ensures var t := EnterHolePunch(s);
            Good(t) && !t.stage.Connected? && Remaining(t) == PunchPlan(s.config) && Log(t) == s.errors
              && t.config == s.config
  {
    EnterRelayPlans(s);
    assert [] + RelayPlan(s.config) == RelayPlan(s.config);
  }

  /** A failure takes exactly the first of what remains off the plan and logs it. */
  lemma FailAdvances(s: Strategy, error: string)
    requires Good(s) && !Terminal(s)
    ensures var t := Fail(s, error);
            && Good(t) && !t.stage.Connected? && t.config == s.config
            && Remaining(s) != [] && Remaining(t) == Remaining(s)[1..]
            && Log(t) == s.errors + [Entry(AttemptedOf(Remaining(s)[0]), error)]
  {
    match s.stage
    case DirectIPv4 => DirectFails(s, error);
    case DirectIPv6 => DirectFails(s, error);
    case HolePunching(_, _) => PunchFails(s, error);
    case Relay(_, _) => RelayFails(s, error);
  }

  lemma DirectFails(s: Strategy, error: string)
    requires s.stage.DirectIPv4? || s.stage.DirectIPv6?
    ensures var t := Fail(s, error);
            && Good(t) && !t.stage.Connected? && t.config == s.config
            && Remaining(s) != [] && Remaining(t) == Remaining(s)[1..]
            && Log(t) == s.errors + [Entry(AttemptedOf(Remaining(s)[0]), error)]
  {
    hide EnterHolePunch, PunchPlan;
    var rest := PunchPlan(s.config);
    var t := Logged(s, if s.stage.DirectIPv4? then IPv4 else IPv6, error);
    EnterHolePunchPlans(t);
    assert ([Direct6] + rest)[1..] == rest;
    assert ([Direct4] + [] + rest)[1..] == rest;
    assert ([Direct4] + [Direct6] + rest)[1..] == [Direct6] + rest;
  }

  lemma PunchFails(s: Strategy, error: string)
    requires Good(s) && s.stage.HolePunching?
    ensures var t := Fail(s, error);
            && Good(t) && !t.stage.Connected? && t.config == s.config
            && Remaining(s) != [] && Remaining(t) == Remaining(s)[1..]
            && Log(t) == s.errors + [Entry(AttemptedOf(Remaining(s)[0]), error)]
  {
    hide RelayPlan, EnterRelay, Rounds, Plan, PunchPlan;
    var c, round, last := s.stage.coordinator, s.stage.round, Max(s.stage.round, s.config.maxRounds);
    RoundsStep(c, round, last, RelayPlan(s.config));
    if !ShouldRetry(s) {
      EnterRelayPlans(Logged(s, HolePunch(round), error));
    }
  }

  lemma RoundsStep(c: SocketAddr, first: nat, last: nat, rest: seq<Try>)
    requires first <= last
    ensures var all := Rounds(c, first, last) + rest;
            && all != [] && all[0] == Punch(c, first)
            && all[1..] == if first == last then rest else Rounds(c, first + 1, last) + rest
  {
  }

  lemma RelayFails(s: Strategy, error: string)
    requires Good(s) && s.stage.Relay?
    ensures var t := Fail(s, error);
            && Good(t) && !t.stage.Connected? && t.config == s.config
            && Remaining(s) != [] && Remaining(t) == Remaining(s)[1..]
            && Log(t) == s.errors + [Entry(AttemptedOf(Remaining(s)[0]), error)]
  {
    hide Relays, Plan, PunchPlan, RelayPlan, Rounds;
    RelaysFrom(s.config.relays, s.stage.index);
  }

  lemma RelaysFrom(relays: seq<SocketAddr>, index: nat)
    requires index < |relays|
    ensures var all := Relays(relays[index..]);
            all != [] && all[0] == Via(relays[index]) && all[1..] == Relays(relays[index + 1..])
    ensures Relays([]) == []
  {
    assert relays[index..][1..] == relays[index + 1..];
  }

  /** The log holds, in order, one entry for each of the tries, with the error it met. */
  ghost predicate IsLogOf(log: seq<Entry>, tries: seq<Try>, outcome: nat -> Option<string>) {
    && |log| == |tries|
    && forall i | 0 <= i < |tries| :: outcome(i).Some? && log[i] == Entry(AttemptedOf(tries[i]), outcome(i).value)
  }

  // ----- the driver of the endpoint -----

  const NO_DIRECT := "No direct addresses"
  const HANDLED := "Handled by Happy Eyeballs"

  /** The outcome of an attempt.  A connection that won the race of all direct addresses is then set
      up, which can fail; `more` is what the log says of IPv6 when the race itself does. */
  datatype Result = Works(ipv6: bool, setUp: bool) | Fails(error: string, more: string)

  /** How the driver ends. */
  datatype End = Done(via: Method) | SetupFailed | GaveUp(errors: seq<Entry>) | NoAddress

  /** What it does on a failure. */
  function FailDeployed(s: Strategy, error: string, more: string): Strategy {
    match s.stage
    case DirectIPv4 => ToHolePunch(ToIPv6(s, error), more)
    case DirectIPv6 => ToHolePunch(s, HANDLED)
    case HolePunching(_, round) =>
      var t := Logged(s, HolePunch(round), error);
      if ShouldRetry(t) then NextRound(t) else ToRelay(t, error)
    case Relay(_, _) => ToFailed(s, error)
    case Connected(_) => s
    case Failed(_) => s
  }

  function FirstRelay(c: Config): seq<Try> {
    if UsesRelay(c) then [Via(c.relays[0])] else []
  }

  /** What it tries: all direct addresses at once, the rounds, and the first relay only. */
  function DeployedPlan(c: Config): seq<Try> {
    [Direct4] + (if UsesHolePunch(c) then Rounds(c.coordinator.value, 1, Max(1, c.maxRounds)) else []) + FirstRelay(c)
  }

  /** That plan place by place. */
  lemma DeployedPlanAt(c: Config, i: nat)
    ensures var rounds := RoundCount(c);
            && |DeployedPlan(c)| == 1 + rounds + (if c.relayEnabled && c.relays != [] then 1 else 0)
            && (i < |DeployedPlan(c)| ==>
                  DeployedPlan(c)[i] == if i == 0 then Direct4
                                        else if i <= rounds then Punch(c.coordinator.value, i)
                                        else Via(c.relays[0]))
  {
    hide Rounds;
  }

  function DeployedRemaining(s: Strategy): seq<Try> {
    match s.stage
    case DirectIPv4 => DeployedPlan(s.config)
    case DirectIPv6 => []
    case HolePunching(c, round) => Rounds(c, round, Max(round, s.config.maxRounds)) + FirstRelay(s.config)
    case Relay(addr, _) => [Via(addr)]
    case Connected(_) => []
    case Failed(_) => []
  }

  /** What will still be logged if everything fails. */
  function Pending(s: Strategy): seq<Attempted> {
    match s.stage
    case DirectIPv4 => DeployedLog(s.config)
    case DirectIPv6 => []
    case HolePunching(_, round) => RoundsLogged(round, Max(round, s.config.maxRounds)) + RelayLogged(s.config)
    case Relay(_, _) => [AnyRelay]
    case Connected(_) => []
    case Failed(_) => []
  }

  /** The states the driver passes through when it has an address to try. */
  predicate OnTrack(s: Strategy) {
    && Good(s) && !s.stage.Connected? && !s.stage.DirectIPv6?
    && (s.stage.DirectIPv4? ==> s.errors == [])
    && (s.stage.Relay? ==> s.stage.addr == s.config.relays[0])
  }

  function Methods(log: seq<Entry>): seq<Attempted> {
    if log == [] then [] else [log[0].tried] + Methods(log[1..])
  }

  lemma MethodsFirst(log: seq<Entry>)
    requires log != []
    ensures Methods(log) == [log[0].tried] + Methods(log[1..])
  {
  }

  lemma Reassociate(a: seq<Attempted>, b: seq<Attempted>, c: seq<Attempted>)
    ensures a + (b + c) == (a + b) + c
  {
  }

  lemma {:induction false} MethodsConcat(a: seq<Entry>, b: seq<Entry>)
    ensures Methods(a + b) == Methods(a) + Methods(b)
  {
    if a == [] {
      assert a + b == b;
    } else {
      MethodsConcat(a[1..], b);
      MethodsFirst(a);
      MethodsFirst(a + b);
      hide Methods;
      assert (a + b)[1..] == a[1..] + b;
      Reassociate([a[0].tried], Methods(a[1..]), Methods(b));
    }
  }

  lemma MethodsLogged(log: seq<Entry>, tried: Attempted, error: string)
    ensures Methods(log + [Entry(tried, error)]) == Methods(log) + [tried]
  {
    MethodsConcat(log, [Entry(tried, error)]);
    assert Methods([Entry(tried, error)]) == [tried] + Methods([Entry(tried, error)][1..]);
  }

  function AttemptsOf(tries: seq<Try>): (r: seq<Attempted>)
    ensures |r| == |tries| && forall i | 0 <= i < |r| :: r[i] == AttemptedOf(tries[i])
  {
    if tries == [] then [] else [AttemptedOf(tries[0])] + AttemptsOf(tries[1..])
  }

  function RoundsLogged(first: nat, last: nat): (r: seq<Attempted>)
    requires first <= last
    ensures |r| == last - first + 2
    ensures forall i | 0 <= i <= last - first :: r[i] == HolePunch(first + i)
    ensures r[last - first + 1] == HolePunch(last)
    decreases last - first
  {
    [HolePunch(first)] + if first == last then [HolePunch(first)] else RoundsLogged(first + 1, last)
  }

  /** The error of IPv4 is overwritten when the strategy fails at once and is then told of IPv6. */
  predicate LosesIPv4(c: Config) {
    !c.ipv6Enabled && !UsesHolePunch(c) && !UsesRelay(c)
  }

  function RelayLogged(c: Config): seq<Attempted> {
    if UsesRelay(c) then [AnyRelay] else []
  }

  function PunchLogged(c: Config): seq<Attempted> {
    if UsesHolePunch(c) then RoundsLogged(1, Max(1, c.maxRounds)) else []
  }

  /** What the endpoint's log says when everything failed: always IPv6, the last round twice, one relay. */
  function DeployedLog(c: Config): seq<Attempted> {
    (if LosesIPv4(c) then [] else [IPv4]) + [IPv6] + PunchLogged(c) + RelayLogged(c)
  }

  lemma RoundsLoggedStep(first: nat, last: nat)
    requires first <= last
    ensures RoundsLogged(first, last)
         == [HolePunch(first)] + if first == last then [HolePunch(first)] else RoundsLogged(first + 1, last)
  {
  }

  /** Entering the relay stage after `s.errors`. */
  lemma EnterRelayDeployed(s: Strategy)
    requires !s.stage.Relay?
    ensures var t := EnterRelay(s);
            && OnTrack(t) && t.config == s.config && DeployedRemaining(t) == FirstRelay(s.config)
            && Methods(Log(t)) + Pending(t) == Methods(s.errors) + RelayLogged(s.config)
  {
    hide Methods;
  }

  lemma EnterHolePunchDeployed(s: Strategy)
    requires s.stage.Relay? ==> UsesRelay(s.config) && !UsesHolePunch(s.config)
    ensures var t := EnterHolePunch(s);
            && OnTrack(t) && !t.stage.DirectIPv4? && t.config == s.config
            && DeployedRemaining(t) == DeployedPlan(s.config)[1..]
            && Methods(Log(t)) + Pending(t) == Methods(s.errors) + (PunchLogged(s.config) + RelayLogged(s.config))
  {
    hide Methods, Rounds, RoundsLogged;
    var c := s.config;
    var rounds := if UsesHolePunch(c) then Rounds(c.coordinator.value, 1, Max(1, c.maxRounds)) else [];
    assert DeployedPlan(c)[1..] == rounds + FirstRelay(c);
    assert [] + FirstRelay(c) == FirstRelay(c) && [] + RelayLogged(c) == RelayLogged(c);
    if !UsesHolePunch(c) && !s.stage.Relay? {
      EnterRelayDeployed(s);
    }
  }

  lemma DirectLogged(c: Config, error: string)
    ensures var s := ToIPv6(Start(c), error);
            && Methods(s.errors) == (if LosesIPv4(c) then [] else [IPv4])
            && s.config == c && (s.stage.Relay? ==> UsesRelay(c) && !UsesHolePunch(c))
  {
    MethodsLogged([], IPv4, error);
    assert ToIPv6(Start(c), error).errors == if LosesIPv4(c) then [] else [] + [Entry(IPv4, error)];
  }

  lemma DirectFailsDeployed(s: Strategy, error: string, more: string)
    requires OnTrack(s) && s.stage.DirectIPv4?
    ensures DeployedAdvances(s, FailDeployed(s, error, more))
  {
    hide Methods, PunchLogged, RelayLogged, EnterHolePunch, DeployedPlan, ToIPv6;
    var c := s.config;
    assert s == Start(c);
    var t := ToIPv6(s, error);
    DirectLogged(c, error);
    EnterHolePunchDeployed(Logged(t, IPv6, more));
    MethodsLogged(t.errors, IPv6, more);
    PlanStarts(c);
    NothingLogged();
    var first := if LosesIPv4(c) then [] else [IPv4];
    Reassociate(first + [IPv6], PunchLogged(c), RelayLogged(c));
    assert [] + DeployedLog(c) == DeployedLog(c);
  }

  lemma PlanStarts(c: Config)
    ensures DeployedPlan(c) != [] && DeployedPlan(c)[0] == Direct4
  {
  }

  lemma NothingLogged()
    ensures Methods([]) == []
  {
  }

  lemma PunchFailsDeployed(s: Strategy, error: string, more: string)
    requires OnTrack(s) && s.stage.HolePunching?
    ensures DeployedAdvances(s, FailDeployed(s, error, more))
  {
    hide DeployedAdvances, FailDeployed;
    if ShouldRetry(s) {
      PunchRetries(s, error, more);
    } else {
      PunchLeaves(s, error, more);
    }
  }

  lemma PunchRetries(s: Strategy, error: string, more: string)
    requires OnTrack(s) && ShouldRetry(s)
    ensures DeployedAdvances(s, FailDeployed(s, error, more))
  {
    hide Methods, RelayLogged, RoundsLogged, Rounds, FirstRelay, ToRelay;
    var c, round, last := s.stage.coordinator, s.stage.round, s.config.maxRounds;
    RoundsStep(c, round, last, FirstRelay(s.config));
    RoundsLoggedStep(round, last);
    MethodsLogged(s.errors, HolePunch(round), error);
    OneRoundLogged(Methods(s.errors), [HolePunch(round)], RoundsLogged(round + 1, last), RelayLogged(s.config));
  }

  lemma PunchLeaves(s: Strategy, error: string, more: string)
    requires OnTrack(s) && s.stage.HolePunching? && !ShouldRetry(s)
    ensures DeployedAdvances(s, FailDeployed(s, error, more))
  {
    hide Methods, RelayLogged, RoundsLogged, Rounds, EnterRelay, FirstRelay;
    var c, round := s.stage.coordinator, s.stage.round;
    var t := Logged(s, HolePunch(round), error);
    var before, tried, relay := Methods(s.errors), [HolePunch(round)], RelayLogged(s.config);
    RoundsStep(c, round, round, FirstRelay(s.config));
    RoundsLoggedStep(round, round);
    MethodsLogged(s.errors, HolePunch(round), error);
    MethodsLogged(t.errors, HolePunch(round), error);
    EnterRelayDeployed(Logged(t, HolePunch(round), error));
    hide OnTrack, DeployedRemaining;
    OneRoundLogged(before, tried, tried, relay);
    Reassociate(before + tried, tried, relay);
  }

  lemma OneRoundLogged(before: seq<Attempted>, tried: seq<Attempted>, rest: seq<Attempted>, relay: seq<Attempted>)
    ensures before + ((tried + rest) + relay) == (before + tried) + (rest + relay)
  {
    Reassociate(tried, rest, relay);
    Reassociate(before, tried, rest + relay);
  }

  lemma RelayFailsDeployed(s: Strategy, error: string, more: string)
    requires OnTrack(s) && s.stage.Relay?
    ensures DeployedAdvances(s, FailDeployed(s, error, more))
  {
    hide Methods;
    MethodsLogged(s.errors, AnyRelay, error);
    var all := Methods(s.errors) + [AnyRelay];
    assert all + [] == all;
  }

  /** From `s` to `t` the first thing that remained was tried, and nothing about the final log changed. */
  ghost predicate DeployedAdvances(s: Strategy, t: Strategy) {
    && OnTrack(t) && t.config == s.config
    && DeployedRemaining(s) != [] && DeployedRemaining(t) == DeployedRemaining(s)[1..]
    && Methods(Log(t)) + Pending(t) == Methods(Log(s)) + Pending(s)
  }

  /** In every state on its way a failure takes exactly the first thing off what remains to be
      tried, and keeps what the log will be if the rest fails too. */
  lemma FailAdvancesDeployed(s: Strategy, error: string, more: string)
    requires OnTrack(s) && !Terminal(s)
    ensures DeployedAdvances(s, FailDeployed(s, error, more))
  {
    hide DeployedAdvances, OnTrack, FailDeployed;
    assert !s.stage.DirectIPv6? by { NotIPv6(s); }
    if s.stage.DirectIPv4? {
      DirectFailsDeployed(s, error, more);
    } else if s.stage.HolePunching? {
      PunchFailsDeployed(s, error, more);
    } else {
      RelayFailsDeployed(s, error, more);
    }
  }

  lemma NotIPv6(s: Strategy)
    requires OnTrack(s)
    ensures !s.stage.DirectIPv6? && !s.stage.Connected?
  {
  }

  /** That log is what the configuration's plan promises exactly when IPv6 is enabled, hole
      punching is not used, and no more than one relay is. */
  lemma DeployedFollowsPlanIff(c: Config)
    ensures DeployedLog(c) == AttemptsOf(Plan(c))
       <==> c.ipv6Enabled && !UsesHolePunch(c) && (UsesRelay(c) ==> |c.relays| == 1)
  {
    hide Plan, DeployedLog, UsesHolePunch;
    if !c.ipv6Enabled {
      WithoutIPv6Differs(c);
    } else if UsesHolePunch(c) {
      PunchingDiffers(c);
    } else {
      OneRelayMatches(c);
    }
  }

  lemma WithoutIPv6Differs(c: Config)
    requires !c.ipv6Enabled
    ensures DeployedLog(c) != AttemptsOf(Plan(c))
  {
    var log, plan := DeployedLog(c), AttemptsOf(Plan(c));
    hide Rounds, RoundsLogged;
    assert if LosesIPv4(c) then log[0] == IPv6 else log[1] == IPv6;
    assert plan[0] == IPv4 && (|plan| > 1 ==> plan[1] != IPv6);
  }

  lemma OneRelayMatches(c: Config)
    requires c.ipv6Enabled && !UsesHolePunch(c)
    ensures DeployedLog(c) == AttemptsOf(Plan(c)) <==> (UsesRelay(c) ==> |c.relays| == 1)
  {
    var log, plan := DeployedLog(c), AttemptsOf(Plan(c));
    assert log == [IPv4, IPv6] + RelayLogged(c);
    assert Plan(c) == [Direct4, Direct6] + RelayPlan(c);
    hide Plan, DeployedLog;
    if |plan| == |log| {
      assert forall i | 0 <= i < |plan| :: plan[i] == log[i];
    }
  }

  /** With two rounds and no relay, say, the log has a round more than were run. */
  lemma LastRoundLoggedTwice(coordinator: SocketAddr)
    ensures var c := Config(2, true, true, true, Some(coordinator), []);
            && DeployedPlan(c) == [Direct4, Punch(coordinator, 1), Punch(coordinator, 2)]
            && DeployedLog(c) == [IPv4, IPv6, HolePunch(1), HolePunch(2), HolePunch(2)]
  {
    assert Rounds(coordinator, 1, 2) == [Punch(coordinator, 1), Punch(coordinator, 2)];
    assert RoundsLogged(1, 2) == [HolePunch(1), HolePunch(2), HolePunch(2)];
  }

  /** With hole punching the last round's second entry is where the plan has a relay, or ends. */
  lemma PunchingDiffers(c: Config)
    requires c.ipv6Enabled && UsesHolePunch(c)
    ensures DeployedLog(c) != AttemptsOf(Plan(c))
  {
    var k := Max(1, c.maxRounds);
    var log, plan := DeployedLog(c), AttemptsOf(Plan(c));
    assert log[2 + k] == HolePunch(k);
    if |plan| > 2 + k {
      assert Plan(c)[2 + k] == RelayPlan(c)[0];
      assert plan[2 + k] == AnyRelay;
    }
  }

  lemma RelaysHave(relays: seq<SocketAddr>, r: SocketAddr)
    ensures Via(r) in Relays(relays) <==> r in relays
  {
    if r in relays {
      var i :| 0 <= i < |relays| && relays[i] == r;
      assert Relays(relays)[i] == Via(r);
    }
  }

  lemma PlannedRelays(c: Config, r: SocketAddr)
    ensures Via(r) in Plan(c) <==> UsesRelay(c) && r in c.relays
    ensures Via(r) in DeployedPlan(c) <==> UsesRelay(c) && r == c.relays[0]
  {
    RelaysHave(c.relays, r);
    hide Relays, Rounds;
    assert Via(r) in RelayPlan(c) <==> UsesRelay(c) && r in c.relays;
    hide RelayPlan;
    assert Via(r) in PunchPlan(c) <==> Via(r) in RelayPlan(c);
    assert Via(r) in FirstRelay(c) <==> UsesRelay(c) && r == c.relays[0];
    hide FirstRelay, PunchPlan;
  }

  /** The driver tries every relay of the plan exactly when no relay differs from the first. */
  lemma RelaysTriedIff(c: Config)
    ensures (forall r | Via(r) in Plan(c) :: Via(r) in DeployedPlan(c))
       <==> (UsesRelay(c) ==> forall r | r in c.relays :: r == c.relays[0])
  {
    hide Plan, DeployedPlan;
    forall r ensures Via(r) in Plan(c) <==> UsesRelay(c) && r in c.relays {
      PlannedRelays(c, r);
    }
    forall r ensures Via(r) in DeployedPlan(c) <==> UsesRelay(c) && r == c.relays[0] {
      PlannedRelays(c, r);
    }
  }

  // ----- without an address -----

  /** The states the driver passes through when it has no address to try. */
  predicate Skipping(c: Config, s: Strategy) {
    || s == Start(c)
    || s == ToIPv6(Start(c), NO_DIRECT)
    || (c.ipv6Enabled && s == ToHolePunch(ToIPv6(Start(c), NO_DIRECT), HANDLED))
  }

  predicate NeedsAddress(s: Strategy) {
    s.stage.HolePunching? || s.stage.Relay?
  }

  /** Nothing is tried then: the run ends at the first stage that needs the address, or with the log
      of the direct stages that were skipped. */
  lemma SkippingEnds(c: Config, s: Strategy)
    requires Skipping(c, s)
    ensures NeedsAddress(s) ==> UsesHolePunch(c) || UsesRelay(c)
    ensures !s.stage.Connected?
    ensures s.stage.Failed? ==>
              && !UsesHolePunch(c) && !UsesRelay(c)
              && s.stage.errors == [Entry(IPv4, NO_DIRECT)] + if c.ipv6Enabled then [Entry(IPv6, HANDLED)] else []
  {
  }

  // ----- the object -----

  class Connector {
    var stage: Stage
    var config: Config
    var errors: seq<Entry>

    ghost function View(): Strategy
      reads this
    {
      Strategy(stage, config, errors)
    }

    constructor (config: Config)
      ensures View() == Start(config)
    {
      stage, this.config, errors := DirectIPv4, config, [];
    }

    method TransitionToIPv6(error: string)
      modifies this
      ensures View() == ToIPv6(old(View()), error)
    {
      errors := errors + [Entry(IPv4, error)];
      if config.ipv6Enabled {
        stage := DirectIPv6;
      } else {
        TransitionToHolePunchInternal();
      }
    }

    method TransitionToHolePunch(error: string)
      modifies this
      ensures View() == ToHolePunch(old(View()), error)
    {
      errors := errors + [Entry(IPv6, error)];
      TransitionToHolePunchInternal();
    }

    method TransitionToHolePunchInternal()
      modifies this
      ensures View() == EnterHolePunch(old(View()))
    {
      if !config.holepunchEnabled {
        TransitionToRelayInternal();
        return;
      }
      if config.coordinator.Some? {
        stage := HolePunching(config.coordinator.value, 1);
      } else {
        TransitionToRelayInternal();
      }
    }

    method RecordHolePunchError(round: nat, error: string)
      modifies this
      ensures View() == Logged(old(View()), HolePunch(round), error)
    {
      errors := errors + [Entry(HolePunch(round), error)];
    }

    method ShouldRetryHolePunch() returns (b: bool)
      ensures b <==> ShouldRetry(View())
    {
      b := stage.HolePunching? && stage.round < config.maxRounds;
    }

    method SetCoordinator(coordinator: SocketAddr)
      modifies this
      ensures View() == WithCoordinator(old(View()), coordinator)
    {
      if stage.HolePunching? {
        stage := stage.(coordinator := coordinator);
      }
      config := config.(coordinator := Some(coordinator));
    }

    method IncrementRound()
      modifies this
      ensures View() == NextRound(old(View()))
    {
      if stage.HolePunching? {
        stage := HolePunching(stage.coordinator, stage.round + 1);
      }
    }

    method TransitionToRelay(error: string)
      modifies this
      ensures View() == ToRelay(old(View()), error)
    {
      if stage.HolePunching? {
        errors := errors + [Entry(HolePunch(stage.round), error)];
      }
      TransitionToRelayInternal();
    }

    method TransitionToNextRelay(error: string)
      modifies this
      ensures View() == NextRelay(old(View()), error)
    {
      if stage.Relay? {
        errors := errors + [Entry(AnyRelay, error)];
        var next := stage.index + 1;
        if next < |config.relays| {
          stage := Relay(config.relays[next], next);
        } else {
          stage, errors := Failed(errors), [];
        }
      }
    }

    method TransitionToRelayInternal()
      modifies this
      ensures View() == EnterRelay(old(View()))
    {
      if config.relayEnabled && config.relays != [] {
        stage := Relay(config.relays[0], 0);
      } else if !config.relayEnabled {
        TransitionToFailed("Relay disabled and all other methods failed");
      } else {
        TransitionToFailed("No relay servers configured");
      }
    }

    method TransitionToFailed(error: string)
      modifies this
      ensures View() == ToFailed(old(View()), error)
    {
      if stage.Relay? {
        errors := errors + [Entry(AnyRelay, error)];
      }
      stage, errors := Failed(errors), [];
    }

    method MarkConnected(via: Method)
      modifies this
      ensures View() == old(View()).(stage := Connected(via))
    {
      stage := Connected(via);
    }

    /** The documented driver's answer to a failed attempt. */
    method OnFailure(error: string)
      modifies this
      ensures View() == Fail(old(View()), error)
    {
      match stage
      case DirectIPv4 => TransitionToIPv6(error);
      case DirectIPv6 => TransitionToHolePunch(error);
      case HolePunching(_, round) =>
        var retry := ShouldRetryHolePunch();
        if retry {
          RecordHolePunchError(round, error);
          IncrementRound();
        } else {
          TransitionToRelay(error);
        }
      case Relay(_, _) => TransitionToNextRelay(error);
      case Connected(_) =>
      case Failed(_) =>
    }

    /** What the current stage stands for. */
    method Current() returns (t: Try)
      requires Good(View()) && !Terminal(View())
      ensures Remaining(View()) != [] && t == Remaining(View())[0]
    {
      match stage
      case DirectIPv4 => t := Direct4;
      case DirectIPv6 => t := Direct6;
      case HolePunching(c, round) => t := Punch(c, round);
      case Relay(addr, _) => t := Via(addr);
    }

    /** The documented driver, for every configuration and every outcome of its attempts (`None`
        is success): it ends, having tried the plan in order up to the first success, and either
        is connected by that, with the failures before it logged, or has failed with the whole
        plan tried and logged. */
    method Drive(outcome: nat -> Option<string>) returns (tried: seq<Try>)
      requires View() == Start(config)
      modifies this
      ensures config == old(config) && Terminal(View()) && tried <= Plan(config)
      ensures stage.Connected? ==>
                && tried != [] && outcome(|tried| - 1).None? && IsLogOf(errors, tried[..|tried| - 1], outcome)
                && match tried[|tried| - 1]
                   case Direct4 => stage.via == ByIPv4
                   case Direct6 => stage.via == ByIPv6
                   case Punch(coordinator, _) => stage.via == HolePunched(coordinator)
                   case Via(relay) => stage.via == Relayed(relay)
      ensures stage.Failed? ==> tried == Plan(config) && IsLogOf(stage.errors, tried, outcome)
    {
      hide Plan, Fail, Remaining, Good, Follows, IsLogOf;
      ghost var c := config;
      FollowsStart(c, outcome);
      tried := [];
      while !stage.Failed?
        invariant config == c && Follows(c, View(), tried, outcome)
        decreases |Remaining(View())|
      {
        FollowsPrefix(c, View(), tried, outcome);
        var t := Current();
        var o := outcome(|tried|);
        match o
        case None =>
          MarkConnected(MethodOf(t));
          assert (tried + [t])[..|tried|] == tried;
          return tried + [t];
        case Some(error) =>
          FollowsNext(c, View(), tried, outcome, error);
          OnFailure(error);
          tried := tried + [t];
      }
      FollowsPrefix(c, View(), tried, outcome);
    }

    /** The endpoint's answer to a failed attempt. */
    method OnFailureDeployed(error: string, more: string)
      modifies this
      ensures View() == FailDeployed(old(View()), error, more)
    {
      match stage
      case DirectIPv4 =>
        TransitionToIPv6(error);
        TransitionToHolePunch(more);
      case DirectIPv6 => TransitionToHolePunch(HANDLED);
      case HolePunching(_, round) =>
        RecordHolePunchError(round, error);
        var retry := ShouldRetryHolePunch();
        if retry {
          IncrementRound();
        } else {
          TransitionToRelay(error);
        }
      case Relay(_, _) => TransitionToFailed(error);
      case Connected(_) =>
      case Failed(_) =>
    }

    /** The endpoint's driver, with an address of the target, for every configuration and every
        outcome: `results` are those of its attempts, and `already(n)` tells whether the target turns
        out to be connected when it looks for the `n`-th time.  It ends, having tried its plan in
        order, connected by the first success or by itself, or with everything tried and the log of
        `DeployedLog`. */
    method DriveDeployed(results: nat -> Result, already: nat -> bool, ipv6: bool) returns (end: End, tried: seq<Try>)
      requires View() == Start(config)
      modifies this
      ensures config == old(config) && tried <= DeployedPlan(config) && !end.NoAddress?
      ensures end.Done? ==>
                || (FailedBefore(results, already, |tried|) && already(|tried|)
                    && end.via == if ipv6 then ByIPv6 else ByIPv4)
                || (tried != [] && FirstToWork(results, already, |tried| - 1)
                    && IsSuccess(tried[|tried| - 1], results(|tried| - 1), end.via))
      ensures end.SetupFailed? ==> tried == [Direct4] && FirstToWork(results, already, 0) && !results(0).setUp
      ensures end.GaveUp? ==>
                && tried == DeployedPlan(config) && FailedBefore(results, already, |tried|) && !already(|tried|)
                && Methods(end.errors) == DeployedLog(config)
    {
      hide DeployedPlan, FailDeployed, DeployedRemaining, Tracks, Methods, DeployedLog, FailedBefore;
      ghost var c := config;
      TracksStart(c);
      tried := [];
      NoneBefore(results, already);
      while true
        invariant config == c && Tracks(c, View(), tried) && FailedBefore(results, already, |tried|)
        decreases |DeployedRemaining(View())|
      {
        var n := |tried|;
        TracksPrefix(c, View(), tried);
        if already(n) {
          return Done(Family(ipv6)), tried;
        }
        if stage.Failed? {
          return GaveUp(stage.errors), tried;
        }
        var t := if stage.DirectIPv4? then Direct4
                 else if stage.HolePunching? then Punch(stage.coordinator, stage.round) else Via(stage.addr);
        var result := results(n);
        match result
        case Works(v6, setUp) =>
          if t.Direct4? && !setUp {
            OnlyFirstIsDirect(c, tried + [t]);
            return SetupFailed, tried + [t];
          }
          return Done(Succeeded(t, v6)), tried + [t];
        case Fails(error, more) =>
          TracksNext(c, View(), tried, t, error, more);
          OneMoreFailed(results, already, n);
          OnFailureDeployed(error, more);
          tried := tried + [t];
      }
    }

    /** The same driver without an address of the target. */
    method DriveWithoutAddress() returns (end: End)
      requires View() == Start(config)
      modifies this
      ensures end == if UsesHolePunch(config) || UsesRelay(config) then NoAddress
                     else GaveUp([Entry(IPv4, NO_DIRECT)] + if config.ipv6Enabled then [Entry(IPv6, HANDLED)] else [])
    {
      ghost var c := config;
      while !stage.Failed?
        invariant config == c && Skipping(c, View())
        decreases if View() == Start(c) then 2 else if stage.DirectIPv6? then 1 else 0
      {
        if stage.HolePunching? || stage.Relay? {
          SkippingEnds(c, View());
          return NoAddress;
        }
        if stage.DirectIPv4? {
          TransitionToIPv6(NO_DIRECT);
        } else {
          TransitionToHolePunch(HANDLED);
        }
      }
      SkippingEnds(c, View());
      return GaveUp(stage.errors);
    }
  }

  function Family(ipv6: bool): Method {
    if ipv6 then ByIPv6 else ByIPv4
  }

  /** How the endpoint reports a success; direct addresses of both families are tried at once. */
  function Succeeded(t: Try, ipv6: bool): Method {
    if t.Direct4? then Family(ipv6) else MethodOf(t)
  }

  /** The first `n` attempts failed, and the target did not turn out to be connected before any of them. */
  ghost predicate FailedBefore(results: nat -> Result, already: nat -> bool, n: nat) {
    forall i | 0 <= i < n :: !already(i) && results(i).Fails?
  }

  ghost predicate FirstToWork(results: nat -> Result, already: nat -> bool, n: nat) {
    FailedBefore(results, already, n) && !already(n) && results(n).Works?
  }

  lemma NoneBefore(results: nat -> Result, already: nat -> bool)
    ensures FailedBefore(results, already, 0)
  {
  }

  lemma OneMoreFailed(results: nat -> Result, already: nat -> bool, n: nat)
    requires FailedBefore(results, already, n) && !already(n) && results(n).Fails?
    ensures FailedBefore(results, already, n + 1)
  {
  }

  predicate IsSuccess(t: Try, r: Result, via: Method) {
    && r.Works? && (t.Direct4? ==> r.setUp)
    && match t
       case Punch(coordinator, _) => via == HolePunched(coordinator)
       case Via(relay) => via == Relayed(relay)
       case _ => via == if r.ipv6 then ByIPv6 else ByIPv4
  }

  lemma OnlyFirstIsDirect(c: Config, tried: seq<Try>)
    requires tried != [] && tried <= DeployedPlan(c) && tried[|tried| - 1] == Direct4
    ensures tried == [Direct4]
  {
    var n := |tried| - 1;
    assert tried[n] == DeployedPlan(c)[n];
  }

  /** `s` is where the driver is after trying `tried` in vain. */
  ghost predicate Tracks(c: Config, s: Strategy, tried: seq<Try>) {
    && s.config == c && OnTrack(s)
    && tried + DeployedRemaining(s) == DeployedPlan(c) && Methods(Log(s)) + Pending(s) == DeployedLog(c)
  }

  lemma TracksStart(c: Config)
    ensures Tracks(c, Start(c), [])
  {
    hide DeployedPlan;
    assert [] + DeployedLog(c) == DeployedLog(c);
    assert [] + DeployedPlan(c) == DeployedPlan(c);
  }

  lemma TracksPrefix(c: Config, s: Strategy, tried: seq<Try>)
    requires Tracks(c, s, tried)
    ensures !s.stage.Connected? && !s.stage.DirectIPv6? && tried <= DeployedPlan(c)
    ensures s.stage.Failed? ==> tried != [] && tried == DeployedPlan(c) && Methods(s.stage.errors) == DeployedLog(c)
    ensures !s.stage.Failed? ==> tried + [NextTry(s)] <= DeployedPlan(c)
  {
    hide Methods, DeployedPlan, DeployedLog, DeployedRemaining, Pending;
    PlanStarts(c);
    var rest := DeployedRemaining(s);
    if s.stage.Failed? {
      DeployedEnds(s);
      assert tried + [] == tried && Methods(s.stage.errors) + [] == Methods(s.stage.errors);
    } else {
      DeployedNext(s);
      PrefixStep(tried, NextTry(s), rest);
    }
  }

  lemma DeployedEnds(s: Strategy)
    requires s.stage.Failed?
    ensures DeployedRemaining(s) == [] && Pending(s) == []
  {
  }

  lemma PrefixStep(tried: seq<Try>, t: Try, rest: seq<Try>)
    requires rest != [] && rest[0] == t
    ensures tried <= tried + rest && tried + [t] <= tried + rest && tried + rest == (tried + [t]) + rest[1..]
  {
  }

  function NextTry(s: Strategy): Try
    requires !Terminal(s) && !s.stage.DirectIPv6?
  {
    if s.stage.DirectIPv4? then Direct4
    else if s.stage.HolePunching? then Punch(s.stage.coordinator, s.stage.round) else Via(s.stage.addr)
  }

  lemma DeployedNext(s: Strategy)
    requires OnTrack(s) && !s.stage.Failed?
    ensures DeployedRemaining(s) != [] && DeployedRemaining(s)[0] == NextTry(s)
  {
  }

  lemma TracksNext(c: Config, s: Strategy, tried: seq<Try>, t: Try, error: string, more: string)
    requires Tracks(c, s, tried) && !Terminal(s) && !s.stage.DirectIPv6? && t == NextTry(s)
    ensures Tracks(c, FailDeployed(s, error, more), tried + [t])
    ensures |DeployedRemaining(FailDeployed(s, error, more))| < |DeployedRemaining(s)|
    ensures FailDeployed(s, error, more).config == c
  {
    hide Methods, DeployedPlan, DeployedLog, FailDeployed, OnTrack, DeployedRemaining, Pending;
    FailAdvancesDeployed(s, error, more);
    DeployedNext(s);
    PrefixStep(tried, t, DeployedRemaining(s));
  }

  /** `s` is where the documented driver is after trying `tried` in vain. */
  ghost predicate Follows(c: Config, s: Strategy, tried: seq<Try>, outcome: nat -> Option<string>) {
    && s.config == c && Good(s) && !s.stage.Connected?
    && tried + Remaining(s) == Plan(c) && IsLogOf(Log(s), tried, outcome)
  }

  lemma FollowsStart(c: Config, outcome: nat -> Option<string>)
    ensures Follows(c, Start(c), [], outcome)
  {
    hide Plan;
    assert [] + Plan(c) == Plan(c);
  }

  lemma FollowsPrefix(c: Config, s: Strategy, tried: seq<Try>, outcome: nat -> Option<string>)
    requires Follows(c, s, tried, outcome)
    ensures Good(s) && !s.stage.Connected? && tried <= Plan(c) && IsLogOf(Log(s), tried, outcome)
    ensures s.stage.Failed? ==> tried == Plan(c)
    ensures !s.stage.Failed? ==> Remaining(s) != [] && tried + [Remaining(s)[0]] <= Plan(c)
  {
    hide Plan, Remaining, IsLogOf, Good;
    NothingRemainsIff(s);
    if s.stage.Failed? {
      assert tried + [] == tried;
    } else {
      PrefixStep(tried, Remaining(s)[0], Remaining(s));
    }
  }

  lemma LogNext(log: seq<Entry>, tries: seq<Try>, outcome: nat -> Option<string>, t: Try, error: string)
    requires IsLogOf(log, tries, outcome) && outcome(|tries|) == Some(error)
    ensures IsLogOf(log + [Entry(AttemptedOf(t), error)], tries + [t], outcome)
  {
  }

  lemma FollowsNext(c: Config, s: Strategy, tried: seq<Try>, outcome: nat -> Option<string>, error: string)
    requires Follows(c, s, tried, outcome) && !Terminal(s) && outcome(|tried|) == Some(error)
    ensures Remaining(s) != [] && Follows(c, Fail(s, error), tried + [Remaining(s)[0]], outcome)
    ensures |Remaining(Fail(s, error))| < |Remaining(s)| && Fail(s, error).config == c
  {
    hide Plan, Remaining, IsLogOf, Good, Fail, AttemptedOf;
    FailAdvances(s, error);
    PrefixStep(tried, Remaining(s)[0], Remaining(s));
    LogNext(s.errors, tried, outcome, Remaining(s)[0], error);
  }
}

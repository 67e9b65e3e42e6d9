/**
 Stateless resets (src/endpoint.rs, `stateless_reset`; section 10.3.3 of RFC 9000): their size,
 the end of every exchange of them, and their spacing in time.
 */
module StatelessReset {
  import opened Prelude
  import opened EndpointState
  import opened EndpointRuns

  /** A value of `lo..=hi` picked by the random number `r`. */
  function Pick(r: nat, lo: nat, hi: nat): nat
    requires lo <= hi
  {
    lo + r % (hi - lo + 1)
  }

  /** Octets of padding in the answer to a datagram of `len` octets. */
  function PaddingLen(len: nat, r: nat): nat
    requires len > RESET_TOKEN_SIZE + MIN_PADDING_LEN
  {
    var limit := len - RESET_TOKEN_SIZE - 1;
    if limit <= MIN_PADDING_LEN then limit
    else if limit <= IDEAL_MIN_PADDING_LEN then Pick(r, MIN_PADDING_LEN, limit)
    else Pick(r, IDEAL_MIN_PADDING_LEN, limit - 1)
  }

  /** Size of that answer. */
  function ResetSize(len: nat, r: nat): nat
    requires len > RESET_TOKEN_SIZE + MIN_PADDING_LEN
  {
    PaddingLen(len, r) + RESET_TOKEN_SIZE
  }

  /** A reset is long enough to pass for a packet and shorter than what caused it; one larger
      than 42 octets also leaves room for any connection ID. */
  lemma ResetSizeBounds(len: nat, r: nat)
    requires len > RESET_TOKEN_SIZE + MIN_PADDING_LEN
    ensures 21 <= ResetSize(len, r) < len
    ensures len > 42 ==> ResetSize(len, r) >= RESET_TOKEN_SIZE + IDEAL_MIN_PADDING_LEN
  {
  }

  /** The sizes the random number can give, exactly: any that pass for a packet and are shorter than a
      datagram of up to 42 octets, and for longer ones those that leave room for any connection ID and
      are shorter by two octets at least. */
  lemma ResetSizesExactly(len: nat, n: nat)
    requires 22 <= len
    ensures (exists r: nat :: ResetSize(len, r) == n) <==> if len <= 42 then 21 <= n < len else 41 <= n < len - 1
  {
    if len <= 42 && 21 <= n < len {
      PickReaches(5, len - 17, n - 16);
      assert ResetSize(len, n - 21) == n;
    } else if 42 < len && 41 <= n < len - 1 {
      PickReaches(25, len - 18, n - 16);
      assert ResetSize(len, n - 41) == n;
    }
  }

  lemma PickReaches(lo: nat, hi: nat, n: nat)
    requires lo <= n <= hi
    ensures Pick(n - lo, lo, hi) == n
  {
  }

  /** Datagram lengths of an exchange in which each datagram is the reset answering the one
      before, whatever the random numbers. */
  ghost predicate IsExchange(lens: seq<nat>, rs: seq<nat>) {
    && |lens| == |rs| + 1
    && forall i | 0 <= i < |rs| ::
         lens[i] > RESET_TOKEN_SIZE + MIN_PADDING_LEN && lens[i + 1] == ResetSize(lens[i], rs[i])
  }

  lemma {:induction false} ExchangeShrinks(lens: seq<nat>, rs: seq<nat>)
    requires IsExchange(lens, rs) && rs != []
    ensures 21 <= lens[|rs|] <= lens[0] - |rs|
  {
    var k := |rs| - 1;
    ResetSizeBounds(lens[k], rs[k]);
    if k > 0 {
      ExchangeShrinks(lens[..|lens| - 1], rs[..k]);
    }
  }

  /** Two endpoints answering each other's resets stop after at most `lens[0] - 21` answers. */
  lemma ExchangeEnds(lens: seq<nat>, rs: seq<nat>)
    requires IsExchange(lens, rs)
    ensures rs != [] ==> |rs| <= lens[0] - 21
  {
    if rs != [] {
      ExchangeShrinks(lens, rs);
    }
  }

  // ----- spacing -----

  /** Whether handling this event sends a stateless reset. */
  predicate SendsResetFor(c: Config, s: State, e: Event) {
    && e.DatagramEvent?
    && Get(s.index, e.addresses, e.packet).None?
    && ((e.packet.kind.InitialPacket? && s.server.None?)
        || (e.packet.kind.ShortPacket? && e.cidValid && e.packet.dstCid != []))
    && SendsReset(c, s, e.now, e.packet.len)
  }

  /** Instants at which a run sends resets. */
  function ResetTimes(c: Config, s: State, es: seq<Event>): seq<Time>
    requires IsRun(c, s, es)
    decreases |es|
  {
    if es == [] then [] else
    (if SendsResetFor(c, s, es[0]) then [es[0].now] else []) + ResetTimes(c, Step(c, s, es[0]), es[1..])
  }

  lemma {:induction false} IssueAllReset(s: State, ch: Handle, cids: seq<Cid>)
    requires ch in s.connections
    ensures IssueCids(s, ch, cids).lastReset == s.lastReset
  {
    if cids != [] {
      IssueAllReset(s, ch, cids[..|cids| - 1]);
    }
  }

  lemma AcceptReset(c: Config, s: State, idx: nat, config: Option<ServerConfig>, in_: AcceptInputs,
                    ch: Handle, locCid: Cid, prefCid: Cid)
    requires idx in s.buffers && idx in s.held
    ensures Accept(c, s, idx, config, in_, ch, locCid, prefCid).lastReset == s.lastReset
  {
    hide CidsExhausted, RemoveConn, InsertConn;
  }

  lemma StepReset(c: Config, s: State, e: Event)
    requires Enabled(c, s, e)
    ensures Step(c, s, e).lastReset == if SendsResetFor(c, s, e) then Some(e.now) else s.lastReset
  {
    hide Accept, Get, RefusedEarly, CidsExhausted, Unroutable, RemoveConn, InsertConn;
    match e
    case NeedIdentifiersEvent(ch, cids) => IssueAllReset(s, ch, cids);
    case AcceptEvent(idx, config, inputs, ch, locCid, prefCid) =>
      AcceptReset(c, s, idx, config, inputs, ch, locCid, prefCid);
    case _ =>
  }

  ghost predicate Spaced(ts: seq<Time>, gap: nat) {
    forall i | 0 <= i < |ts| - 1 :: ts[i] + gap <= ts[i + 1]
  }

  lemma SpacedPrepend(t: Time, ts: seq<Time>, gap: nat)
    requires Spaced(ts, gap) && (ts != [] ==> t + gap <= ts[0])
    ensures Spaced([t] + ts, gap)
  {
  }

  /** Over every run, whatever the clock does, successive resets are at least the configured
      interval apart, also from the one sent last before the run. */
  lemma {:induction false} ResetsAreSpaced(c: Config, s: State, es: seq<Event>)
    requires IsRun(c, s, es)
    ensures Spaced((if s.lastReset.Some? then [s.lastReset.value] else []) + ResetTimes(c, s, es), c.minResetInterval)
    decreases |es|
  {
    hide Step, Enabled, Get;
    if es != [] {
      StepReset(c, s, es[0]);
      var t := Step(c, s, es[0]);
      ResetsAreSpaced(c, t, es[1..]);
      var rest := ResetTimes(c, t, es[1..]);
      if SendsResetFor(c, s, es[0]) {
        assert ResetTimes(c, s, es) == [es[0].now] + rest;
        if s.lastReset.Some? {
          SpacedPrepend(s.lastReset.value, [es[0].now] + rest, c.minResetInterval);
        } else {
          assert [] + ([es[0].now] + rest) == [es[0].now] + rest;
        }
      } else {
        assert ResetTimes(c, s, es) == rest;
      }
    }
  }
}

/**
 What early returns of `connect` and `accept` leave behind in the table of connection IDs
 (src/endpoint.rs:699-709, 973-980, 996-1006): IDs filed under a handle that does not own them.
 They too stay for good, and use up the supply.
 */
module EndpointStray {
  import opened Prelude
  import opened EndpointState
  import opened EndpointInvariant
  import opened EndpointRuns
  import opened EndpointFiled

  /** `cid` is filed under a handle whose connection, if there is one, does not own it. */
  ghost predicate Stray(ids: map<Cid, Handle>, conns: Conns, cid: Cid) {
    cid in ids && !(ids[cid] in conns && HasCid(conns[ids[cid]].locCids, cid))
  }

  ghost predicate StrayId(s: State, cid: Cid) {
    Stray(s.index.ids, s.connections, cid)
  }

  // ----- the table of IDs under each kind of change -----

  lemma StrayRegister(ids: map<Cid, Handle>, conns: Conns, ch: Handle, fresh_: Cid, cid: Cid)
    requires ch !in conns && Acceptable(ids, fresh_)
    ensures Stray(if fresh_ == [] then ids else ids[fresh_ := ch], conns, cid)
       <==> Stray(ids, conns, cid) || cid == fresh_ != []
  {
  }

  lemma StrayIssue(ids: map<Cid, Handle>, conns: Conns, ch: Handle, fresh_: Cid, cid: Cid)
    requires IdsAllFiled(ids, conns) && ch in conns && Acceptable(ids, fresh_)
    ensures var m := conns[ch];
            Stray(if fresh_ == [] then ids else ids[fresh_ := ch],
                  conns[ch := m.(cidsIssued := m.cidsIssued + 1, locCids := m.locCids[m.cidsIssued := fresh_])], cid)
            <==> Stray(ids, conns, cid) && (cid == [] ==> fresh_ != [] || ids[cid] != ch)
  {
    var m := conns[ch];
    var loc := m.locCids[m.cidsIssued := fresh_];
    assert IdsFiled(ids, ch, m.locCids, m.cidsIssued);
    assert loc[m.cidsIssued] == fresh_;
    forall d ensures HasCid(loc, d) <==> HasCid(m.locCids, d) || d == fresh_ {
      if HasCid(m.locCids, d) {
        var n :| n in m.locCids && m.locCids[n] == d;
        assert n in loc && loc[n] == d;
      }
    }
  }

  lemma StrayForget(ids: map<Cid, Handle>, conns: Conns, ch: Handle, n: nat, cid: Cid)
    requires IdsAllFiled(ids, conns) && [] !in ids && ch in conns && n in conns[ch].locCids
    ensures var m := conns[ch];
            Stray(ids - {m.locCids[n]}, conns[ch := m.(locCids := m.locCids - {n})], cid) <==> Stray(ids, conns, cid)
  {
    var m := conns[ch];
    var loc := m.locCids - {n};
    assert IdsFiled(ids, ch, m.locCids, m.cidsIssued);
    assert HasCid(m.locCids, m.locCids[n]);
    forall d | d != m.locCids[n] ensures HasCid(loc, d) <==> HasCid(m.locCids, d) {
      if HasCid(m.locCids, d) {
        var k :| k in m.locCids && m.locCids[k] == d;
        assert k in loc && loc[k] == d;
      }
    }
  }

  lemma StrayDrain(ids: map<Cid, Handle>, conns: Conns, ch: Handle, cid: Cid)
    requires IdsAllFiled(ids, conns) && [] !in ids && ch in conns
    ensures Stray(ids - conns[ch].locCids.Values, conns - {ch}, cid) <==> Stray(ids, conns, cid)
  {
    var m := conns[ch];
    assert IdsFiled(ids, ch, m.locCids, m.cidsIssued);
    if cid in m.locCids.Values {
      var n :| n in m.locCids && m.locCids[n] == cid;
      assert HasCid(m.locCids, cid);
    } else {
      assert !HasCid(m.locCids, cid);
    }
  }

  lemma StrayAdd(ids: map<Cid, Handle>, conns: Conns, ch: Handle, locCid: Cid, pref: Option<Cid>, m: ConnectionMeta,
                 cid: Cid)
    requires [] !in ids && ch !in conns && Acceptable(ids, locCid) && (pref.Some? ==> Acceptable(ids, pref.value))
    requires m == NewMeta(m.initCid, locCid, pref, m.addresses, m.side)
    ensures Stray(WithIds(ids, ch, locCid, pref), conns[ch := m], cid) <==> Stray(ids, conns, cid)
  {
    assert 0 in m.locCids && m.locCids[0] == locCid;
    assert pref.Some? ==> 1 in m.locCids && m.locCids[1] == pref.value;
    assert HasCid(m.locCids, locCid) && (pref.Some? ==> HasCid(m.locCids, pref.value));
    assert forall d | HasCid(m.locCids, d) :: d == locCid || pref == Some(d);
  }

  /** Nothing that ownership depends on has changed. */
  lemma StraySame(s: State, t: State, cid: Cid)
    requires t.index.ids == s.index.ids && t.connections.Keys == s.connections.Keys
    requires forall ch | ch in t.connections :: t.connections[ch].locCids == s.connections[ch].locCids
    ensures StrayId(t, cid) <==> StrayId(s, cid)
  {
  }

  // ----- one step -----

  /** The IDs that an early return leaves behind. */
  function Stranded(c: Config, s: State, e: Event): set<Cid>
    requires Enabled(c, s, e)
  {
    if e.ConnectEvent? && ConnectProceeds(c, s, e.remote, e.versionOk) && !e.setupOk then {e.locCid} - {[]}
    else if e.AcceptEvent? && AcceptProceeds(c, s, AcceptConfig(s, e.config), e.inputs)
            && !(e.inputs.paramsOk && e.inputs.sessionOk) then
      (if AcceptConfig(s, e.config).value.hasPreferredAddress && e.inputs.paramsOk then {e.locCid, e.prefCid}
       else {e.locCid})
      - {[]}
    else {}
  }

  lemma ConnectStrayIff(c: Config, s: State, e: Event, cid: Cid)
    requires Sized(c, s) && e.ConnectEvent? && Enabled(c, s, e)
    ensures StrayId(Step(c, s, e), cid) <==> StrayId(s, cid) || cid in Stranded(c, s, e)
  {
    hide ConnectProceeds, Stray, SizedLocs;
    if ConnectProceeds(c, s, e.remote, e.versionOk) {
      assert [e.locCid][0] == e.locCid;
      var m := NewMeta(e.remoteId, e.locCid, None, FourTuple(e.remote, None), Client);
      StrayRegister(s.index.ids, s.connections, e.ch, e.locCid, cid);
      StrayAdd(s.index.ids, s.connections, e.ch, e.locCid, None, m, cid);
    }
  }

  lemma {:induction false} IssueStrayIff(c: Config, s: State, ch: Handle, cids: seq<Cid>, cid: Cid)
    requires Filed(s) && SizedIds(c, s.index.ids) && ch in s.connections && Drawn(c, s.index.ids, cids)
    ensures StrayId(IssueCids(s, ch, cids), cid) <==> StrayId(s, cid)
  {
    hide Filed, Stray;
    if cids != [] {
      var n := |cids| - 1;
      var t := IssueCids(s, ch, cids[..n]);
      IssueStrayIff(c, s, ch, cids[..n], cid);
      FiledIssueAll(c, s, ch, cids[..n]);
      FiledParts(t);
      StrayIssue(t.index.ids, t.connections, ch, cids[n], cid);
      NoEmptyIssued(c, s, ch, cids[..n]);
      NeverEmpty(t, cid);
    }
  }

  lemma NoEmptyIssued(c: Config, s: State, ch: Handle, cids: seq<Cid>)
    requires SizedIds(c, s.index.ids) && ch in s.connections
    ensures [] !in IssueCids(s, ch, cids).index.ids
  {
    if cids != [] {
      NoEmptyIssued(c, s, ch, cids[..|cids| - 1]);
    }
  }

  lemma NeverEmpty(s: State, cid: Cid)
    requires [] !in s.index.ids
    ensures StrayId(s, cid) ==> cid != []
  {
  }

  lemma RetireStrayIff(c: Config, s: State, ch: Handle, n: nat, more: bool, fresh_: Cid, cid: Cid)
    requires Filed(s) && SizedIds(c, s.index.ids) && ch in s.connections
    requires n in s.connections[ch].locCids && more ==> Acceptable(s.index.ids - {s.connections[ch].locCids[n]}, fresh_)
    ensures StrayId(RetireCid(s, ch, n, more, fresh_), cid) <==> StrayId(s, cid)
  {
    hide Filed, Stray;
    if n in s.connections[ch].locCids {
      FiledParts(s);
      StrayForget(s.index.ids, s.connections, ch, n, cid);
      var t := Forget(s, ch, n);
      FiledForgetOne(s, ch, n);
      FiledParts(t);
      if more {
        StrayIssue(t.index.ids, t.connections, ch, fresh_, cid);
        NeverEmpty(t, cid);
      }
    }
  }

  lemma DrainStrayIff(c: Config, s: State, ch: Handle, cid: Cid)
    requires Filed(s) && SizedIds(c, s.index.ids)
    ensures StrayId(Drain(s, ch), cid) <==> StrayId(s, cid)
  {
    hide Filed, Stray, DropToken;
    FiledParts(s);
    if ch in s.connections {
      StrayDrain(s.index.ids, s.connections, ch, cid);
    }
  }

  lemma SetupStrayIff(c: Config, s: State, e: Event, cid: Cid)
    requires Filed(s) && Sized(c, s) && e.AcceptEvent? && Enabled(c, s, e)
    requires AcceptProceeds(c, s, AcceptConfig(s, e.config), e.inputs)
    ensures StrayId(Step(c, s, e), cid) <==> StrayId(s, cid) || cid in Stranded(c, s, e)
  {
    hide Filed, Stray, CidsExhausted, Establish, Drain, SizedLocs;
    var k := AcceptConfig(s, e.config).value;
    var pref := k.hasPreferredAddress && e.inputs.paramsOk;
    var draws := AcceptDraws(k, e.inputs, e.locCid, e.prefCid);
    assert draws[0] == e.locCid && (pref ==> draws[1] == e.prefCid);
    var ids := if e.locCid == [] then s.index.ids else s.index.ids[e.locCid := e.ch];
    if e.inputs.paramsOk && e.inputs.sessionOk {
      var p := if pref then Some(e.prefCid) else None;
      var inc, r := s.held[e.idx], Register(s.index, e.locCid, e.ch);
      var x := if p.Some? then Register(r, e.prefCid, e.ch) else r;
      var u := Establish(DropBuffer(s, e.idx).(index := x), inc, e.ch, e.locCid, p);
      var m := NewMeta(inc.dstCid, e.locCid, p, inc.addresses, Server);
      EstablishFields(DropBuffer(s, e.idx), x, inc, e.ch, e.locCid, p, m, u);
      StrayAdd(s.index.ids, s.connections, e.ch, e.locCid, p, m, cid);
      FiledEstablish(s, e.idx, x, e.ch, e.locCid, p, u);
      assert SizedIds(c, u.index.ids);
      DrainStrayIff(c, u, e.ch, cid);
    } else {
      StrayRegister(s.index.ids, s.connections, e.ch, e.locCid, cid);
      if pref {
        StrayRegister(ids, s.connections, e.ch, e.prefCid, cid);
      }
    }
  }

  lemma AcceptStrayIff(c: Config, s: State, e: Event, cid: Cid)
    requires Filed(s) && Sized(c, s) && e.AcceptEvent? && Enabled(c, s, e)
    ensures StrayId(Step(c, s, e), cid) <==> StrayId(s, cid) || cid in Stranded(c, s, e)
  {
    if AcceptProceeds(c, s, AcceptConfig(s, e.config), e.inputs) {
      SetupStrayIff(c, s, e, cid);
    } else {
      hide Filed, Sized, StrayId, CidsExhausted, AcceptSetup;
      StraySame(s, Step(c, s, e), cid);
    }
  }

  /** A step leaves IDs behind exactly when it is an early return that drew them, and none ever goes. */
  lemma StepStrayIff(c: Config, s: State, e: Event, cid: Cid)
    requires Filed(s) && Sized(c, s) && Enabled(c, s, e)
    ensures StrayId(Step(c, s, e), cid) <==> StrayId(s, cid) || cid in Stranded(c, s, e)
  {
    hide Filed, Connect, Accept, Receive, Drain, RetireCid, IssueCids, StrayId, SizedIds, SizedLocs, ConnectProceeds,
         AcceptProceeds;
    if e.ConnectEvent? {
      ConnectStrayIff(c, s, e, cid);
    } else if e.AcceptEvent? {
      AcceptStrayIff(c, s, e, cid);
    } else if e.NeedIdentifiersEvent? {
      IssueStrayIff(c, s, e.ch, e.cids, cid);
    } else if e.RetireCidEvent? {
      assert [e.locCid][0] == e.locCid;
      RetireStrayIff(c, s, e.ch, e.sequence, e.more, e.locCid, cid);
    } else if e.DrainedEvent? {
      DrainStrayIff(c, s, e.ch, cid);
    } else if e.DatagramEvent? {
      ReceiveSized(c, s, e.now, e.addresses, e.packet, e.first, e.vacant, e.cidValid);
      StraySame(s, Step(c, s, e), cid);
    } else {
      StraySame(s, Step(c, s, e), cid);
    }
  }

  // ----- runs -----

  function StrandedIn(c: Config, s: State, es: seq<Event>): set<Cid>
    requires IsRun(c, s, es)
    decreases |es|
  {
    if es == [] then {} else Stranded(c, s, es[0]) + StrandedIn(c, Step(c, s, es[0]), es[1..])
  }

  /** Over every run the IDs filed under a handle that does not own them are exactly those drawn by
      early returns. */
  lemma {:induction false} RunStrayIff(c: Config, s: State, es: seq<Event>, cid: Cid)
    requires Filed(s) && Sized(c, s) && IsRun(c, s, es)
    ensures StrayId(After(c, s, es), cid) <==> StrayId(s, cid) || cid in StrandedIn(c, s, es)
    decreases |es|
  {
    hide Filed, Sized, Step, Enabled, StrayId, Stranded;
    if es != [] {
      StepFiled(c, s, es[0]);
      StepSized(c, s, es[0]);
      StepStrayIff(c, s, es[0], cid);
      RunStrayIff(c, Step(c, s, es[0]), es[1..], cid);
    }
  }
}

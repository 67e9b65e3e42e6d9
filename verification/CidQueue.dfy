/**
 The window of connection IDs issued by the peer (src/cid_queue.rs).

 `CidQueue` keeps the IDs in a five-slot ring addressed by `cursor`, with `offset` the
 sequence number of the slot under the cursor.  `Window` is the plain meaning of such a
 ring: a sparse map from sequence number to connection ID.  Every method of the ring is
 proved to do to that map what sections 5.1.2 and 19.15 of RFC 9000 ask for, and the
 retirements a whole run reports are characterised on the map.
 */
module RemoteCids {
  import opened Prelude

  const LEN := 5

  datatype CidData = CidData(id: Cid, token: Option<Token>)

  /** A NEW_CONNECTION_ID frame. */
  datatype NewConnectionId = NewConnectionId(sequence: nat, retirePriorTo: nat, id: Cid, resetToken: Token)

  datatype InsertError = Retired | ExceedsLimit

  /** Sequence numbers `start..end` to retire, and the reset token of the ID now active. */
  datatype Retirement = Retirement(start: nat, end: nat, token: Token)

  type InsertResult = Result<Option<Retirement>, InsertError>

  // ----- the sparse map -----

  datatype Window = Window(active: nat, cids: map<nat, CidData>) {
    /** The active ID is the least stored one, nothing lies beyond the window, and only the
        handshake's own ID (sequence number 0) can lack a reset token. */
    ghost predicate Valid() {
      && active in cids
      && (forall k | k in cids :: active <= k < active + LEN)
      && (forall k | k in cids && k != 0 :: cids[k].token.Some?)
    }
  }

  ghost predicate ActivatesLeast(w: Window) {
    w.active in w.cids && forall k | k in w.cids :: w.active <= k
  }

  /** Drop everything below `retirePriorTo`, add the new ID, make the least key active. */
  ghost predicate Inserted(w: Window, f: NewConnectionId, w': Window) {
    && w'.cids == (map k | k in w.cids && f.retirePriorTo <= k :: w.cids[k])
                  [f.sequence := CidData(f.id, Some(f.resetToken))]
    && ActivatesLeast(w')
  }

  /** What a NEW_CONNECTION_ID frame does to the window and what it reports. */
  ghost predicate InsertSpec(w: Window, f: NewConnectionId, w': Window, r: InsertResult) {
    if f.sequence < w.active then
      w' == w && r == Err(Retired)
    else if Max(w.active, f.retirePriorTo) + LEN <= f.sequence then
      w' == w && r == Err(ExceedsLimit)
    else
      && Inserted(w, f, w')
      && if f.retirePriorTo <= w.active then
        r == Ok(None) && w'.active == w.active
      else
        && w'.cids[w'.active].token.Some?
        && r == Ok(Some(Retirement(w.active, Min(w'.active, w.active + LEN), w'.cids[w'.active].token.value)))
  }

  /** Abandon the active ID for the next one, if there is one. */
  ghost predicate NextSpec(w: Window, w': Window, r: Option<Retirement>) {
    if w.cids.Keys == {w.active} then
      w' == w && r == None
    else
      && w'.cids == w.cids - {w.active}
      && ActivatesLeast(w')
      && w'.cids[w'.active].token.Some?
      && r == Some(Retirement(w.active, w'.active, w'.cids[w'.active].token.value))
  }

  // ----- the ring, read from the cursor on -----

  type Slots = s: seq<Option<CidData>> | |s| == LEN witness seq(LEN, _ => None)

  /** The slots of a ring buffer read from place `cursor` on, all the way round. */
  function Rotate(ring: Slots, cursor: nat): (r: Slots) {
    seq(LEN, j requires 0 <= j < LEN => ring[(cursor + j) % LEN])
  }

  lemma WrapTwice(cursor: nat, n: nat, j: nat)
    ensures ((cursor + n) % LEN + j) % LEN == (cursor + (n + j) % LEN) % LEN
  {
  }

  lemma RotateTwice(ring: Slots, cursor: nat, n: nat)
    ensures Rotate(ring, (cursor + n) % LEN) == Rotate(Rotate(ring, cursor), n)
  {
    forall j | 0 <= j < LEN
      ensures Rotate(ring, (cursor + n) % LEN)[j] == Rotate(Rotate(ring, cursor), n)[j]
    {
      WrapTwice(cursor, n, j);
    }
  }

  lemma RotateUpdate(ring: Slots, cursor: nat, i: nat, v: Option<CidData>)
    ensures Rotate(ring[(cursor + i) % LEN := v], cursor) == Rotate(ring, cursor)[i % LEN := v]
  {
    var t := ring[(cursor + i) % LEN := v];
    forall j | 0 <= j < LEN ensures Rotate(t, cursor)[j] == Rotate(ring, cursor)[i % LEN := v][j] {
      assert (cursor + j) % LEN == (cursor + i) % LEN <==> j == i % LEN;
    }
  }

  /** What a ring whose slots, read from the cursor, are `s` holds for sequence number `k`. */
  ghost function At(offset: nat, s: Slots, k: nat): Option<CidData> {
    if offset <= k < offset + LEN then s[k - offset] else None
  }

  /** The map such a ring stores. */
  ghost function Stored(offset: nat, s: Slots): Window {
    Window(offset, map k: nat | offset <= k < offset + LEN && At(offset, s, k).Some? :: At(offset, s, k).value)
  }

  ghost predicate TokensKnown(offset: nat, s: Slots) {
    forall i | 0 <= i < LEN && offset + i != 0 :: s[i].Some? ==> s[i].value.token.Some?
  }

  /** The slot under the cursor is occupied, and tokens are missing only at number 0. */
  ghost predicate RingValid(offset: nat, s: Slots) {
    s[0].Some? && TokensKnown(offset, s)
  }

  /** The slots after discarding the first `retired` ones and storing at distance `index`,
      read from `retired` places further on. */
  function Slid(s: Slots, retired: nat, index: nat, added: CidData): (r: Slots)
    requires retired <= index < retired + LEN
  {
    seq(LEN, j requires 0 <= j < LEN =>
      if j == index - retired then Some(added) else if retired + j < LEN then s[retired + j] else None)
  }

  /** The slots with the first `count` emptied. */
  function Discarded(s: Slots, count: nat): (r: Slots) {
    seq(LEN, j requires 0 <= j < LEN => if j < count then None else s[j])
  }

  /** Discard, store and turn the ring: the three writes of an insertion amount to `Slid`. */
  lemma SlidIsRotated(s: Slots, retired: nat, index: nat, added: CidData)
    requires retired <= index < retired + LEN
    ensures Rotate(Discarded(s, retired)[index % LEN := Some(added)], retired) == Slid(s, retired, index, added)
  {
    var t := Discarded(s, retired)[index % LEN := Some(added)];
    forall j | 0 <= j < LEN ensures Rotate(t, retired)[j] == Slid(s, retired, index, added)[j] {
      assert (retired + j) % LEN == index % LEN <==> j == index - retired;
    }
  }

  lemma SlidInserts(offset: nat, s: Slots, f: NewConnectionId, retired: nat, index: nat, base: nat, t: Slots)
    requires RingValid(offset, s)
    requires offset <= f.sequence && index == f.sequence - offset
    requires base == Max(offset, f.retirePriorTo) == offset + retired
    requires f.retirePriorTo <= f.sequence < base + LEN
    requires t == Slid(s, retired, index, CidData(f.id, Some(f.resetToken)))
    ensures TokensKnown(base, t)
    ensures Stored(base, t).cids
         == (map k | k in Stored(offset, s).cids && f.retirePriorTo <= k :: Stored(offset, s).cids[k])
            [f.sequence := CidData(f.id, Some(f.resetToken))]
  {
    forall k: nat
      ensures At(base, t, k)
           == if k == f.sequence then Some(CidData(f.id, Some(f.resetToken)))
              else if f.retirePriorTo <= k then At(offset, s, k) else None
    {
    }
  }

  /** Skipping empty slots does not change what is stored. */
  lemma SkipEmpty(base: nat, s: Slots, n: nat, newOffset: nat, t: Slots)
    requires n < LEN && newOffset == base + n
    requires forall i | 0 <= i < n :: s[i].None?
    requires t == Rotate(s, n)
    ensures Stored(newOffset, t).cids == Stored(base, s).cids
    ensures TokensKnown(base, s) ==> TokensKnown(newOffset, t)
  {
    assert forall i | 0 <= i < LEN - n :: t[i] == s[i + n];
    assert forall i | LEN - n <= i < LEN :: t[i] == s[i + n - LEN];
    forall k: nat ensures At(newOffset, t, k) == At(base, s, k) {
    }
  }

  lemma StoredValid(offset: nat, s: Slots)
    requires RingValid(offset, s)
    ensures Stored(offset, s).Valid()
  {
    assert At(offset, s, offset) == s[0];
    forall k: nat | k in Stored(offset, s).cids && k != 0 ensures Stored(offset, s).cids[k].token.Some? {
      assert s[k - offset].Some?;
    }
  }

  /** What an accepted insertion has done once the cursor stands on the first occupied slot. */
  lemma InsertionMeetsSpec(offset: nat, s: Slots, f: NewConnectionId, retired: nat, index: nat, base: nat,
                           t: Slots, n: nat, newOffset: nat, u: Slots)
    requires RingValid(offset, s)
    requires offset <= f.sequence && index == f.sequence - offset
    requires base == Max(offset, f.retirePriorTo) == offset + retired
    requires f.retirePriorTo <= f.sequence < base + LEN
    requires t == Slid(s, retired, index, CidData(f.id, Some(f.resetToken)))
    requires n < LEN && t[n].Some? && forall i | 0 <= i < n :: t[i].None?
    requires u == Rotate(t, n) && newOffset == base + n
    ensures RingValid(newOffset, u)
    ensures Inserted(Stored(offset, s), f, Stored(newOffset, u))
  {
    SlidInserts(offset, s, f, retired, index, base, t);
    SkipEmpty(base, t, n, newOffset, u);
    StoredValid(newOffset, u);
  }

  lemma StoreMeetsSpec(offset: nat, s: Slots, f: NewConnectionId, index: nat, t: Slots)
    requires RingValid(offset, s)
    requires f.retirePriorTo <= offset && f.sequence == offset + index && index < LEN
    requires t == Slid(s, 0, index, CidData(f.id, Some(f.resetToken)))
    ensures RingValid(offset, t)
    ensures Inserted(Stored(offset, s), f, Stored(offset, t))
  {
    SlidInserts(offset, s, f, 0, index, offset, t);
    assert t[0].Some?;
    StoredValid(offset, t);
  }

  /** The slots from distance `lo` up to `hi` are empty. */
  ghost predicate EmptyBetween(s: Slots, lo: nat, hi: nat) {
    forall i | 0 <= i < LEN && lo <= i < hi :: s[i].None?
  }

  lemma OnlyActive(offset: nat, s: Slots)
    requires RingValid(offset, s) && EmptyBetween(s, 1, LEN)
    ensures Stored(offset, s).cids.Keys == {offset}
  {
    forall k: nat ensures At(offset, s, k).Some? <==> k == offset {
    }
  }

  lemma NextMeetsSpec(offset: nat, s: Slots, n: nat, t: Slots, newOffset: nat, u: Slots)
    requires RingValid(offset, s)
    requires 1 <= n < LEN && newOffset == offset + n
    requires t == s[0 := None] && t[n].Some? && EmptyBetween(t, 1, n) && u == Rotate(t, n)
    ensures RingValid(newOffset, u)
    ensures Stored(offset, s).cids.Keys != {offset}
    ensures Stored(newOffset, u).cids == Stored(offset, s).cids - {offset}
    ensures ActivatesLeast(Stored(newOffset, u))
  {
    forall k: nat ensures At(offset, t, k) == if k == offset then None else At(offset, s, k) {
    }
    SkipEmpty(offset, t, n, newOffset, u);
    StoredValid(newOffset, u);
    assert At(offset, s, newOffset) == s[n];
    assert newOffset in Stored(offset, s).cids;
  }

  // ----- the ring -----

  class CidQueue {
    const buffer: array<Option<CidData>>
    var cursor: nat
    var offset: nat

    /** The slots read from the cursor on, all the way round. */
    ghost function View(): Slots
      reads this, buffer
      requires buffer.Length == LEN && cursor < LEN
    {
      Rotate(buffer[..], cursor)
    }

    ghost function Contents(): Window
      reads this, buffer
      requires buffer.Length == LEN && cursor < LEN
    {
      Stored(offset, View())
    }

    ghost predicate Valid()
      reads this, buffer
    {
      && buffer.Length == LEN
      && cursor < LEN
      && RingValid(offset, View())
    }

    constructor (cid: Cid)
      ensures Valid() && fresh(buffer)
      ensures Contents() == Window(0, map[0 := CidData(cid, None)])
    {
      buffer := new Option<CidData>[LEN](_ => None);
      cursor := 0;
      offset := 0;
      new;
      buffer[0] := Some(CidData(cid, None));
      assert View() == [Some(CidData(cid, None)), None, None, None, None];
      forall k: nat ensures At(0, View(), k) == if k == 0 then Some(CidData(cid, None)) else None {
      }
    }

    /** Distance from the cursor of the first occupied slot at or after distance `step`. */
    method FirstOccupied(step: nat) returns (r: Option<nat>)
      requires buffer.Length == LEN && cursor < LEN && step <= LEN
      ensures r.None? ==> EmptyBetween(View(), step, LEN)
      ensures r.Some? ==> step <= r.value < LEN && View()[r.value].Some? && EmptyBetween(View(), step, r.value)
    {
      var i := step;
      while i < LEN
        invariant step <= i <= LEN && EmptyBetween(View(), step, i)
      {
        assert View()[i] == buffer[(cursor + i) % LEN];
        if buffer[(cursor + i) % LEN].Some? {
          return Some(i);
        }
        i := i + 1;
      }
      return None;
    }

    /** Writes the slot `i` places after the cursor. */
    method Write(i: nat, v: Option<CidData>)
      requires buffer.Length == LEN && cursor < LEN
      modifies buffer
      ensures View() == old(View())[i % LEN := v]
    {
      RotateUpdate(buffer[..], cursor, i, v);
      buffer[(cursor + i) % LEN] := v;
      assert buffer[..] == old(buffer[..])[(cursor + i) % LEN := v];
    }

    /** Empties the first `count` slots (all of them, if there are not that many). */
    method Discard(count: nat)
      requires buffer.Length == LEN && cursor < LEN
      modifies buffer
      ensures View() == Discarded(old(View()), count)
    {
      var limit := if count < LEN then count else LEN;
      var i := 0;
      while i < limit
        invariant 0 <= i <= limit
        invariant View() == Discarded(old(View()), i)
      {
        Write(i, None);
        i := i + 1;
      }
    }

    /** Moves the cursor `n` places on. */
    method Advance(n: nat)
      requires buffer.Length == LEN && cursor < LEN
      modifies this`cursor
      ensures cursor < LEN
      ensures View() == Rotate(old(View()), n)
    {
      RotateTwice(buffer[..], cursor, n);
      cursor := (cursor + n) % LEN;
    }

    /** Moves the cursor to the first occupied slot at or after distance `step`, of which `some` is one;
        `base` is the sequence number of the slot the cursor leaves. */
    method Activate(step: nat, base: nat, ghost some: nat) returns (n: nat)
      requires buffer.Length == LEN && cursor < LEN && step <= some < LEN && View()[some].Some?
      modifies this
      ensures cursor < LEN && offset == base + n
      ensures step <= n < LEN && old(View())[n].Some? && EmptyBetween(old(View()), step, n)
      ensures View() == Rotate(old(View()), n)
    {
      var first := FirstOccupied(step);
      assert View()[some].Some?;
      n := first.value;
      Advance(n);
      offset := base + n;
    }

    /** Discards the `retired` oldest slots, stores `added` at distance `index`, and leaves the
        cursor `retired` places on. */
    method Place(retired: nat, index: nat, added: CidData)
      requires buffer.Length == LEN && cursor < LEN
      requires retired <= index < retired + LEN
      modifies this`cursor, buffer
      ensures cursor < LEN
      ensures View() == Slid(old(View()), retired, index, added)
    {
      SlidIsRotated(View(), retired, index, added);
      Discard(retired);
      Write(index, Some(added));
      Advance(retired);
    }

    /** Stores a new ID when the active one is kept. */
    method StoreOnly(f: NewConnectionId, index: nat)
      requires Valid()
      requires f.retirePriorTo <= offset && f.sequence == offset + index && index < LEN
      modifies this`cursor, buffer
      ensures Valid()
      ensures Inserted(old(Contents()), f, Contents())
    {
      ghost var slots := View();
      Place(0, index, CidData(f.id, Some(f.resetToken)));
      StoreMeetsSpec(offset, slots, f, index, View());
    }

    /** Stores a new ID when the active one is retired: drops the `retired` oldest slots, moves to
        the first known ID at or after `retirePriorTo`, and reports the numbers given up. */
    method StoreAndRetire(f: NewConnectionId, index: nat, retired: nat) returns (ret: Retirement)
      requires Valid()
      requires f.retirePriorTo == offset + retired > offset
      requires f.sequence == offset + index && retired <= index < retired + LEN
      modifies this, buffer
      ensures Valid()
      ensures Inserted(old(Contents()), f, Contents())
      ensures Contents().cids[offset].token.Some?
      ensures ret == Retirement(old(offset), Min(offset, old(offset) + LEN), Contents().cids[offset].token.value)
    {
      hide Rotate, EmptyBetween;
      ghost var slots := View();
      var origOffset := offset;
      Place(retired, index, CidData(f.id, Some(f.resetToken)));
      ghost var slid := View();
      assert slid[index - retired].Some?;
      var n := Activate(0, f.retirePriorTo, index - retired);
      ghost var final := View();
      InsertionMeetsSpec(origOffset, slots, f, retired, index, f.retirePriorTo, slid, n, offset, final);
      var token := ActiveToken();
      ret := Retirement(origOffset, Min(offset, origOffset + LEN), token);
    }

    /** Handles a NEW_CONNECTION_ID frame. */
    method Insert(f: NewConnectionId) returns (r: InsertResult)
      requires Valid()
      requires f.retirePriorTo <= f.sequence
      modifies this, buffer
      ensures Valid()
      ensures InsertSpec(old(Contents()), f, Contents(), r)
    {
      if f.sequence < offset {
        return Err(Retired);
      }
      var index := f.sequence - offset;
      var retiredCount := if f.retirePriorTo < offset then 0 else f.retirePriorTo - offset;
      if index >= LEN + retiredCount {
        return Err(ExceedsLimit);
      }
      if retiredCount == 0 {
        StoreOnly(f, index);
        return Ok(None);
      }
      var ret := StoreAndRetire(f, index, retiredCount);
      return Ok(Some(ret));
    }

    /** Switches to the next known ID, if there is one. */
    method Next() returns (r: Option<Retirement>)
      requires Valid()
      modifies this, buffer
      ensures Valid()
      ensures NextSpec(old(Contents()), Contents(), r)
    {
      hide Rotate, EmptyBetween;
      var second := FirstOccupied(1);
      if second.None? {
        OnlyActive(offset, View());
        return None;
      }
      ghost var slots, emptied := View(), View()[0 := None];
      Write(0, None);
      assert View() == emptied;
      var origOffset := offset;
      var n := Activate(1, offset, second.value);
      NextMeetsSpec(origOffset, slots, n, emptied, offset, View());
      var token := ActiveToken();
      r := Some(Retirement(origOffset, offset, token));
    }

    /** Replaces the ID of the handshake. */
    method UpdateInitialCid(cid: Cid)
      requires Valid() && offset == 0
      modifies buffer
      ensures Valid()
      ensures Contents() == Window(0, old(Contents()).cids[0 := CidData(cid, None)])
    {
      ghost var slots := View();
      Write(0, Some(CidData(cid, None)));
      forall k: nat ensures At(0, View(), k) == if k == 0 then Some(CidData(cid, None)) else At(0, slots, k) {
      }
    }

    method Active() returns (cid: Cid)
      requires Valid()
      ensures Contents().active in Contents().cids && cid == Contents().cids[Contents().active].id
    {
      assert View()[0] == buffer[cursor] == At(offset, View(), offset);
      cid := buffer[cursor].value.id;
    }

    /** The reset token of the active ID, when that is not the handshake's own. */
    method ActiveToken() returns (t: Token)
      requires Valid() && offset > 0
      ensures offset in Contents().cids && Contents().cids[offset].token == Some(t)
    {
      assert View()[0] == buffer[cursor] == At(offset, View(), offset);
      t := buffer[cursor].value.token.value;
    }
  }

  // ----- whole runs -----

  datatype Op = InsertOp(frame: NewConnectionId) | NextOp | UpdateInitialOp(cid: Cid)

  /** One call, what it reported, and the window it left. */
  datatype Step = Step(op: Op, reported: Option<Retirement>, after: Window)

  ghost predicate IsStep(w: Window, s: Step) {
    match s.op
    case InsertOp(f) =>
      && f.retirePriorTo <= f.sequence
      && exists r: InsertResult ::
        InsertSpec(w, f, s.after, r) && s.reported == (if r.Ok? then r.value else None)
    case NextOp =>
      NextSpec(w, s.after, s.reported)
    case UpdateInitialOp(cid) =>
      w.active == 0 && s.after == Window(0, w.cids[0 := CidData(cid, None)]) && s.reported == None
  }

  ghost predicate IsRun(w: Window, steps: seq<Step>)
    decreases |steps|
  {
    steps == [] || (IsStep(w, steps[0]) && IsRun(steps[0].after, steps[1..]))
  }

  ghost function Last(w: Window, steps: seq<Step>): Window
    decreases |steps|
  {
    if steps == [] then w else Last(steps[0].after, steps[1..])
  }

  ghost function Reports(steps: seq<Step>): seq<Retirement> {
    if steps == [] then [] else
    (if steps[0].reported.Some? then [steps[0].reported.value] else []) + Reports(steps[1..])
  }

  /** Every sequence number held at some point of the run. */
  ghost function EverStored(w: Window, steps: seq<Step>): set<nat>
    decreases |steps|
  {
    w.cids.Keys + if steps == [] then {} else EverStored(steps[0].after, steps[1..])
  }

  ghost predicate Covers(r: Retirement, k: nat) {
    r.start <= k < r.end
  }

  /** Each call keeps the window well formed, and reports exactly when it gives up the active ID:
      the range starts there, spans one to five numbers and carries the new active ID's token. */
  lemma StepReports(w: Window, s: Step)
    requires w.Valid() && IsStep(w, s)
    ensures s.after.Valid()
    ensures w.active <= s.after.active
    ensures s.reported.Some? <==> s.after.active != w.active
    ensures s.reported.Some? ==>
              && s.reported.value.start == w.active
              && s.reported.value.start < s.reported.value.end <= s.reported.value.start + LEN
              && s.reported.value.end <= s.after.active
              && s.after.cids[s.after.active].token == Some(s.reported.value.token)
  {
    if s.op.NextOp? {
      if w.cids.Keys != {w.active} {
        assert s.after.active in w.cids;
      }
    } else if s.op.InsertOp? {
      var f := s.op.frame;
      if f.sequence >= w.active && f.sequence < Max(w.active, f.retirePriorTo) + LEN && f.retirePriorTo <= w.active {
        assert w.active in s.after.cids;
      }
    }
  }

  /** What a call removes from the window is exactly what its report covers. */
  lemma StepLeaves(w: Window, s: Step, k: nat)
    requires w.Valid() && IsStep(w, s) && k in w.cids
    ensures k < s.after.active <==> k !in s.after.cids
    ensures k < s.after.active <==> s.reported.Some? && Covers(s.reported.value, k)
  {
    StepReports(w, s);
  }

  /** Ranges of one to five numbers each, disjoint and increasing, all between `lo` and `hi`. */
  ghost predicate Increasing(rs: seq<Retirement>, lo: nat, hi: nat) {
    && (forall i | 0 <= i < |rs| :: lo <= rs[i].start < rs[i].end <= rs[i].start + LEN && rs[i].end <= hi)
    && (forall i, j | 0 <= i < j < |rs| :: rs[i].end <= rs[j].start)
  }

  ghost predicate InSome(rs: seq<Retirement>, k: nat) {
    exists i :: 0 <= i < |rs| && Covers(rs[i], k)
  }

  lemma InSomePrepend(r: Retirement, rest: seq<Retirement>, k: nat)
    ensures InSome([r] + rest, k) <==> Covers(r, k) || InSome(rest, k)
  {
    var rs := [r] + rest;
    if Covers(r, k) {
      assert Covers(rs[0], k);
    } else if InSome(rest, k) {
      var i :| 0 <= i < |rest| && Covers(rest[i], k);
      assert Covers(rs[i + 1], k);
    }
  }

  lemma InSomeOnce(rs: seq<Retirement>, lo: nat, hi: nat, k: nat)
    requires Increasing(rs, lo, hi) && InSome(rs, k)
    ensures exists i :: 0 <= i < |rs| && Covers(rs[i], k)
                     && forall j | 0 <= j < |rs| && Covers(rs[j], k) :: j == i
  {
    var i :| 0 <= i < |rs| && Covers(rs[i], k);
    assert forall j | 0 <= j < |rs| && Covers(rs[j], k) :: j == i;
  }

  /** The reports of a run are disjoint and increasing, and lie between its first and last
      active IDs. */
  lemma {:induction false} ReportsIncrease(w: Window, steps: seq<Step>)
    requires w.Valid() && IsRun(w, steps)
    ensures Last(w, steps).Valid() && w.active <= Last(w, steps).active
    ensures Increasing(Reports(steps), w.active, Last(w, steps).active)
    decreases |steps|
  {
    if steps != [] {
      StepReports(w, steps[0]);
      ReportsIncrease(steps[0].after, steps[1..]);
    }
  }

  /** A number the run ever held is still held at the end or was reported, and never both. */
  lemma {:induction false} LeftIffReported(w: Window, steps: seq<Step>, k: nat)
    requires w.Valid() && IsRun(w, steps) && k in EverStored(w, steps)
    ensures k in Last(w, steps).cids <==> Last(w, steps).active <= k
    ensures k !in Last(w, steps).cids <==> InSome(Reports(steps), k)
    decreases |steps|
  {
    if steps != [] {
      var s := steps[0];
      StepReports(w, s);
      if s.reported.Some? {
        InSomePrepend(s.reported.value, Reports(steps[1..]), k);
      } else {
        assert Reports(steps) == Reports(steps[1..]);
      }
      ReportsIncrease(s.after, steps[1..]);
      if k in w.cids {
        StepLeaves(w, s, k);
      }
      if k in EverStored(s.after, steps[1..]) {
        LeftIffReported(s.after, steps[1..], k);
      }
    }
  }

  /** Over every run, each number that left the window is in exactly one reported range. */
  lemma RetiredExactlyOnce(w: Window, steps: seq<Step>, k: nat)
    requires w.Valid() && IsRun(w, steps) && k in EverStored(w, steps) && k !in Last(w, steps).cids
    ensures exists i :: 0 <= i < |Reports(steps)| && Covers(Reports(steps)[i], k)
                     && forall j | 0 <= j < |Reports(steps)| && Covers(Reports(steps)[j], k) :: j == i
  {
    LeftIffReported(w, steps, k);
    ReportsIncrease(w, steps);
    InSomeOnce(Reports(steps), w.active, Last(w, steps).active, k);
  }
}

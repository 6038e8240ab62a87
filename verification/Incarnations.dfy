/** A hard delete and a new row under the same key: the one way in which a write reaches a row its client never read. */
module Incarnations {
  import opened Outcomes
  import opened RepositoryRows
  import opened RepositorySelector
  import opened RepositoryUnique
  import opened RepositoryWrites
  import opened OptimisticLock
  import opened LostUpdates

  // ----- no call sets the key

  predicate KeyUnstamped(m: Meta, k: Col) {
    m.key == Some(k) && Some(k) !in {m.deletedAt, m.deletedBy, m.updatedAt, m.updatedBy}
  }

  lemma StampsSpareKey(m: Meta, call: Call, k: Col)
    requires KeyUnstamped(m, k)
    ensures k !in Stamps(m, call)
  {
  }

  /** A payload that carries the key is matched by it, and no payload sets it. */
  lemma PlanKey(m: Meta, call: Call, p: Payload, k: Col)
    requires KeyUnstamped(m, k) && Plan(m, call, p).Ok?
    ensures var w := Plan(m, call, p).value;
      w.change.Assign? && k !in w.change.sets && (k in p.fields ==> k in w.conds && w.conds[k] == p.fields[k])
  {
    StampsSpareKey(m, call, k);
    PlanConds(m, call, p);
    CondsKeys(m, p.fields, call.matchBy);
    CondsAre(m, p.fields, call.matchBy);
    assert k in p.fields ==> k in AutoIdentity(m) * p.fields.Keys;
    hide Plan, MatchConds, Stamps, SelectorProps, AutoIdentity;
  }

  lemma RemovalKey(m: Meta, matchBy: seq<Col>, p: Payload, k: Col)
    requires m.key == Some(k) && Removal(m, matchBy, p).Ok? && k in p.fields
    ensures var w := Removal(m, matchBy, p).value; k in w.conds && w.conds[k] == p.fields[k]
  {
    CondsKeys(m, p.fields, matchBy);
    CondsAre(m, p.fields, matchBy);
    assert k in AutoIdentity(m) * p.fields.Keys;
    hide MatchConds, SelectorProps, AutoIdentity;
  }

  lemma BatchKeys(m: Meta, items: seq<Payload>, matchBy: seq<Col>, k: Col, i: nat)
    requires m.key == Some(k) && i < |items| && BulkColumns(m, items, matchBy).Ok? && k in items[i].fields
    ensures k in BulkColumns(m, items, matchBy).value
  {
    assert k in AutoIdentity(m) && InSome(items, k);
    hide SelectorProps, AutoIdentity, InAll;
  }

  lemma BatchKey(m: Meta, call: Call, items: seq<Payload>, i: nat, k: Col)
    requires KeyUnstamped(m, k) && i < |items| && BatchPlan(m, call, items).Ok?
    ensures |BatchPlan(m, call, items).value| == |items|
    ensures var w := BatchPlan(m, call, items).value[i];
      w.change.Assign? && k !in w.change.sets
      && (k in items[i].fields ==> k in w.conds && w.conds[k] == items[i].fields[k])
  {
    StampsSpareKey(m, call, k);
    if k in items[0].fields { BatchKeys(m, items, call.matchBy, k, 0); }
    if k in items[i].fields { BatchKeys(m, items, call.matchBy, k, i); }
    hide BulkColumns, Stamps, BatchSetError;
  }

  // ----- keys over a run

  predicate HasKey(row: Row, k: Col, v: Value) {
    k in row.cols && row.cols[k] == v && v != Null
  }

  predicate KeyFixed(states: seq<State>, k: Col) {
    states != [] && k in states[0].row.cols && forall i :: 0 <= i < |states| ==> HasKey(states[i].row, k, states[0].row.cols[k])
  }

  predicate KeysApart(t: Table, k: Col) {
    forall r, q :: r in t && q in t && r != q ==> !SameKey(t[r], t[q], k)
  }

  predicate SameKey(a: Row, b: Row, k: Col) {
    k in a.cols && k in b.cols && a.cols[k] == b.cols[k]
  }

  /** Of the rows there were when this state was read, none but the row itself has its key. */
  predicate SeenAlone(t: Table, s: Seen, k: Col) {
    forall r :: r in t && r < s.next && r != s.row ==> !SameKey(t[r], s.state, k)
  }

  ghost predicate KeyInv(w: World, k: Col) {
    (forall r :: r in w.past ==> KeyFixed(w.past[r], k))
    && KeysApart(w.table, k)
    && forall c :: c in w.seen ==> w.seen[c].next <= w.next && SeenAlone(w.table, w.seen[c], k)
  }

  /** Some rows may be gone; the others keep their keys. */
  predicate KeysStay(t: Table, u: Table, k: Col) {
    u.Keys <= t.Keys && forall r :: r in u ==> KeyStays(t[r], u[r], k)
  }

  predicate KeyStays(a: Row, b: Row, k: Col) {
    (k in a.cols <==> k in b.cols) && (k in a.cols ==> a.cols[k] == b.cols[k])
  }

  lemma WriteKeepsKeys(m: Meta, w: World, s: Step, k: Col)
    requires KeyUnstamped(m, k) && Enabled(m, w, s) && (s.Save? || s.SaveMany?) && Outcome(m, w, s).Ok?
    ensures KeysStay(w.table, Outcome(m, w, s).value, k)
  {
    assert Readers(w, s);
    hide Enabled, KeysStay, Outcome, KeyUnstamped;
    if s.Save? { SaveKeepsKeys(m, w, s, k); } else { SaveManyKeepsKeys(m, w, s, k); }
  }

  lemma SaveKeepsKeys(m: Meta, w: World, s: Step, k: Col)
    requires KeyUnstamped(m, k) && s.Save? && Readers(w, s) && Outcome(m, w, s).Ok?
    ensures KeysStay(w.table, Outcome(m, w, s).value, k)
  {
    SingleEffect(w.table, m, s.call, One(w, s), s.reported);
    PlanKey(m, s.call, One(w, s), k);
    hide Single, Plan, Hits;
  }

  lemma SaveManyKeepsKeys(m: Meta, w: World, s: Step, k: Col)
    requires KeyUnstamped(m, k) && s.SaveMany? && Readers(w, s) && Outcome(m, w, s).Ok?
    ensures KeysStay(w.table, Outcome(m, w, s).value, k)
  {
    var items := Sent(m, w, s).value;
    hide BatchPlan, PickedUpTo, KeysStay, KeyUnstamped;
    if items != [] { BatchKey(m, s.call, Many(w, s), 0, k); }
    forall i | 0 <= i < |items| ensures items[i].change.Assign? && k !in items[i].change.sets {
      BatchKey(m, s.call, Many(w, s), i, k);
    }
    PickedKeepsKeys(w.table, items, s.pick, k);
  }

  lemma PickedKeepsKeys(t: Table, items: seq<Write>, pick: map<RowId, nat>, k: Col)
    requires forall i :: 0 <= i < |items| ==> items[i].change.Assign? && k !in items[i].change.sets
    ensures KeysStay(t, PickedUpTo(t, items, pick, |items|), k)
  {
  }

  lemma StayKeeps(w: World, t: Table, rs: set<RowId>, bump: bool, k: Col)
    requires Inv(w) && KeyInv(w, k) && KeysStay(w.table, t, k)
    ensures KeyInv(Saved(w, t, rs, bump), k)
  {
    var v := Saved(w, t, rs, bump);
    assert forall r :: r in t ==> KeyStays(w.table[r], t[r], k);
    forall r | r in v.past ensures KeyFixed(v.past[r], k) {
      assert RowOk(w, r) && KeyFixed(w.past[r], k);
      StayFixed(w.past[r], t, r, bump, k);
    }
    StayApart(w.table, t, k);
    forall c | c in v.seen ensures SeenAlone(t, v.seen[c], k) { StayAlone(w.table, t, w.seen[c], k); }
  }

  lemma StayFixed(states: seq<State>, t: Table, r: RowId, bump: bool, k: Col)
    requires KeyFixed(states, k) && (r in t ==> KeyStays(states[|states| - 1].row, t[r], k))
    ensures r in t ==> KeyFixed(states + [State(t[r], bump)], k)
  {
    assert HasKey(states[|states| - 1].row, k, states[0].row.cols[k]);
  }

  lemma StayApart(t: Table, u: Table, k: Col)
    requires KeysStay(t, u, k) && KeysApart(t, k)
    ensures KeysApart(u, k)
  {
    forall r, q | r in u && q in u && r != q ensures !SameKey(u[r], u[q], k) {
      assert KeyStays(t[r], u[r], k) && KeyStays(t[q], u[q], k) && !SameKey(t[r], t[q], k);
    }
  }

  lemma StayAlone(t: Table, u: Table, s: Seen, k: Col)
    requires KeysStay(t, u, k) && SeenAlone(t, s, k)
    ensures SeenAlone(u, s, k)
  {
    forall r | r in u && r < s.next && r != s.row ensures !SameKey(u[r], s.state, k) {
      assert KeyStays(t[r], u[r], k) && !SameKey(t[r], s.state, k);
    }
  }

  lemma DropKeepsKeys(w: World, rs: set<RowId>, k: Col)
    requires KeyInv(w, k)
    ensures KeyInv(w.(table := w.table - rs), k)
  {
    var t := w.table - rs;
    assert KeysStay(w.table, t, k);
    StayApart(w.table, t, k);
    forall c | c in w.seen ensures SeenAlone(t, w.seen[c], k) { StayAlone(w.table, t, w.seen[c], k); }
  }

  lemma AddKeepsKeys(m: Meta, w: World, s: Step, k: Col)
    requires m.key == Some(k) && Inv(w) && KeyInv(w, k) && s.Add? && Enabled(m, w, s)
    ensures KeyInv(Do(m, w, s), k)
  {
    var v, row := Do(m, w, s), Row(1, s.fields);
    assert KeyFixed([State(row, true)], k);
    assert forall r :: r in w.table ==> RowOk(w, r) && !SameKey(w.table[r], row, k);
    hide KeyFree, RowOk, SameKey, KeyFixed;
    SameKeySym(v.table, k);
    assert KeysApart(v.table, k);
    forall c | c in v.seen ensures SeenAlone(v.table, v.seen[c], k) { assert SeenAlone(w.table, w.seen[c], k); }
  }

  lemma SameKeySym(t: Table, k: Col)
    ensures forall r, q :: r in t && q in t ==> (SameKey(t[r], t[q], k) <==> SameKey(t[q], t[r], k))
  {
  }

  lemma ReadKeepsKeys(m: Meta, w: World, s: Step, k: Col)
    requires KeyInv(w, k) && s.Read? && Enabled(m, w, s)
    ensures KeyInv(Do(m, w, s), k)
  {
    var v := Do(m, w, s);
    hide SameKey, KeyFixed;
    SameKeySym(w.table, k);
    forall c | c in v.seen ensures SeenAlone(v.table, v.seen[c], k) { assert c != s.client ==> SeenAlone(w.table, w.seen[c], k); }
  }

  lemma StepKeepsKeys(m: Meta, w: World, s: Step, k: Col)
    requires KeyUnstamped(m, k) && Inv(w) && KeyInv(w, k) && Enabled(m, w, s)
    ensures KeyInv(Do(m, w, s), k)
  {
    hide Inv, KeyInv, Outcome, Written, Saved;
    if s.Add? { AddKeepsKeys(m, w, s, k); }
    else if s.Read? { ReadKeepsKeys(m, w, s, k); }
    else if Outcome(m, w, s).Ok? {
      if s.Drop? {
        DropShrinks(m, w, s);
        DropKeepsKeys(w, Written(m, w, s), k);
      } else {
        WriteKeepsKeys(m, w, s, k);
        StayKeeps(w, Outcome(m, w, s).value, Written(m, w, s), Bumps(m, s.call), k);
      }
    }
  }

  lemma {:induction false} RunKeepsKeys(m: Meta, run: seq<Step>, k: Col)
    requires KeyUnstamped(m, k) && After(m, run).Some?
    ensures KeyInv(After(m, run).value, k)
  {
    if run != [] {
      RunKeepsKeys(m, run[..|run| - 1], k);
      RunKeeps(m, run[..|run| - 1]);
      hide Inv, KeyInv, Do, Enabled, KeyUnstamped;
      StepKeepsKeys(m, After(m, run[..|run| - 1]).value, run[|run| - 1], k);
    }
  }

  // ----- rows leave by hard delete alone

  predicate Drops(run: seq<Step>) {
    exists i :: 0 <= i < |run| && run[i].Drop?
  }

  ghost predicate NoneGone(w: World) {
    w.past.Keys <= w.table.Keys
  }

  lemma StepGone(m: Meta, w: World, s: Step)
    requires Inv(w) && NoneGone(w) && Enabled(m, w, s) && !s.Drop?
    ensures NoneGone(Do(m, w, s))
  {
    if (s.Save? || s.SaveMany?) && Outcome(m, w, s).Ok? {
      if s.Save? { SaveGrows(m, w, s); } else { SaveManyGrows(m, w, s); }
      hide Outcome, Written;
    }
  }

  lemma {:induction false} GoneNeedsDrop(m: Meta, run: seq<Step>)
    requires After(m, run).Some? && !Drops(run)
    ensures NoneGone(After(m, run).value)
  {
    if run != [] {
      var before := run[..|run| - 1];
      assert !Drops(before) && !run[|run| - 1].Drop?;
      GoneNeedsDrop(m, before);
      RunKeeps(m, before);
      hide Inv, NoneGone, Do, Enabled, Drops;
      StepGone(m, After(m, before).value, run[|run| - 1]);
    }
  }

  // ----- another incarnation

  /** The payload with which row `r` was written. */
  function SentFor(s: Step, r: RowId): Fields {
    match s
    case Save(_, _, fields, _) => fields
    case Drop(_, _, fields) => fields
    case SaveMany(_, _, batch, pick, _, _) => if r in pick && pick[r] < |batch| then batch[pick[r]] else map[]
    case _ => map[]
  }

  lemma WrittenHasKey(m: Meta, w: World, s: Step, k: Col, r: RowId)
    requires KeyUnstamped(m, k) && Enabled(m, w, s) && r in Written(m, w, s) && k in SentFor(s, r)
    ensures r in w.table && HasKey(w.table[r], k, SentFor(s, r)[k])
  {
    if s.Save? { SavedHasKey(m, w, s, k, r); }
    else if s.Drop? { DroppedHasKey(m, w, s, k, r); }
    else { BatchHasKey(m, w, s, k, r); }
  }

  lemma SavedHasKey(m: Meta, w: World, s: Step, k: Col, r: RowId)
    requires KeyUnstamped(m, k) && s.Save? && Readers(w, s) && r in Written(m, w, s) && k in s.fields
    ensures r in w.table && HasKey(w.table[r], k, s.fields[k])
  {
    SingleEffect(w.table, m, s.call, One(w, s), s.reported);
    PlanKey(m, s.call, One(w, s), k);
    hide Single, Plan;
  }

  lemma DroppedHasKey(m: Meta, w: World, s: Step, k: Col, r: RowId)
    requires KeyUnstamped(m, k) && s.Drop? && Readers(w, s) && r in Written(m, w, s) && k in s.fields
    ensures r in w.table && HasKey(w.table[r], k, s.fields[k])
  {
    RemovalKey(m, s.matchBy, One(w, s), k);
    hide Removal, SingleWrite;
  }

  lemma BatchHasKey(m: Meta, w: World, s: Step, k: Col, r: RowId)
    requires KeyUnstamped(m, k) && s.SaveMany? && Enabled(m, w, s) && r in Written(m, w, s) && k in SentFor(s, r)
    ensures r in w.table && HasKey(w.table[r], k, SentFor(s, r)[k])
  {
    var items := Sent(m, w, s).value;
    assert Picks(w.table, items, s.pick);
    hide BatchPlan, Bulk, KeyUnstamped;
    assert ItemHits(w.table, items, s.pick[r], r);
    BatchKey(m, s.call, Many(w, s), s.pick[r], k);
  }

  /** Over every run: a client that names the row it read by its key writes another incarnation only if the one it read
      was hard-deleted and a new row was added under the same key, all after the read. */
  lemma OnlyRebornRowsAreReached(m: Meta, k: Col, run: seq<Step>, s: Step, c: Client, r: RowId)
    requires KeyUnstamped(m, k) && After(m, run).Some? && Enabled(m, After(m, run).value, s)
    requires var w := After(m, run).value;
      c in w.seen && WritesFor(m, w, s, c, r) && r != w.seen[c].row && k in SentFor(s, r)
      && HasKey(w.seen[c].state, k, SentFor(s, r)[k])
    ensures var w := After(m, run).value;
      w.seen[c].row !in w.table && Drops(run) && r in w.table && w.seen[c].next <= r && SameKey(w.table[r], w.seen[c].state, k)
  {
    var w := After(m, run).value;
    var seen := w.seen[c];
    RunKeeps(m, run);
    RunKeepsKeys(m, run, k);
    WrittenHasKey(m, w, s, k, r);
    assert SeenOk(w, seen) && SeenAlone(w.table, seen, k) && KeyFixed(w.past[seen.row], k);
    assert seen.row in w.table ==> RowOk(w, seen.row);
    if !Drops(run) { GoneNeedsDrop(m, run); }
  }

  // ----- an example

  function Reborn(k: Col, x: Col): World {
    var w := BothRead(k, x);
    var e := Entry(k, x, 7);
    w.(table := map[1 := e], next := 2, past := w.past[1 := [State(e, true)]])
  }

  lemma DropReaches(m: Meta, k: Col, x: Col)
    requires Ordinary(m, k, x)
    ensures var w, s := BothRead(k, x), Attempt(k, x, Hard);
      Enabled(m, w, s) && Do(m, w, s) == w.(table := map[])
  {
    var w, s := BothRead(k, x), Attempt(k, x, Hard);
    OnlyRow(w.table, k, 0);
    DropHits(m, k, x, w);
    KeyConds(m, k, s.fields);
    assert Outcome(m, w, s).Ok? by { hide MatchConds, Hits, Matched; }
    DropShrinks(m, w, s);
    hide Outcome, Written, Attempt, Enabled, Ordinary;
    assert w.table - {0} == map[];
  }

  lemma AgainReaches(m: Meta, k: Col, x: Col)
    requires m.key == Some(k) && k != x
    ensures var w, s := BothRead(k, x).(table := map[]), Add(Entry(k, x, 7).cols);
      Enabled(m, w, s) && Do(m, w, s) == Reborn(k, x)
  {
  }

  /** It does happen: the new row restarts at version 1, so the old version fits, and the new row is overwritten. */
  lemma ReincarnationIsOverwritten(m: Meta, k: Col, x: Col) returns (run: seq<Step>, save: Step)
    requires Ordinary(m, k, x)
    ensures After(m, run) == Some(Reborn(k, x)) && save.Save? && Enabled(m, Reborn(k, x), save)
    ensures WritesFor(m, Reborn(k, x), save, 1, 1) && Reborn(k, x).seen[1].row == 0
    ensures Reborn(k, x).table[1] != Reborn(k, x).seen[1].state
  {
    var drop, again := Attempt(k, x, Hard), Add(Entry(k, x, 7).cols);
    save := Save(1, ByKey(Soft(Update, true)), KeyAnd(k, x, 2), 0);
    run := Opening(k, x) + [drop] + [again];
    OpeningReaches(m, k, x);
    DropReaches(m, k, x);
    AgainReaches(m, k, x);
    UpdateHits(m, k, x, 2, true, Reborn(k, x), 1, 1);
    assert Entry(k, x, 7).cols[x] != Entry(k, x, 0).cols[x];
    hide After, Do, Enabled, Written, Opening, Attempt, Ordinary, Entry, ByKey;
    OneMore(m, Opening(k, x), drop);
    OneMore(m, Opening(k, x) + [drop], again);
  }
}

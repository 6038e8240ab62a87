/** When an update can be lost, and when a write can reach a row its client never read. */
module LostUpdates {
  import opened Outcomes
  import opened RepositoryRows
  import opened RepositorySelector
  import opened RepositoryUnique
  import opened RepositoryWrites
  import opened OptimisticLock

  /** What kind of call a step makes, and whether it names an actor. */
  datatype Mode = Hard | Soft(kind: Kind, actor: bool)

  function ModeOf(call: Call): Mode {
    Soft(call.kind, call.actor.Some?)
  }

  /** Reads and new rows make no such call. */
  predicate Uses(s: Step, mode: Mode) {
    match s
    case Save(_, call, _, _) => mode == ModeOf(call)
    case SaveMany(_, call, _, _, _, _) => mode == ModeOf(call)
    case Drop(_, _, _) => mode == Hard
    case _ => false
  }

  predicate Within(s: Step, modes: set<Mode>) {
    (s.Save? || s.SaveMany? ==> ModeOf(s.call) in modes) && (s.Drop? ==> Hard in modes)
  }

  predicate RunWithin(run: seq<Step>, modes: set<Mode>) {
    forall i :: 0 <= i < |run| ==> Within(run[i], modes)
  }

  /** `update` without an actor. */
  const Unsigned := Soft(Update, false)

  /** A client writes the row it read, in a state other than the one it read. */
  ghost predicate Loses(m: Meta, w: World, s: Step) {
    Enabled(m, w, s) && exists c :: LosesFor(m, w, s, c)
  }

  ghost predicate LosesFor(m: Meta, w: World, s: Step, c: Client) {
    Enabled(m, w, s) && c in w.seen && WritesFor(m, w, s, c, w.seen[c].row)
    && w.seen[c].row in w.table && w.table[w.seen[c].row] != w.seen[c].state
  }

  ghost predicate LosesAfter(m: Meta, run: seq<Step>, s: Step) {
    After(m, run).Some? && Loses(m, After(m, run).value, s)
  }

  // ----- every write counts

  ghost predicate AllBumped(w: World) {
    forall r :: r in w.past ==> RowBumped(w.past[r])
  }

  predicate RowBumped(states: seq<State>) {
    forall i :: 0 < i < |states| ==> states[i].bumped
  }

  lemma BumpedStep(m: Meta, w: World, s: Step)
    requires m.versioned && m.auditable && Enabled(m, w, s) && AllBumped(w)
    requires s.Save? || s.SaveMany? ==> Bumps(m, s.call)
    ensures AllBumped(Do(m, w, s))
  {
    hide Outcome, Written, Bumps;
    var v := Do(m, w, s);
    forall r | r in v.past ensures RowBumped(v.past[r]) {
      assert r in w.past ==> RowBumped(w.past[r]);
    }
  }

  lemma {:induction false} RunBumped(m: Meta, run: seq<Step>, modes: set<Mode>)
    requires m.versioned && m.auditable && Unsigned !in modes && RunWithin(run, modes) && After(m, run).Some?
    ensures AllBumped(After(m, run).value)
  {
    if run != [] {
      var before, s := run[..|run| - 1], run[|run| - 1];
      RunBumped(m, before, modes);
      assert Within(s, modes);
      hide AllBumped, Do, Enabled;
      BumpedStep(m, After(m, before).value, s);
    }
  }

  lemma QuietMeansUntouched(w: World, s: Seen)
    requires AllBumped(w) && SeenOk(w, s) && QuietSince(w, s)
    ensures UntouchedSince(w, s)
  {
    var states := w.past[s.row];
    assert RowBumped(states);
    var last := |states| - 1;
    assert 0 < last ==> states[last].bumped;
  }

  lemma SignedRunsKeep(m: Meta, modes: set<Mode>, run: seq<Step>, s: Step)
    requires m.versioned && m.auditable && Unsigned !in modes && RunWithin(run, modes)
    ensures !LosesAfter(m, run, s)
  {
    if LosesAfter(m, run, s) {
      var w := After(m, run).value;
      var c :| LosesFor(m, w, s, c);
      RunBumped(m, run, modes);
      RunKeeps(m, run);
      assert SeenOk(w, w.seen[c]);
      hide After, Inv, SeenOk, AllBumped, WritesFor, Enabled, QuietSince, UntouchedSince;
      ReplacesWhatItRead(m, run, s, c);
      QuietMeansUntouched(w, w.seen[c]);
    }
  }

  // ----- one update without an actor

  /** An entity with a key `k` and a column `x` that is neither unique nor stamped. */
  predicate Ordinary(m: Meta, k: Col, x: Col) {
    m.versioned && m.auditable && m.key == Some(k) && {k, x} <= m.columns.Keys && !Unique(m, x) && x != k && x != "uuid"
    && m.updatedAt != Some(x) && m.updatedBy != Some(x)
  }

  function Entry(k: Col, x: Col, v: int): Row { Row(1, map[k := V(1), x := V(v)]) }

  function KeyAnd(k: Col, x: Col, v: int): Fields { map[k := V(1), x := V(v)] }

  function ByKey(mode: Mode): Call
    requires mode.Soft?
  {
    Call(mode.kind, [], if mode.actor then Some(7) else None, 0)
  }

  /** The victim's call, by key and with the version it read. */
  function Attempt(k: Col, x: Col, mode: Mode): Step {
    match mode
    case Hard => Drop(0, [], map[k := V(1)])
    case Soft(kind, _) => Save(0, ByKey(mode), if kind.Update? then KeyAnd(k, x, 2) else map[k := V(1)], 0)
  }

  function Other(k: Col, x: Col): Step { Save(1, ByKey(Unsigned), KeyAnd(k, x, 1), 0) }

  function Opening(k: Col, x: Col): seq<Step> { [Add(Entry(k, x, 0).cols), Read(0, 0), Read(1, 0)] }

  /** Two clients hold the same version of the one row. */
  function BothRead(k: Col, x: Col): World {
    var e := Entry(k, x, 0);
    World(map[0 := e], 1, map[0 := Seen(0, e, 0, 1), 1 := Seen(0, e, 0, 1)], map[0 := [State(e, true)]])
  }

  lemma OneMore(m: Meta, run: seq<Step>, s: Step)
    requires After(m, run).Some? && Enabled(m, After(m, run).value, s)
    ensures After(m, run + [s]) == Some(Do(m, After(m, run).value, s))
  {
    assert (run + [s])[..|run + [s]| - 1] == run;
    hide Do, Enabled;
  }

  lemma OpeningReaches(m: Meta, k: Col, x: Col)
    requires m.key == Some(k) && k != x
    ensures After(m, Opening(k, x)) == Some(BothRead(k, x))
  {
    var e := Entry(k, x, 0);
    var s0, s1, s2 := Add(e.cols), Read(0, 0), Read(1, 0);
    var w1 := World(map[0 := e], 1, map[], map[0 := [State(e, true)]]);
    var w2 := w1.(seen := map[0 := Seen(0, e, 0, 1)]);
    assert After(m, []) == Some(Init);
    assert [] + [s0] == [s0] && [s0] + [s1] == [s0, s1] && [s0, s1] + [s2] == [s0, s1, s2];
    assert Enabled(m, Init, s0) && Do(m, Init, s0) == w1;
    assert Enabled(m, w1, s1) && Do(m, w1, s1) == w2;
    assert Enabled(m, w2, s2) && Do(m, w2, s2) == BothRead(k, x);
    hide After, Do, Enabled, Entry;
    OneMore(m, [], s0);
    OneMore(m, [s0], s1);
    OneMore(m, [s0, s1], s2);
  }

  lemma OnlyRow(t: Table, k: Col, r: RowId)
    requires t.Keys == {r} && t[r].version == 1 && k in t[r].cols && t[r].cols[k] == V(1)
    ensures Matched(t, map[k := V(1)]) == {r}
    ensures forall ch :: Hits(t, Write(map[k := V(1)], Some(1), ch)) == {r}
  {
    assert Matches(t[r], map[k := V(1)]);
  }

  lemma KeyConds(m: Meta, k: Col, fields: Fields)
    requires m.key == Some(k) && k in fields && ("uuid" in fields ==> k == "uuid")
    ensures MatchConds(m, fields, []) == Ok(map[k := fields[k]])
  {
    assert SelectorProps(m, []) == Ok({});
    assert {} + (AutoIdentity(m) * fields.Keys) == {k};
    assert Restrict(fields, {k}) == map[k := fields[k]];
    hide SelectorProps, AutoIdentity, Restrict;
  }

  lemma PlainTouchesNothing(m: Meta, x: Col, v: Value)
    requires !Unique(m, x)
    ensures !TouchesUnique(m, map[x := v])
  {
    forall c | c in m.columns && Unique(m, c) ensures GroupOf(m, c) * {x} == {} {
      if x in GroupOf(m, c) { GroupMembers(m, c, x); }
    }
    assert (map[x := v]).Keys == {x};
  }

  lemma UpdatePlan(m: Meta, k: Col, x: Col, v: int, actor: bool, p: Payload)
    requires Ordinary(m, k, x) && p == Payload(KeyAnd(k, x, v), Some(1))
    ensures var call, sets := ByKey(Soft(Update, actor)), map[x := V(v)];
      UserSets(call, p.fields, {k}) == sets && !TouchesUnique(m, sets)
      && Plan(m, call, p) == Ok(WriteOf(m, call, map[k := V(1)], Some(1), sets))
  {
    var call, sets := ByKey(Soft(Update, actor)), map[x := V(v)];
    KeyConds(m, k, p.fields);
    PlainTouchesNothing(m, x, V(v));
    assert UserSets(call, p.fields, {k}) == sets;
    assert (map[k := V(1)]).Keys == {k};
    assert sets.Keys * Stamps(m, call).Keys == {};
    assert sets.Keys == {x} && x in sets;
    hide MatchConds, Stamps, TouchesUnique, UserSets;
  }

  lemma UpdateHits(m: Meta, k: Col, x: Col, v: int, actor: bool, w: World, c: Client, r: RowId)
    requires Ordinary(m, k, x) && w.table.Keys == {r} && c in w.seen && w.seen[c].state.version == 1
    requires w.table[r].version == 1 && k in w.table[r].cols && w.table[r].cols[k] == V(1)
    ensures var s := Save(c, ByKey(Soft(Update, actor)), KeyAnd(k, x, v), 0);
      Enabled(m, w, s) && Outcome(m, w, s).Ok? && Written(m, w, s) == {r}
      && Outcome(m, w, s).value == Changed(w.table, {r}, WriteOf(m, s.call, map[k := V(1)], Some(1), map[x := V(v)]).change)
  {
    var s := Save(c, ByKey(Soft(Update, actor)), KeyAnd(k, x, v), 0);
    UpdatePlan(m, k, x, v, actor, One(w, s));
    OnlyRow(w.table, k, r);
    assert s.fields == KeyAnd(k, x, v) && One(w, s) == Payload(s.fields, Some(1));
    hide *;
    var conds, sets := map[k := V(1)], map[x := V(v)];
    assert conds.Keys == {k};
    PlannedHits(w.table, m, s.call, One(w, s), conds, sets, r);
    SaveOutcome(m, w, s, WriteOf(m, s.call, conds, Some(1), sets));
  }

  lemma SaveOutcome(m: Meta, w: World, s: Step, sent: Write)
    requires s.Save? && s.client in w.seen && Plan(m, s.call, Payload(s.fields, Version(w, s.client))) == Ok(sent)
    requires Single(w.table, m, s.call, Payload(s.fields, Version(w, s.client)), s.reported).Ok?
    ensures Readers(w, s) && Enabled(m, w, s) && One(w, s) == Payload(s.fields, Version(w, s.client))
    ensures Outcome(m, w, s) == Single(w.table, m, s.call, One(w, s), s.reported) && Written(m, w, s) == Hits(w.table, sent)
  {
    hide Plan, Single, Hits;
  }

  lemma PlannedHits(t: Table, m: Meta, call: Call, p: Payload, conds: Fields, sets: Fields, r: RowId)
    requires m.versioned && p.version == Some(1)
    requires Plan(m, call, p) == Ok(WriteOf(m, call, conds, Some(1), sets))
    requires UserSets(call, p.fields, conds.Keys) == sets && !TouchesUnique(m, sets)
    requires Matched(t, conds) == {r} && Hits(t, WriteOf(m, call, conds, Some(1), sets)) == {r}
    ensures Single(t, m, call, p, 0) == Ok(Changed(t, {r}, WriteOf(m, call, conds, Some(1), sets).change))
  {
    hide Plan, TouchesUnique, Stamps, UserSets, Changed, Bumps, Hits, Matched;
  }

  lemma OthersLast(m: Meta, k: Col, x: Col)
    requires Ordinary(m, k, x)
    ensures var w := BothRead(k, x);
      Enabled(m, w, Other(k, x)) && Do(m, w, Other(k, x)).seen == w.seen
      && Do(m, w, Other(k, x)).table == map[0 := Entry(k, x, 1)]
  {
    var w, s := BothRead(k, x), Other(k, x);
    assert s == Save(1, ByKey(Soft(Update, false)), KeyAnd(k, x, 1), 0);
    FirstChange(m, k, x);
    UpdateHits(m, k, x, 1, false, w, 1, 0);
    hide Outcome, Enabled, Written, Changed, Entry, WriteOf, Ordinary, ByKey, KeyAnd;
  }

  lemma FirstChange(m: Meta, k: Col, x: Col)
    requires k != x
    ensures var sent := WriteOf(m, ByKey(Unsigned), map[k := V(1)], Some(1), map[x := V(1)]);
      Changed(BothRead(k, x).table, {0}, sent.change) == map[0 := Entry(k, x, 1)]
  {
    assert Stamps(m, ByKey(Unsigned)) == map[];
    assert map[] + map[x := V(1)] == map[x := V(1)];
    assert Entry(k, x, 0).cols + map[x := V(1)] == Entry(k, x, 1).cols;
  }

  lemma TouchPlan(m: Meta, k: Col, x: Col, mode: Mode, p: Payload)
    requires Ordinary(m, k, x) && mode.Soft? && !mode.kind.Update? && Deletable(m)
    requires p == Payload(map[k := V(1)], Some(1))
    ensures Plan(m, ByKey(mode), p) == Ok(WriteOf(m, ByKey(mode), map[k := V(1)], Some(1), map[]))
  {
    KeyConds(m, k, p.fields);
    hide MatchConds, Stamps;
  }

  lemma AttemptHits(m: Meta, k: Col, x: Col, mode: Mode, w: World)
    requires Ordinary(m, k, x) && (mode.Soft? && !mode.kind.Update? ==> Deletable(m))
    requires w.table.Keys == {0} && 0 in w.seen && w.seen[0].state.version == 1
    requires w.table[0].version == 1 && k in w.table[0].cols && w.table[0].cols[k] == V(1)
    ensures var s := Attempt(k, x, mode);
      (s.Save? || s.Drop?) && s.client == 0 && Enabled(m, w, s) && Written(m, w, s) == {0}
  {
    OnlyRow(w.table, k, 0);
    hide Ordinary, Hits, Matched, Written, Enabled, Deletable;
    if mode.Hard? { DropHits(m, k, x, w); }
    else if mode.kind.Update? { UpdateHits(m, k, x, 2, mode.actor, w, 0, 0); }
    else { TouchHits(m, k, x, mode, w); }
  }

  lemma DropHits(m: Meta, k: Col, x: Col, w: World)
    requires Ordinary(m, k, x) && 0 in w.seen && w.seen[0].state.version == 1
    requires Matched(w.table, map[k := V(1)]) == {0} && forall ch :: Hits(w.table, Write(map[k := V(1)], Some(1), ch)) == {0}
    ensures Enabled(m, w, Attempt(k, x, Hard)) && Written(m, w, Attempt(k, x, Hard)) == {0}
  {
    KeyConds(m, k, Attempt(k, x, Hard).fields);
    hide MatchConds, Hits, Matched;
  }

  lemma TouchHits(m: Meta, k: Col, x: Col, mode: Mode, w: World)
    requires Ordinary(m, k, x) && mode.Soft? && !mode.kind.Update? && Deletable(m)
    requires 0 in w.seen && w.seen[0].state.version == 1
    requires Matched(w.table, map[k := V(1)]) == {0} && forall ch :: Hits(w.table, Write(map[k := V(1)], Some(1), ch)) == {0}
    ensures Enabled(m, w, Attempt(k, x, mode)) && Written(m, w, Attempt(k, x, mode)) == {0}
  {
    var s := Attempt(k, x, mode);
    TouchPlan(m, k, x, mode, One(w, s));
    var sent := WriteOf(m, s.call, map[k := V(1)], Some(1), map[]);
    assert Single(w.table, m, s.call, One(w, s), 0) == SingleWrite(w.table, sent);
    hide Plan, Hits, Matched, Stamps, Changed, Single;
    SaveOutcome(m, w, s, sent);
  }

  function Victims(k: Col, x: Col): seq<Step> { Opening(k, x) + [Other(k, x)] }

  lemma OtherReaches(m: Meta, k: Col, x: Col)
    requires Ordinary(m, k, x)
    ensures var w := After(m, Victims(k, x));
      w.Some? && w.value.table == map[0 := Entry(k, x, 1)] && w.value.seen == BothRead(k, x).seen
  {
    OpeningReaches(m, k, x);
    OthersLast(m, k, x);
    hide After, Do, Enabled, Opening, Other, Entry, Ordinary;
    OneMore(m, Opening(k, x), Other(k, x));
  }

  lemma VictimsWithin(k: Col, x: Col, victim: Mode)
    ensures RunWithin(Victims(k, x), {Unsigned}) && Uses(Attempt(k, x, victim), victim)
  {
  }

  lemma UnsignedLoses(m: Meta, k: Col, x: Col, victim: Mode)
    requires Ordinary(m, k, x) && (victim.Soft? && !victim.kind.Update? ==> Deletable(m))
    ensures LosesAfter(m, Victims(k, x), Attempt(k, x, victim))
  {
    OtherReaches(m, k, x);
    var v, s := After(m, Victims(k, x)).value, Attempt(k, x, victim);
    assert v.seen[0] == Seen(0, Entry(k, x, 0), 0, 1);
    assert Entry(k, x, 1).cols[x] != Entry(k, x, 0).cols[x];
    hide After, Enabled, Written, Victims, BothRead, Attempt, Ordinary;
    AttemptHits(m, k, x, victim, v);
    hide Entry;
    assert LosesFor(m, v, s, 0);
  }

  /** Over every interleaving of calls of the permitted modes, whatever the call of the victim: no client ever overwrites,
      deletes or restores a state of its row other than the one it read, if and only if `update` without an actor is not
      permitted. */
  lemma NoLostUpdateExactly(m: Meta, modes: set<Mode>, victim: Mode, k: Col, x: Col)
    requires Ordinary(m, k, x) && (victim.Soft? && !victim.kind.Update? ==> Deletable(m))
    ensures Unsigned !in modes <==> forall run, s :: RunWithin(run, modes) && Uses(s, victim) ==> !LosesAfter(m, run, s)
  {
    assert m.versioned && m.auditable;
    hide LosesAfter, Ordinary, Uses, Attempt, Victims, Deletable;
    if Unsigned !in modes {
      forall run, s | RunWithin(run, modes) ensures !LosesAfter(m, run, s) { SignedRunsKeep(m, modes, run, s); }
    } else {
      UnsignedLoses(m, k, x, victim);
      VictimsWithin(k, x, victim);
      MoreModes(Victims(k, x), modes);
    }
  }

  lemma MoreModes(run: seq<Step>, modes: set<Mode>)
    requires RunWithin(run, {Unsigned}) && Unsigned in modes
    ensures RunWithin(run, modes)
  {
  }

  /** With an actor on every update the states of an incarnation carry the versions 1, 2, 3, …, in the order written. */
  lemma VersionsAreConsecutive(m: Meta, modes: set<Mode>, run: seq<Step>, r: RowId)
    requires m.versioned && m.auditable && Unsigned !in modes && RunWithin(run, modes)
    requires After(m, run).Some? && r in After(m, run).value.past
    ensures var states := After(m, run).value.past[r]; forall i :: 0 <= i < |states| ==> states[i].row.version == i + 1
  {
    var states := After(m, run).value.past[r];
    RunBumped(m, run, modes);
    RunKeeps(m, run);
    assert RowOk(After(m, run).value, r);
    hide After, Inv;
    forall i | 0 <= i < |states| ensures states[i].row.version == i + 1 { Consecutive(states, i); }
  }

  lemma {:induction false} Consecutive(states: seq<State>, i: nat)
    requires Counted(states) && RowBumped(states) && i < |states|
    ensures states[i].row.version == i + 1
  {
    if i > 0 {
      Consecutive(states, i - 1);
      assert Next(states[i - 1], states[i]);
    }
  }
}

/** Any number of clients that read rows and later write them, by any call, with the version they read. */
module OptimisticLock {
  import opened Outcomes
  import opened RepositoryRows
  import opened RepositorySelector
  import opened RepositoryUnique
  import opened RepositoryWrites

  /** One read of one row; a client that reads several rows counts once for each. */
  type Client = nat

  /** A state of a row, and whether the write that made it counted the version up. */
  datatype State = State(row: Row, bumped: bool)

  /** What a read returned. The row's number is its incarnation: a row that is deleted and added anew has another.
      `at` is the state's place in the row's past, `next` the number of the next row to be added; no step reads them. */
  datatype Seen = Seen(row: RowId, state: Row, at: nat, next: RowId)

  /** `past` records every state of every incarnation. No step reads it. */
  datatype World = World(table: Table, next: RowId, seen: map<Client, Seen>, past: map<RowId, seq<State>>)

  const Init := World(map[], 0, map[], map[])

  /** One call of the repository. `Drop` is `hardDelete`; a batch checks the tables `t1` and `t2` that other clients
      left before its write. */
  datatype Step =
    | Add(fields: Fields)
    | Read(client: Client, row: RowId)
    | Save(client: Client, call: Call, fields: Fields, reported: RowId)
    | Drop(client: Client, matchBy: seq<Col>, fields: Fields)
    | SaveMany(readers: seq<Client>, call: Call, batch: seq<Fields>, pick: map<RowId, nat>, t1: Table, t2: Table)

  function Version(w: World, c: Client): Option<int>
    requires c in w.seen
  {
    Some(w.seen[c].state.version)
  }

  predicate Readers(w: World, s: Step) {
    match s
    case Save(c, _, _, _) => c in w.seen
    case Drop(c, _, _) => c in w.seen
    case SaveMany(readers, _, batch, _, _, _) => |readers| == |batch| && forall i :: 0 <= i < |readers| ==> readers[i] in w.seen
    case _ => true
  }

  function One(w: World, s: Step): Payload
    requires (s.Save? || s.Drop?) && Readers(w, s)
  {
    Payload(s.fields, Version(w, s.client))
  }

  function Many(w: World, s: Step): seq<Payload>
    requires s.SaveMany? && Readers(w, s)
  {
    seq(|s.batch|, i requires 0 <= i < |s.batch| => Payload(s.batch[i], Version(w, s.readers[i])))
  }

  /** The statements of a write call. */
  function Sent(m: Meta, w: World, s: Step): Result<seq<Write>, Error>
    requires Readers(w, s)
  {
    match s
    case Save(_, call, _, _) =>
      var plan := Plan(m, call, One(w, s));
      if plan.Ok? then Ok([plan.value]) else Err(plan.error)
    case Drop(_, matchBy, _) =>
      var plan := Removal(m, matchBy, One(w, s));
      if plan.Ok? then Ok([plan.value]) else Err(plan.error)
    case SaveMany(_, call, batch, _, _, _) =>
      if batch == [] then Ok([]) else BatchPlan(m, call, Many(w, s))
    case _ => Ok([])
  }

  /** What a write call leaves. */
  function Outcome(m: Meta, w: World, s: Step): Result<Table, Error>
    requires Readers(w, s)
  {
    var sent := Sent(m, w, s);
    match s
    case Save(_, call, _, reported) => Single(w.table, m, call, One(w, s), reported)
    case Drop(_, _, _) => if sent.Err? then Err(sent.error) else SingleWrite(w.table, sent.value[0])
    case SaveMany(_, _, _, pick, t1, t2) =>
      if sent.Err? then Err(sent.error) else Bulk(t1, t2, w.table, sent.value, m.versioned, pick)
    case _ => Ok(w.table)
  }

  /** The database keeps the primary key: no NULL, and no value that another row has. */
  predicate KeyFree(t: Table, k: Col, fields: Fields) {
    k in fields && fields[k] != Null && forall r :: r in t ==> k in t[r].cols ==> t[r].cols[k] != fields[k]
  }

  ghost predicate Enabled(m: Meta, w: World, s: Step) {
    Readers(w, s)
    && match s
      case Add(fields) => m.key.Some? ==> KeyFree(w.table, m.key.value, fields)
      case Read(_, row) => row in w.table && row in w.past && w.past[row] != []
      case SaveMany(_, _, _, pick, _, _) => Sent(m, w, s).Ok? ==> Picks(w.table, Sent(m, w, s).value, pick)
      case _ => true
  }

  /** The rows a call writes. */
  function Written(m: Meta, w: World, s: Step): set<RowId>
    requires Readers(w, s)
  {
    if s.Add? || s.Read? || Outcome(m, w, s).Err? || Sent(m, w, s).Err? then {}
    else if s.SaveMany? then s.pick.Keys
    else Hits(w.table, Sent(m, w, s).value[0])
  }

  /** The rows it writes on behalf of one reader, with the version of that read. */
  predicate WritesFor(m: Meta, w: World, s: Step, c: Client, r: RowId)
    requires Readers(w, s)
  {
    r in Written(m, w, s)
    && match s
      case Save(client, _, _, _) => c == client
      case Drop(client, _, _) => c == client
      case SaveMany(readers, _, _, pick, _, _) => r in pick && pick[r] < |readers| && readers[pick[r]] == c
      case _ => false
  }

  /** A new state of each of the rows `rs`. */
  function Recorded(past: map<RowId, seq<State>>, table: Table, rs: set<RowId>, bump: bool): map<RowId, seq<State>> {
    map r | r in past :: if r in rs && r in table then past[r] + [State(table[r], bump)] else past[r]
  }

  function Saved(w: World, t: Table, rs: set<RowId>, bump: bool): World {
    w.(table := t, past := Recorded(w.past, t, rs, bump))
  }

  function Do(m: Meta, w: World, s: Step): World
    requires Enabled(m, w, s)
  {
    var outcome := Outcome(m, w, s);
    match s
    case Add(fields) =>
      var row := Row(1, fields);
      w.(table := w.table[w.next := row], past := w.past[w.next := [State(row, true)]], next := w.next + 1)
    case Read(c, r) => w.(seen := w.seen[c := Seen(r, w.table[r], |w.past[r]| - 1, w.next)])
    case Drop(_, _, _) => if outcome.Ok? then w.(table := outcome.value) else w
    case _ => if outcome.Ok? then Saved(w, outcome.value, Written(m, w, s), Bumps(m, s.call)) else w
  }

  ghost function After(m: Meta, run: seq<Step>): Option<World> {
    if run == [] then Some(Init)
    else
      var w := After(m, run[..|run| - 1]);
      if w.Some? && Enabled(m, w.value, run[|run| - 1]) then Some(Do(m, w.value, run[|run| - 1])) else None
  }

  // ----- versions count the writes that bump

  predicate Next(a: State, b: State) {
    b.row.version == if b.bumped then a.row.version + 1 else a.row.version
  }

  predicate Counted(states: seq<State>) {
    states != [] && states[0].row.version == 1 && forall i :: 0 < i < |states| ==> Next(states[i - 1], states[i])
  }

  ghost predicate RowOk(w: World, r: RowId) {
    r in w.past && Counted(w.past[r]) && r < w.next
    && (r in w.table ==> w.past[r][|w.past[r]| - 1].row == w.table[r])
  }

  ghost predicate SeenOk(w: World, s: Seen) {
    s.row in w.past && s.at < |w.past[s.row]| && w.past[s.row][s.at].row == s.state
  }

  ghost predicate Inv(w: World) {
    (forall r :: r in w.table ==> r in w.past)
    && (forall r :: r in w.past ==> RowOk(w, r))
    && forall c :: c in w.seen ==> SeenOk(w, w.seen[c])
  }

  predicate Bumped(before: Row, after: Row, written: bool, bump: bool) {
    if written then after.version == (if bump then before.version + 1 else before.version) else after == before
  }

  ghost predicate Grows(w: World, t: Table, rs: set<RowId>, bump: bool) {
    rs <= w.table.Keys && t.Keys == w.table.Keys
    && forall r :: r in w.table ==> Bumped(w.table[r], t[r], r in rs, bump)
  }

  lemma SingleEffect(t: Table, m: Meta, call: Call, p: Payload, reported: RowId)
    requires Single(t, m, call, p, reported).Ok?
    ensures Plan(m, call, p).Ok?
    ensures var w := Plan(m, call, p).value;
      w.change.Assign? && w.change.bump == Bumps(m, call) && w.expected == (if m.versioned then p.version else None)
      && Single(t, m, call, p, reported).value == Changed(t, Hits(t, w), w.change)
  {
    hide MatchConds, UserSets, SetError, Hits, Changed, ConflictSet, TouchesUnique, Stamps;
  }

  lemma SaveGrows(m: Meta, w: World, s: Step)
    requires s.Save? && Readers(w, s) && Outcome(m, w, s).Ok?
    ensures Grows(w, Outcome(m, w, s).value, Written(m, w, s), Bumps(m, s.call))
  {
    SingleEffect(w.table, m, s.call, One(w, s), s.reported);
    hide Single, Plan;
  }

  lemma BatchItem(m: Meta, call: Call, items: seq<Payload>, i: nat)
    requires i < |items| && BatchPlan(m, call, items).Ok?
    ensures |BatchPlan(m, call, items).value| == |items|
    ensures var w := BatchPlan(m, call, items).value[i];
      w.change.Assign? && w.change.bump == Bumps(m, call) && w.expected == (if m.versioned then items[i].version else None)
  {
    hide BulkColumns, Stamps, BatchSetError, BatchUserSets, Restrict;
  }

  lemma BatchGrows(w: World, items: seq<Write>, pick: map<RowId, nat>, bump: bool)
    requires Picks(w.table, items, pick)
    requires forall i :: 0 <= i < |items| ==> items[i].change.Assign? && items[i].change.bump == bump
    ensures Grows(w, PickedUpTo(w.table, items, pick, |items|), pick.Keys, bump)
  {
    forall r | r in pick ensures r in w.table && pick[r] < |items| { assert ItemHits(w.table, items, pick[r], r); }
  }

  lemma SaveManyGrows(m: Meta, w: World, s: Step)
    requires s.SaveMany? && Enabled(m, w, s) && Outcome(m, w, s).Ok?
    ensures Grows(w, Outcome(m, w, s).value, Written(m, w, s), Bumps(m, s.call))
  {
    hide BatchPlan, Picks, PickedUpTo, Grows, Bumps;
    var items := Sent(m, w, s).value;
    if items != [] { BatchItem(m, s.call, Many(w, s), 0); }
    forall i | 0 <= i < |items| ensures items[i].change.Assign? && items[i].change.bump == Bumps(m, s.call) {
      BatchItem(m, s.call, Many(w, s), i);
    }
    BatchGrows(w, items, s.pick, Bumps(m, s.call));
  }

  lemma GrowKeepsRow(w: World, t: Table, rs: set<RowId>, bump: bool, r: RowId)
    requires Grows(w, t, rs, bump) && RowOk(w, r)
    ensures RowOk(Saved(w, t, rs, bump), r)
  {
    var v := Saved(w, t, rs, bump);
    if r in rs && r in t {
      var was := w.past[r];
      assert v.past[r] == was + [State(t[r], bump)];
      assert Next(was[|was| - 1], State(t[r], bump));
    }
  }

  lemma GrowKeepsSeen(w: World, t: Table, rs: set<RowId>, bump: bool, s: Seen)
    requires SeenOk(w, s)
    ensures SeenOk(Saved(w, t, rs, bump), s)
  {
  }

  lemma GrowKeeps(w: World, t: Table, rs: set<RowId>, bump: bool)
    requires Inv(w) && Grows(w, t, rs, bump)
    ensures Inv(Saved(w, t, rs, bump))
  {
    var v := Saved(w, t, rs, bump);
    assert v.past.Keys == w.past.Keys && v.table.Keys == w.table.Keys && v.seen == w.seen;
    hide Grows, RowOk, SeenOk, Saved;
    forall r | r in v.past ensures RowOk(v, r) { GrowKeepsRow(w, t, rs, bump, r); }
    forall c | c in v.seen ensures SeenOk(v, v.seen[c]) { GrowKeepsSeen(w, t, rs, bump, w.seen[c]); }
  }

  lemma DropShrinks(m: Meta, w: World, s: Step)
    requires s.Drop? && Readers(w, s) && Outcome(m, w, s).Ok?
    ensures Outcome(m, w, s).value == w.table - Written(m, w, s)
  {
    hide MatchConds, Hits, Matched;
  }

  lemma DropKeeps(w: World, rs: set<RowId>)
    requires Inv(w)
    ensures Inv(w.(table := w.table - rs))
  {
    var v := w.(table := w.table - rs);
    forall r | r in v.past ensures RowOk(v, r) { assert RowOk(w, r); }
    forall c | c in v.seen ensures SeenOk(v, v.seen[c]) { assert SeenOk(w, w.seen[c]); }
  }

  lemma AddKeeps(m: Meta, w: World, s: Step)
    requires Inv(w) && s.Add? && Enabled(m, w, s)
    ensures Inv(Do(m, w, s))
  {
    var v := Do(m, w, s);
    forall r | r in v.past ensures RowOk(v, r) { if r != w.next { assert RowOk(w, r); } }
    forall c | c in v.seen ensures SeenOk(v, v.seen[c]) { assert SeenOk(w, w.seen[c]); assert RowOk(w, w.seen[c].row); }
  }

  lemma ReadKeeps(m: Meta, w: World, s: Step)
    requires Inv(w) && s.Read? && Enabled(m, w, s)
    ensures Inv(Do(m, w, s))
  {
    var v := Do(m, w, s);
    assert RowOk(w, s.row);
    forall c | c in v.seen ensures SeenOk(v, v.seen[c]) { if c != s.client { assert SeenOk(w, w.seen[c]); } }
    forall r | r in v.past ensures RowOk(v, r) { assert RowOk(w, r); }
  }

  lemma StepKeeps(m: Meta, w: World, s: Step)
    requires Inv(w) && Enabled(m, w, s)
    ensures Inv(Do(m, w, s))
  {
    hide Inv, Outcome, Written, Grows, Saved;
    if s.Add? { AddKeeps(m, w, s); }
    else if s.Read? { ReadKeeps(m, w, s); }
    else if Outcome(m, w, s).Ok? {
      var t, rs := Outcome(m, w, s).value, Written(m, w, s);
      if s.Drop? {
        DropShrinks(m, w, s);
        DropKeeps(w, rs);
      } else {
        if s.Save? { SaveGrows(m, w, s); } else { SaveManyGrows(m, w, s); }
        GrowKeeps(w, t, rs, Bumps(m, s.call));
      }
    }
  }

  lemma {:induction false} RunKeeps(m: Meta, run: seq<Step>)
    requires After(m, run).Some?
    ensures Inv(After(m, run).value)
  {
    if run != [] {
      RunKeeps(m, run[..|run| - 1]);
      hide Inv, Do, Enabled;
      StepKeeps(m, After(m, run[..|run| - 1]).value, run[|run| - 1]);
    }
  }

  /** How many of the writes after the first state bumped. */
  function BumpsIn(states: seq<State>): nat {
    if |states| <= 1 then 0
    else BumpsIn(states[..|states| - 1]) + if states[|states| - 1].bumped then 1 else 0
  }

  lemma {:induction false} VersionIs(states: seq<State>, i: nat)
    requires Counted(states) && i < |states|
    ensures states[i].row.version == 1 + BumpsIn(states[..i + 1])
  {
    if i > 0 {
      VersionIs(states, i - 1);
      assert states[..i + 1][..i] == states[..i];
      assert Next(states[i - 1], states[i]);
    }
  }

  /** Over every run, whichever calls have an actor: a state of a row incarnation carries one plus the number of bumping
      writes up to it, and the last state is the one in the table. */
  lemma VersionsCountBumps(m: Meta, run: seq<Step>, r: RowId)
    requires After(m, run).Some? && r in After(m, run).value.past
    ensures var w := After(m, run).value;
      w.past[r] != [] && (r in w.table ==> w.past[r][|w.past[r]| - 1].row == w.table[r])
      && forall i :: 0 <= i < |w.past[r]| ==> w.past[r][i].row.version == 1 + BumpsIn(w.past[r][..i + 1])
  {
    RunKeeps(m, run);
    var w := After(m, run).value;
    assert RowOk(w, r);
    hide After;
    forall i | 0 <= i < |w.past[r]| ensures w.past[r][i].row.version == 1 + BumpsIn(w.past[r][..i + 1]) {
      VersionIs(w.past[r], i);
    }
  }

  // ----- what a write replaces

  /** No write since `at` counted the version up. */
  predicate Quiet(states: seq<State>, at: nat, to: nat) {
    forall i :: at < i < to && i < |states| ==> !states[i].bumped
  }

  /** Versions never decrease, and stay the same exactly while no write bumps. */
  lemma {:induction false} VersionsFrom(states: seq<State>, at: nat, k: nat)
    requires Counted(states) && at <= k < |states|
    ensures states[at].row.version <= states[k].row.version
    ensures states[at].row.version == states[k].row.version <==> Quiet(states, at, k + 1)
    decreases k
  {
    if at < k {
      VersionsFrom(states, at, k - 1);
      assert Next(states[k - 1], states[k]);
    }
  }

  /** What happened to a row since it was read. */
  ghost predicate QuietSince(w: World, s: Seen) {
    s.row in w.past && Quiet(w.past[s.row], s.at, |w.past[s.row]|)
  }

  ghost predicate UntouchedSince(w: World, s: Seen) {
    s.row in w.past && s.at == |w.past[s.row]| - 1
  }

  /** The version guard lets a write through exactly when every write since the read left the version alone. */
  lemma GuardExact(w: World, s: Seen)
    requires Inv(w) && SeenOk(w, s) && s.row in w.table
    ensures Fresh(w.table[s.row], Some(s.state.version)) <==> QuietSince(w, s)
    ensures UntouchedSince(w, s) ==> w.table[s.row] == s.state
  {
    assert RowOk(w, s.row);
    VersionsFrom(w.past[s.row], s.at, |w.past[s.row]| - 1);
  }

  lemma WrittenFresh(m: Meta, w: World, s: Step, c: Client, r: RowId)
    requires m.versioned && Enabled(m, w, s) && WritesFor(m, w, s, c, r)
    ensures c in w.seen && r in w.table && Fresh(w.table[r], Some(w.seen[c].state.version))
  {
    if s.Save? { SavedFresh(m, w, s); }
    else if s.Drop? { DroppedFresh(m, w, s); }
    else { BatchFresh(m, w, s, r); }
  }

  lemma SavedFresh(m: Meta, w: World, s: Step)
    requires m.versioned && s.Save? && Readers(w, s)
    ensures forall r :: r in Written(m, w, s) ==> r in w.table && Fresh(w.table[r], Some(w.seen[s.client].state.version))
  {
    if Outcome(m, w, s).Ok? {
      SingleEffect(w.table, m, s.call, One(w, s), s.reported);
      hide Single, Plan, Matches;
    }
  }

  lemma DroppedFresh(m: Meta, w: World, s: Step)
    requires m.versioned && s.Drop? && Readers(w, s)
    ensures forall r :: r in Written(m, w, s) ==> r in w.table && Fresh(w.table[r], Some(w.seen[s.client].state.version))
  {
    hide MatchConds, SingleWrite, Matches;
  }

  lemma BatchFresh(m: Meta, w: World, s: Step, r: RowId)
    requires m.versioned && s.SaveMany? && Enabled(m, w, s) && r in Written(m, w, s)
    ensures r in w.table && r in s.pick && s.pick[r] < |s.readers|
    ensures Fresh(w.table[r], Some(w.seen[s.readers[s.pick[r]]].state.version))
  {
    var items := Sent(m, w, s).value;
    assert Picks(w.table, items, s.pick);
    hide BatchPlan, Bulk, Matches;
    assert ItemHits(w.table, items, s.pick[r], r);
    BatchItem(m, s.call, Many(w, s), s.pick[r]);
  }

  /** Over every interleaving of any calls: a client that writes the row it read replaces the state it read, unless a
      write that left the version alone hit the row since; then no write since has counted it up. */
  lemma ReplacesWhatItRead(m: Meta, run: seq<Step>, s: Step, c: Client)
    requires m.versioned && After(m, run).Some? && Enabled(m, After(m, run).value, s)
    requires var w := After(m, run).value; c in w.seen && WritesFor(m, w, s, c, w.seen[c].row)
    ensures var w := After(m, run).value;
      QuietSince(w, w.seen[c]) && (UntouchedSince(w, w.seen[c]) ==> w.table[w.seen[c].row] == w.seen[c].state)
  {
    RunKeeps(m, run);
    var w := After(m, run).value;
    assert SeenOk(w, w.seen[c]);
    hide After, Inv, SeenOk, WritesFor, Enabled, Fresh, QuietSince;
    WrittenFresh(m, w, s, c, w.seen[c].row);
    GuardExact(w, w.seen[c]);
  }
}

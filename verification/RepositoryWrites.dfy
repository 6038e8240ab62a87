/** The write calls of the repository: the statement each of them sends, and the batch calls against the single ones. */
module RepositoryWrites {
  import opened Outcomes
  import opened RepositoryRows
  import opened RepositorySelector
  import opened RepositoryUnique
  import opened RepositoryBulk

  datatype Kind = Update | Delete | Restore

  /** The caller's options; `now` is the clock of the call. */
  datatype Call = Call(kind: Kind, matchBy: seq<Col>, actor: Option<int>, now: int)

  function Stamp(c: Option<Col>, v: Value): Fields {
    if c.Some? then map[c.value := v] else map[]
  }

  /** The columns a call sets by itself. */
  function Stamps(m: Meta, call: Call): Fields {
    var audit := m.auditable && call.actor.Some?;
    (if call.kind.Update? then map[]
     else if call.kind.Delete? then
       Stamp(m.deletedAt, V(call.now)) + (if audit then Stamp(m.deletedBy, V(call.actor.value)) else map[])
     else Stamp(m.deletedAt, Null) + Stamp(m.deletedBy, Null))
    + (if audit then Stamp(m.updatedAt, V(call.now)) + Stamp(m.updatedBy, V(call.actor.value)) else map[])
  }

  /** `update` counts the version up only for an actor; `delete` and `restore` always do. */
  predicate Bumps(m: Meta, call: Call) {
    m.versioned && m.auditable && (call.kind.Update? ==> call.actor.Some?)
  }

  function Without(fields: Fields, cols: set<Col>): Fields {
    map c | c in fields && c !in cols :: fields[c]
  }

  function UserSets(call: Call, fields: Fields, keys: set<Col>): Fields {
    if call.kind.Update? then Without(fields, keys) else map[]
  }

  predicate Deletable(m: Meta) {
    m.deletedAt.Some? || m.deletedBy.Some?
  }

  /** The checks on the columns to set, the same for one row and for a batch but for their order. */
  function SetError(m: Meta, call: Call, sets: Fields): Option<Error> {
    if !call.kind.Update? then
      if Stamps(m, call) == map[] && !Bumps(m, call) then Some(StatementError) else None
    else if !(sets.Keys <= m.columns.Keys) then Some(UnknownColumn)
    else if sets == map[] then Some(NoFields)
    else if sets.Keys * Stamps(m, call).Keys != {} then Some(StatementError)
    else None
  }

  function WriteOf(m: Meta, call: Call, conds: Fields, version: Option<int>, sets: Fields): Write {
    Write(conds, if m.versioned then version else None, Assign(Stamps(m, call) + sets, Bumps(m, call)))
  }

  /** The statement of `update`, `delete` or `restore`. */
  function Plan(m: Meta, call: Call, p: Payload): Result<Write, Error> {
    var conds := MatchConds(m, p.fields, call.matchBy);
    if conds.Err? then Err(ERR09)
    else if !call.kind.Update? && !Deletable(m) then Err(NotDeletable)
    else if m.versioned && p.version == None then Err(ERR02)
    else
      var sets := UserSets(call, p.fields, conds.value.Keys);
      var bad := SetError(m, call, sets);
      if bad.Some? then Err(bad.value) else Ok(WriteOf(m, call, conds.value, p.version, sets))
  }

  /** The statement of `hardDelete`. */
  function Removal(m: Meta, matchBy: seq<Col>, p: Payload): Result<Write, Error> {
    var conds := MatchConds(m, p.fields, matchBy);
    if conds.Err? then Err(ERR09)
    else if m.versioned && p.version == None then Err(ERR02)
    else Ok(Write(conds.value, if m.versioned then p.version else None, Remove))
  }

  function Single(t: Table, m: Meta, call: Call, p: Payload, reported: RowId): Result<Table, Error> {
    var plan := Plan(m, call, p);
    if plan.Err? then Err(plan.error)
    else
      var sets := UserSets(call, p.fields, plan.value.conds.Keys);
      if call.kind.Update? && TouchesUnique(m, sets) then UniqueWrite(t, m, plan.value, sets, reported)
      else SingleWrite(t, plan.value)
  }

  // ----- batches

  /** The columns of the first item decide; an item that lacks one of them writes NULL there. */
  function BatchSets(first: Fields, fields: Fields, keys: set<Col>): Fields {
    map c | c in first && c !in keys :: if c in fields then fields[c] else Null
  }

  function BatchUserSets(call: Call, first: Fields, fields: Fields, keys: set<Col>): Fields {
    if call.kind.Update? then BatchSets(first, fields, keys) else map[]
  }

  function BatchSetError(m: Meta, call: Call, keys: set<Col>, sets: Fields): Option<Error> {
    if !call.kind.Update? then SetError(m, call, sets)
    else if sets == map[] then Some(NoFields)
    else if !(sets.Keys <= m.columns.Keys) then Some(UnknownColumn)
    else if (keys + sets.Keys) * Stamps(m, call).Keys != {} then Some(StatementError)
    else None
  }

  function BatchPlan(m: Meta, call: Call, items: seq<Payload>): Result<seq<Write>, Error>
    requires items != []
  {
    var keys := BulkColumns(m, items, call.matchBy);
    if keys.Err? then Err(ERR09)
    else if !call.kind.Update? && !Deletable(m) then Err(NotDeletable)
    else if m.versioned && exists i :: 0 <= i < |items| && items[i].version == None then Err(ERR02)
    else
      var first := items[0].fields;
      var bad := BatchSetError(m, call, keys.value, BatchUserSets(call, first, first, keys.value));
      if bad.Some? then Err(bad.value)
      else Ok(seq(|items|, i requires 0 <= i < |items| =>
        WriteOf(m, call, Restrict(items[i].fields, keys.value), items[i].version,
                BatchUserSets(call, first, items[i].fields, keys.value))))
  }

  /** A batch that no one else interferes with. */
  function Batch(t: Table, m: Meta, call: Call, items: seq<Payload>, pick: map<RowId, nat>): Result<Table, Error> {
    if items == [] then Ok(t)
    else
      var plan := BatchPlan(m, call, items);
      if plan.Err? then Err(plan.error) else Bulk(t, t, t, plan.value, m.versioned, pick)
  }

  /** The single-row calls, one after the other. */
  function Calls(t: Table, m: Meta, call: Call, items: seq<Payload>, reported: RowId, k: nat): Result<Table, Error>
    requires k <= |items|
  {
    if k == 0 then Ok(t)
    else
      var u := Calls(t, m, call, items, reported, k - 1);
      if u.Ok? then Single(u.value, m, call, items[k - 1], reported) else u
  }

  // ----- the plans agree

  predicate SameKeys(items: seq<Payload>) {
    forall i, j :: 0 <= i < |items| && 0 <= j < |items| ==> items[i].fields.Keys == items[j].fields.Keys
  }

  lemma BatchSetsAre(call: Call, first: Fields, fields: Fields, keys: set<Col>)
    requires first.Keys == fields.Keys
    ensures BatchUserSets(call, first, fields, keys) == UserSets(call, fields, keys)
    ensures UserSets(call, first, keys).Keys == UserSets(call, fields, keys).Keys
  {
  }

  lemma SameKeysSameError(m: Meta, call: Call, a: Fields, b: Fields)
    requires a.Keys == b.Keys
    ensures SetError(m, call, a) == SetError(m, call, b)
  {
    assert a == map[] <==> a.Keys == {};
    assert b == map[] <==> b.Keys == {};
  }

  /** The batch check refuses the column list exactly when the single check does, unless a stamp is an identity column. */
  lemma ErrorsAgree(m: Meta, call: Call, keys: set<Col>, sets: Fields)
    requires Stamps(m, call).Keys !! keys
    ensures BatchSetError(m, call, keys, sets) == None <==> SetError(m, call, sets) == None
  {
    assert (keys + sets.Keys) * Stamps(m, call).Keys == sets.Keys * Stamps(m, call).Keys;
  }

  ghost predicate PlannedAs(m: Meta, call: Call, items: seq<Payload>, ws: seq<Write>) {
    |ws| == |items| && forall i :: 0 <= i < |items| ==> Plan(m, call, items[i]) == Ok(ws[i])
  }

  predicate StampsOutside(m: Meta, call: Call, items: seq<Payload>) {
    var keys := BulkColumns(m, items, call.matchBy);
    keys.Ok? ==> Stamps(m, call).Keys !! keys.value
  }

  lemma BatchPlanned(m: Meta, call: Call, items: seq<Payload>)
    requires items != [] && SameKeys(items) && StampsOutside(m, call, items) && BatchPlan(m, call, items).Ok?
    ensures PlannedAs(m, call, items, BatchPlan(m, call, items).value)
  {
    var keys := BulkColumns(m, items, call.matchBy).value;
    BulkColumnsExact(m, items, call.matchBy, keys);
    hide BulkColumns, MatchConds, SetError, BatchSetError, Stamps, Restrict, UserSets, BatchUserSets, WriteOf;
    forall i | 0 <= i < |items| ensures Plan(m, call, items[i]) == Ok(BatchPlan(m, call, items).value[i]) {
      assert HasShape(m, items[i], call.matchBy, keys);
      BatchItemPlanned(m, call, items, keys, i);
    }
  }

  lemma CondsAre(m: Meta, fields: Fields, matchBy: seq<Col>)
    requires MatchConds(m, fields, matchBy).Ok?
    ensures MatchConds(m, fields, matchBy).value.Keys <= fields.Keys
    ensures MatchConds(m, fields, matchBy).value == Restrict(fields, MatchConds(m, fields, matchBy).value.Keys)
  {
    hide SelectorProps, AutoIdentity;
  }

  lemma BatchItemPlanned(m: Meta, call: Call, items: seq<Payload>, keys: set<Col>, i: nat)
    requires i < |items| && SameKeys(items) && BatchPlan(m, call, items).Ok?
    requires BulkColumns(m, items, call.matchBy) == Ok(keys) && Stamps(m, call).Keys !! keys
    requires HasShape(m, items[i], call.matchBy, keys)
    ensures Plan(m, call, items[i]) == Ok(BatchPlan(m, call, items).value[i])
  {
    hide BulkColumns, MatchConds, SetError, BatchSetError, Stamps, Restrict, UserSets, BatchUserSets, WriteOf;
    var first := items[0].fields;
    CondsAre(m, items[i].fields, call.matchBy);
    BatchSetsAre(call, first, items[i].fields, keys);
    BatchSetsAre(call, first, first, keys);
    ErrorsAgree(m, call, keys, UserSets(call, first, keys));
    SameKeysSameError(m, call, UserSets(call, first, keys), UserSets(call, items[i].fields, keys));
  }

  lemma SameKeysOneShape(m: Meta, items: seq<Payload>, matchBy: seq<Col>)
    requires items != [] && SameKeys(items) && MatchConds(m, items[0].fields, matchBy).Ok?
    ensures OneShape(m, items, matchBy, MatchConds(m, items[0].fields, matchBy).value.Keys)
  {
    hide SelectorProps, AutoIdentity;
    CondsKeys(m, items[0].fields, matchBy);
    forall i | 0 <= i < |items| ensures HasShape(m, items[i], matchBy, MatchConds(m, items[0].fields, matchBy).value.Keys) {
      assert items[i].fields.Keys == items[0].fields.Keys;
    }
  }

  /** When every single call could be sent, so could the batch. */
  lemma SinglesPlanned(m: Meta, call: Call, items: seq<Payload>)
    requires items != [] && SameKeys(items) && StampsOutside(m, call, items)
    requires forall i :: 0 <= i < |items| ==> Plan(m, call, items[i]).Ok?
    ensures BatchPlan(m, call, items).Ok?
  {
    assert Plan(m, call, items[0]).Ok?;
    SameKeysOneShape(m, items, call.matchBy);
    var keys := MatchConds(m, items[0].fields, call.matchBy).value.Keys;
    BulkColumnsExact(m, items, call.matchBy, keys);
    hide BulkColumns, MatchConds, SetError, BatchSetError, Stamps, Restrict, UserSets, BatchUserSets, WriteOf;
    BatchSetsAre(call, items[0].fields, items[0].fields, keys);
    ErrorsAgree(m, call, keys, UserSets(call, items[0].fields, keys));
  }

  // ----- the results agree

  function Target(t: Table, m: Meta, call: Call, p: Payload): set<RowId> {
    var conds := MatchConds(m, p.fields, call.matchBy);
    if conds.Ok? then Matched(t, conds.value) else {}
  }

  predicate DistinctTargets(t: Table, m: Meta, call: Call, items: seq<Payload>) {
    forall i, j :: 0 <= i < j < |items| ==> Target(t, m, call, items[i]) !! Target(t, m, call, items[j])
  }

  /** No item writes a column of a unique group. */
  predicate NoUniqueWritten(m: Meta, call: Call, items: seq<Payload>) {
    forall i :: 0 <= i < |items| ==> PlainWrite(m, call, items[i])
  }

  predicate PlainWrite(m: Meta, call: Call, p: Payload) {
    var conds := MatchConds(m, p.fields, call.matchBy);
    conds.Ok? ==> !TouchesUnique(m, UserSets(call, p.fields, conds.value.Keys))
  }

  lemma PlanConds(m: Meta, call: Call, p: Payload)
    requires Plan(m, call, p).Ok?
    ensures MatchConds(m, p.fields, call.matchBy) == Ok(Plan(m, call, p).value.conds)
    ensures Plan(m, call, p).value.change.Assign?
    ensures m.versioned ==> Plan(m, call, p).value.expected.Some?
    ensures Plan(m, call, p).value.change.sets ==
      Stamps(m, call) + UserSets(call, p.fields, Plan(m, call, p).value.conds.Keys)
  {
    hide MatchConds, Stamps, UserSets, SetError;
  }

  lemma {:induction false} CallsAreWrites(t: Table, m: Meta, call: Call, items: seq<Payload>, reported: RowId, ws: seq<Write>, k: nat)
    requires k <= |items| == |ws| && PlannedAs(m, call, items, ws) && NoUniqueWritten(m, call, items)
    ensures Calls(t, m, call, items, reported, k) == OneByOne(t, ws, k)
  {
    hide PlannedAs, NoUniqueWritten, SingleWrite, Single;
    if k > 0 {
      CallsAreWrites(t, m, call, items, reported, ws, k - 1);
      if OneByOne(t, ws, k - 1).Ok? {
        CallIsWrite(OneByOne(t, ws, k - 1).value, m, call, items, reported, ws, k - 1);
      }
    }
  }

  lemma CallIsWrite(t: Table, m: Meta, call: Call, items: seq<Payload>, reported: RowId, ws: seq<Write>, i: nat)
    requires i < |items| == |ws| && PlannedAs(m, call, items, ws) && NoUniqueWritten(m, call, items)
    ensures Single(t, m, call, items[i], reported) == SingleWrite(t, ws[i])
  {
    assert PlainWrite(m, call, items[i]) && Plan(m, call, items[i]) == Ok(ws[i]);
    hide PlannedAs, NoUniqueWritten, PlainWrite, Plan, SingleWrite, Single;
    SingleIsWrite(t, m, call, items[i], reported, ws[i]);
  }

  lemma SingleIsWrite(t: Table, m: Meta, call: Call, p: Payload, reported: RowId, w: Write)
    requires Plan(m, call, p) == Ok(w) && PlainWrite(m, call, p)
    ensures Single(t, m, call, p, reported) == SingleWrite(t, w)
  {
    hide TouchesUnique, UserSets, MatchConds, SingleWrite, Plan;
    PlanConds(m, call, p);
  }

  lemma {:induction false} CallsNeedPlans(t: Table, m: Meta, call: Call, items: seq<Payload>, reported: RowId, k: nat)
    requires k <= |items| && Calls(t, m, call, items, reported, k).Ok?
    ensures forall i :: 0 <= i < k ==> Plan(m, call, items[i]).Ok?
  {
    hide Plan, UniqueWrite, SingleWrite, TouchesUnique, UserSets;
    if k > 0 { CallsNeedPlans(t, m, call, items, reported, k - 1); }
  }

  lemma PlansUniform(m: Meta, call: Call, items: seq<Payload>, ws: seq<Write>, keys: set<Col>)
    requires PlannedAs(m, call, items, ws)
    requires OneShape(m, items, call.matchBy, keys) && Stamps(m, call).Keys !! keys
    ensures Uniform(ws, keys)
  {
    forall i | 0 <= i < |ws| ensures UniformItem(ws[i], keys) {
      assert Plan(m, call, items[i]) == Ok(ws[i]);
      assert HasShape(m, items[i], call.matchBy, keys);
      hide Plan, MatchConds, Stamps;
      PlanConds(m, call, items[i]);
      assert UserSets(call, items[i].fields, keys).Keys !! keys;
    }
  }

  lemma TargetsAreRows(t: Table, m: Meta, call: Call, items: seq<Payload>, ws: seq<Write>)
    requires PlannedAs(m, call, items, ws)
    ensures DistinctTargets(t, m, call, items) <==> DistinctRows(t, ws)
  {
    hide MatchConds, Matched, Plan;
    forall i | 0 <= i < |items| ensures Target(t, m, call, items[i]) == Matched(t, ws[i].conds) {
      assert Plan(m, call, items[i]) == Ok(ws[i]);
      PlanConds(m, call, items[i]);
    }
  }

  /** Guarded bulk refines sequential writes. For a batch on a versioned entity whose items carry the same keys and
      write no unique column: it commits exactly when its items name distinct rows and the single-row calls one after
      the other all succeed, and then leaves the table they leave. */
  lemma BatchIsCalls(t: Table, m: Meta, call: Call, items: seq<Payload>, reported: RowId, pick: map<RowId, nat>)
    requires m.versioned && SameKeys(items) && StampsOutside(m, call, items) && NoUniqueWritten(m, call, items)
    requires items != [] && BatchPlan(m, call, items).Ok? ==> Picks(t, BatchPlan(m, call, items).value, pick)
    ensures Batch(t, m, call, items, pick).Ok? <==>
      DistinctTargets(t, m, call, items) && Calls(t, m, call, items, reported, |items|).Ok?
    ensures Batch(t, m, call, items, pick).Ok? ==>
      Batch(t, m, call, items, pick) == Calls(t, m, call, items, reported, |items|)
  {
    hide Plan, BatchPlan, Bulk, OneByOne, Uniform, Picks, Matched, DistinctRows, DistinctTargets;
    if items == [] { assert DistinctTargets(t, m, call, items) by { NoTargets(t, m, call, items); } } else {
      if BatchPlan(m, call, items).Ok? {
        PlannedBatchIsCalls(t, m, call, items, reported, pick);
      } else if Calls(t, m, call, items, reported, |items|).Ok? {
        CallsNeedPlans(t, m, call, items, reported, |items|);
        SinglesPlanned(m, call, items);
      }
    }
  }

  lemma NoTargets(t: Table, m: Meta, call: Call, items: seq<Payload>)
    requires items == []
    ensures DistinctTargets(t, m, call, items)
  {
  }

  lemma PlannedBatchIsCalls(t: Table, m: Meta, call: Call, items: seq<Payload>, reported: RowId, pick: map<RowId, nat>)
    requires m.versioned && SameKeys(items) && StampsOutside(m, call, items) && NoUniqueWritten(m, call, items)
    requires items != [] && BatchPlan(m, call, items).Ok? && Picks(t, BatchPlan(m, call, items).value, pick)
    ensures Batch(t, m, call, items, pick).Ok? <==>
      DistinctTargets(t, m, call, items) && Calls(t, m, call, items, reported, |items|).Ok?
    ensures Batch(t, m, call, items, pick).Ok? ==>
      Batch(t, m, call, items, pick) == Calls(t, m, call, items, reported, |items|)
  {
    var ws := BatchPlan(m, call, items).value;
    BatchPlanned(m, call, items);
    var keys := BulkColumns(m, items, call.matchBy).value;
    BulkColumnsExact(m, items, call.matchBy, keys);
    assert BatchPlan(m, call, items).Ok? ==> BulkColumns(m, items, call.matchBy).Ok?;
    hide Plan, BatchPlan, Bulk, OneByOne, Uniform, Picks, Matched, DistinctRows, DistinctTargets;
    PlansUniform(m, call, items, ws, keys);
    TargetsAreRows(t, m, call, items, ws);
    CallsAreWrites(t, m, call, items, reported, ws, |items|);
    BulkIsOneByOne(t, ws, pick, keys);
  }

  /** No item without a row. */
  predicate TargetsExist(t: Table, m: Meta, call: Call, items: seq<Payload>) {
    forall i :: 0 <= i < |items| ==> Target(t, m, call, items[i]) != {}
  }

  /** On an entity without a version column, for such a batch over distinct rows: the single-row calls all succeed exactly
      when the batch commits and every item has a row, and then both leave the same table. */
  lemma UnguardedBatchIsCalls(t: Table, m: Meta, call: Call, items: seq<Payload>, reported: RowId, pick: map<RowId, nat>)
    requires !m.versioned && SameKeys(items) && StampsOutside(m, call, items) && NoUniqueWritten(m, call, items)
    requires items != [] && DistinctTargets(t, m, call, items)
    requires BatchPlan(m, call, items).Ok? ==> Picks(t, BatchPlan(m, call, items).value, pick)
    ensures Calls(t, m, call, items, reported, |items|).Ok? <==>
      Batch(t, m, call, items, pick).Ok? && TargetsExist(t, m, call, items)
    ensures Calls(t, m, call, items, reported, |items|).Ok? ==>
      Batch(t, m, call, items, pick) == Calls(t, m, call, items, reported, |items|)
  {
    hide Plan, BatchPlan, Bulk, OneByOne, Picks, Matched, DistinctTargets, TargetsExist;
    if BatchPlan(m, call, items).Ok? {
      PlannedUnguarded(t, m, call, items, reported, pick);
    } else if Calls(t, m, call, items, reported, |items|).Ok? {
      CallsNeedPlans(t, m, call, items, reported, |items|);
      SinglesPlanned(m, call, items);
    }
  }

  lemma PlannedUnguarded(t: Table, m: Meta, call: Call, items: seq<Payload>, reported: RowId, pick: map<RowId, nat>)
    requires !m.versioned && SameKeys(items) && StampsOutside(m, call, items) && NoUniqueWritten(m, call, items)
    requires items != [] && DistinctTargets(t, m, call, items)
    requires BatchPlan(m, call, items).Ok? && Picks(t, BatchPlan(m, call, items).value, pick)
    ensures Calls(t, m, call, items, reported, |items|).Ok? <==>
      Batch(t, m, call, items, pick).Ok? && TargetsExist(t, m, call, items)
    ensures Calls(t, m, call, items, reported, |items|).Ok? ==>
      Batch(t, m, call, items, pick) == Calls(t, m, call, items, reported, |items|)
  {
    var ws := BatchPlan(m, call, items).value;
    BatchPlanned(m, call, items);
    var keys := BulkColumns(m, items, call.matchBy).value;
    BulkColumnsExact(m, items, call.matchBy, keys);
    assert BulkColumns(m, items, call.matchBy).Ok?;
    hide Plan, BatchPlan, Bulk, OneByOne, Uniform, Picks, Matched, DistinctRows, DistinctTargets, Unversioned, TargetsExist;
    PlansUniform(m, call, items, ws, keys);
    PlansUnversioned(m, call, items, ws);
    TargetsAreRows(t, m, call, items, ws);
    TargetsAreMatched(t, m, call, items, ws);
    CallsAreWrites(t, m, call, items, reported, ws, |items|);
    UnguardedBatchExactly(t, ws, pick, keys);
  }

  lemma PlansUnversioned(m: Meta, call: Call, items: seq<Payload>, ws: seq<Write>)
    requires !m.versioned && PlannedAs(m, call, items, ws)
    ensures Unversioned(ws)
  {
    forall i | 0 <= i < |ws| ensures ws[i].expected == None {
      assert Plan(m, call, items[i]) == Ok(ws[i]);
      hide MatchConds, Stamps, SetError, UserSets;
    }
  }

  lemma TargetsAreMatched(t: Table, m: Meta, call: Call, items: seq<Payload>, ws: seq<Write>)
    requires PlannedAs(m, call, items, ws)
    ensures TargetsExist(t, m, call, items) <==> forall i :: 0 <= i < |ws| ==> !Vanished(t, ws[i])
  {
    hide MatchConds, Matched, Plan;
    forall i | 0 <= i < |items| ensures Target(t, m, call, items[i]) == Matched(t, ws[i].conds) {
      assert Plan(m, call, items[i]) == Ok(ws[i]);
      PlanConds(m, call, items[i]);
    }
  }
}

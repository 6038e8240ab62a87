/** The repository's write calls on one table. */
module Repository {
  import opened Outcomes
  import opened RepositoryRows
  import opened RepositorySelector
  import opened RepositoryUnique
  import opened RepositoryBulk
  import opened RepositoryWrites

  const ParameterLimit: nat := 65535

  /** Rows per INSERT: as many as fit under the parameter limit, at most 1000. */
  function AutoBatchSize(columnCount: int): (r: nat)
    ensures 0 < columnCount ==> r * columnCount <= ParameterLimit && (r == 1000 || ParameterLimit < (r + 1) * columnCount)
  {
    if columnCount <= 0 then 1000
    else if ParameterLimit / columnCount < 1000 then ParameterLimit / columnCount else 1000
  }

  /** Appends the rows of the batch in chunks; the temp table holds every item once, in order. */
  method FillTemp<T>(rows: seq<T>, batchSize: nat) returns (temp: seq<T>, statements: nat)
    requires batchSize > 0
    ensures temp == rows && |rows| <= batchSize * statements < |rows| + batchSize
  {
    temp, statements := [], 0;
    var i := 0;
    while i < |rows|
      invariant 0 <= i && temp == rows[..if i < |rows| then i else |rows|]
      invariant i == batchSize * statements && (statements > 0 ==> i < |rows| + batchSize)
    {
      var end := if i + batchSize < |rows| then i + batchSize else |rows|;
      var batch: seq<T> := [];
      for b := i to end
        invariant batch == rows[i..b]
      {
        batch := batch + [rows[b]];
      }
      temp, statements := temp + batch, statements + 1;
      i := i + batchSize;
    }
  }

  function FirstHit(t: Table, items: seq<Write>, r: RowId, k: nat): (i: nat)
    requires k <= |items| && exists i :: k <= i < |items| && ItemHits(t, items, i, r)
    ensures k <= i < |items| && ItemHits(t, items, i, r)
    decreases |items| - k
  {
    if ItemHits(t, items, k, r) then k else FirstHit(t, items, r, k + 1)
  }

  function FirstHits(t: Table, items: seq<Write>): (pick: map<RowId, nat>)
    ensures Picks(t, items, pick)
  {
    map r | r in BulkHits(t, items) :: FirstHit(t, items, r, 0)
  }

  /** What a rolled-back batch leaves: the table as the other clients had it when the batch stopped. */
  function LeftByOthers(t1: Table, t2: Table, t3: Table, items: seq<Write>, guarded: bool): Table {
    if Ambiguous(t1, items) then t1 else if guarded && StaleCode(t2, items).Some? then t2 else t3
  }

  class Repository {
    const meta: Meta
    var table: Table

    constructor (meta: Meta, table: Table)
      ensures this.meta == meta && this.table == table
    {
      this.meta, this.table := meta, table;
    }

    /** The SET columns of `update`: the payload's fields, checked one by one. */
    method UserColumns(remaining: Fields) returns (unknown: bool, sets: Fields)
      ensures unknown <==> !(remaining.Keys <= meta.columns.Keys)
      ensures !unknown ==> sets == remaining
    {
      sets := map[];
      var todo := remaining.Keys;
      while todo != {}
        invariant todo <= remaining.Keys && sets.Keys == remaining.Keys - todo && sets.Keys <= meta.columns.Keys
        invariant forall c :: c in sets ==> sets[c] == remaining[c]
        decreases |todo|
      {
        var c :| c in todo;
        if c !in meta.columns { return true, sets; }
        sets := sets[c := remaining[c]];
        todo := todo - {c};
      }
      unknown := false;
    }

    /** What `update`, `delete` and `restore` send. */
    method BuildWrite(call: Call, p: Payload) returns (r: Result<Write, Error>)
      ensures r == Plan(meta, call, p)
    {
      var conds := ResolveMatchConditions(meta, p.fields, call.matchBy);
      hide MatchConds, Stamps;
      if conds.Err? { return Err(ERR09); }
      if !call.kind.Update? && !Deletable(meta) { return Err(NotDeletable); }
      if meta.versioned && p.version == None { return Err(ERR02); }
      var sets: Fields := map[];
      var stamps := Stamps(meta, call);
      if call.kind.Update? {
        var unknown, columns := UserColumns(Without(p.fields, conds.value.Keys));
        if unknown { return Err(UnknownColumn); }
        sets := columns;
        if sets == map[] { return Err(NoFields); }
        if sets.Keys * stamps.Keys != {} { return Err(StatementError); }
      } else if stamps == map[] && !Bumps(meta, call) {
        return Err(StatementError);
      }
      return Ok(WriteOf(meta, call, conds.value, p.version, sets));
    }

    ghost predicate Outcome(before: Table, s: Result<Table, Error>, e: Option<Error>)
      reads this
    {
      if s.Ok? then table == s.value && e == None else table == before && e == Some(s.error)
    }

    /** `update`, `delete`, `restore`: the row is written, or the table is left as it was. */
    method Write(call: Call, p: Payload) returns (e: Option<Error>, ghost reported: RowId)
      modifies this
      ensures Outcome(old(table), Single(old(table), meta, call, p, reported), e)
    {
      reported := 0;
      var plan := BuildWrite(call, p);
      if plan.Err? { return Some(plan.error), reported; }
      var w := plan.value;
      var sets := UserSets(call, p.fields, w.conds.Keys);
      hide Plan, UserSets, GroupOf, ConflictSet, Touches, Effect;
      var result;
      if call.kind.Update? && TouchesUnique(meta, sets) {
        var found := ConflictSet(table, meta, w, sets);
        var row := 0;
        if found != {} { row :| row in found; }
        reported := row;
        result := UniqueWrite(table, meta, w, sets, row);
      } else {
        result := SingleWrite(table, w);
      }
      if result.Err? { return Some(result.error), reported; }
      table := result.value;
      e := None;
    }

    /** `hardDelete` takes the row out, under the same guard and version. */
    method HardDelete(p: Payload, matchBy: seq<Col>) returns (e: Option<Error>)
      modifies this
      ensures var plan := Removal(meta, matchBy, p);
        if plan.Err? then table == old(table) && e == Some(plan.error)
        else Outcome(old(table), SingleWrite(old(table), plan.value), e)
    {
      var conds := ResolveMatchConditions(meta, p.fields, matchBy);
      hide MatchConds, Effect;
      if conds.Err? { return Some(ERR09); }
      if meta.versioned && p.version == None { return Some(ERR02); }
      var result := SingleWrite(table, RepositoryRows.Write(conds.value, if meta.versioned then p.version else None, Remove));
      if result.Err? { return Some(result.error); }
      table := result.value;
      e := None;
    }

    /** Every row must carry its version. */
    method ExpectedVersions(items: seq<Payload>) returns (missing: nat)
      ensures missing > 0 <==> meta.versioned && exists i :: 0 <= i < |items| && items[i].version == None
    {
      missing := 0;
      if meta.versioned {
        for k := 0 to |items|
          invariant missing > 0 <==> exists i :: 0 <= i < k && items[i].version == None
        {
          if items[k].version == None { missing := missing + 1; }
        }
      }
    }

    /** What a batch sends: one row of the temp table for each item. */
    method BuildBatch(call: Call, items: seq<Payload>, batchSize: nat) returns (r: Result<seq<Write>, Error>)
      requires batchSize > 0 && items != []
      ensures r == BatchPlan(meta, call, items)
    {
      var keys := ResolveBulkMatchColumns(meta, items, call.matchBy);
      hide BulkColumns, Stamps, BatchSetError, WriteOf, BatchUserSets;
      if keys.Err? { return Err(ERR09); }
      if !call.kind.Update? && !Deletable(meta) { return Err(NotDeletable); }
      var missing := ExpectedVersions(items);
      if missing > 0 { return Err(ERR02); }
      var first := items[0].fields;
      var bad := BatchSetError(meta, call, keys.value, BatchUserSets(call, first, first, keys.value));
      if bad.Some? { return Err(bad.value); }
      assert forall i :: 0 <= i < |items| ==> keys.value <= items[i].fields.Keys by { ColumnsInItems(meta, items, call.matchBy); }
      var rows := seq(|items|, i requires 0 <= i < |items| =>
        WriteOf(meta, call, Restrict(items[i].fields, keys.value), items[i].version,
                BatchUserSets(call, first, items[i].fields, keys.value)));
      var temp, _ := FillTemp(rows, batchSize);
      return Ok(temp);
    }

    /** The transaction of a batch: ambiguity check, stale check, write, row count. Other clients leave `t2` before the
        stale check and `t3` before the write; the rollback leaves what they left. */
    method Transact(temp: seq<Write>, t2: Table, t3: Table) returns (e: Option<Error>, ghost pick: map<RowId, nat>)
      modifies this
      ensures Picks(t3, temp, pick)
      ensures var b := Bulk(old(table), t2, t3, temp, meta.versioned, pick);
        if b.Ok? then e == None && table == b.value
        else e == Some(b.error) && table == LeftByOthers(old(table), t2, t3, temp, meta.versioned)
    {
      hide Picks, StaleCode, PickedUpTo, BulkHits, Ambiguous;
      var written := FirstHits(t3, temp);
      pick := written;
      if Ambiguous(table, temp) { return Some(ERR10), pick; }
      table := t2;
      if meta.versioned && StaleCode(table, temp).Some? { return StaleCode(table, temp), pick; }
      table := t3;
      if meta.versioned && |BulkHits(table, temp)| < |temp| { return Some(ERR01), pick; }
      table := PickedUpTo(table, temp, written, |temp|);
      e := None;
    }

    /** `updateMany`, `deleteMany`, `restoreMany`. */
    method WriteMany(call: Call, items: seq<Payload>, t2: Table, t3: Table, batchSize: nat)
        returns (e: Option<Error>, ghost pick: map<RowId, nat>)
      requires batchSize > 0
      modifies this
      ensures items == [] ==> e == None && table == old(table)
      ensures items != [] && BatchPlan(meta, call, items).Err? ==>
        e == Some(BatchPlan(meta, call, items).error) && table == old(table)
      ensures items != [] && BatchPlan(meta, call, items).Ok? ==>
        Committed(old(table), t2, t3, BatchPlan(meta, call, items).value, e, pick)
    {
      pick, e := map[], None;
      hide BatchPlan, Picks, Bulk;
      if items == [] { return; }
      var plan := BuildBatch(call, items, batchSize);
      if plan.Err? { return Some(plan.error), pick; }
      e, pick := Transact(plan.value, t2, t3);
    }

    ghost predicate Committed(t1: Table, t2: Table, t3: Table, ws: seq<Write>, e: Option<Error>, pick: map<RowId, nat>)
      reads this
    {
      var b := Bulk(t1, t2, t3, ws, meta.versioned, pick);
      Picks(t3, ws, pick)
      && if b.Ok? then e == None && table == b.value
         else e == Some(b.error) && table == LeftByOthers(t1, t2, t3, ws, meta.versioned)
    }
  }

  lemma ColumnsInItems(m: Meta, items: seq<Payload>, matchBy: seq<Col>)
    requires BulkColumns(m, items, matchBy).Ok?
    ensures forall i :: 0 <= i < |items| ==> BulkColumns(m, items, matchBy).value <= items[i].fields.Keys
  {
    hide BulkColumns;
  }
}

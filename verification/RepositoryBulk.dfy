/** A guarded bulk write against the single-row writes it stands for. */
module RepositoryBulk {
  import opened Outcomes
  import opened RepositoryRows

  /** One batch: every item names its row by the same columns, and writes none of them. */
  predicate Uniform(items: seq<Write>, keys: set<Col>) {
    forall i :: 0 <= i < |items| ==> UniformItem(items[i], keys)
  }

  predicate UniformItem(w: Write, keys: set<Col>) {
    w.conds.Keys == keys && w.change.Assign? && w.change.sets.Keys !! keys
  }

  /** No two items name one row. */
  predicate DistinctRows(t: Table, items: seq<Write>) {
    forall i, j :: 0 <= i < j < |items| ==> Matched(t, items[i].conds) !! Matched(t, items[j].conds)
  }

  // ----- other clients between the checks and the write

  ghost predicate WroteOwn(t: Table, u: Table, items: seq<Write>, i: nat, pick: map<RowId, nat>) {
    i < |items| && exists r :: WroteRow(t, u, items[i], r) && r in pick && pick[r] == i
  }

  predicate WroteRow(t: Table, u: Table, w: Write, r: RowId) {
    r in t && r in u && Hits(t, w) == {r} && Fresh(t[r], w.expected)
    && w.change.Assign? && u[r] == Assigned(t[r], w.change.sets, w.change.bump)
  }

  /** Whatever committed between the checks and the write: a commit of the batch changed no row but those it counted, and
      each item wrote its own row, at the version it expected, exactly when no item hit two rows. */
  lemma CommittedMeansEachItsOwn(t1: Table, t2: Table, t: Table, items: seq<Write>, pick: map<RowId, nat>, keys: set<Col>)
    requires Uniform(items, keys) && Picks(t, items, pick)
    requires Bulk(t1, t2, t, items, true, pick).Ok?
    ensures var u := Bulk(t1, t2, t, items, true, pick).value;
      u.Keys == t.Keys && (forall r :: r in t && r !in pick ==> u[r] == t[r])
      && ((forall i :: 0 <= i < |items| ==> WroteOwn(t, u, items, i, pick)) <==> OneRowEach(t, items))
    ensures Identifies(t, items) ==> OneRowEach(t, items)
  {
    if Identifies(t, items) { IdentifiedRows(t, items); }
    CommittedKeepsOthers(t, items, pick);
    hide PickedUpTo, Identifies, BulkHits, Uniform, Picks, OneRowEach, WroteOwn;
    if OneRowEach(t, items) { EachItsOwn(t, items, pick, keys); }
    var u := PickedUpTo(t, items, pick, |items|);
    if forall i :: 0 <= i < |items| ==> WroteOwn(t, u, items, i, pick) { OwnRowEach(t, u, items, pick); }
  }

  lemma CommittedKeepsOthers(t: Table, items: seq<Write>, pick: map<RowId, nat>)
    ensures var u := PickedUpTo(t, items, pick, |items|); u.Keys == t.Keys && forall r :: r in t && r !in pick ==> u[r] == t[r]
  {
  }

  lemma EachItsOwn(t: Table, items: seq<Write>, pick: map<RowId, nat>, keys: set<Col>)
    requires Uniform(items, keys) && Picks(t, items, pick) && OneRowEach(t, items) && |BulkHits(t, items)| >= |items|
    ensures forall i :: 0 <= i < |items| ==> WroteOwn(t, PickedUpTo(t, items, pick, |items|), items, i, pick)
  {
    ReachedCountExact(t, items);
    hide Hits, PickedUpTo, Picks, WroteOwn, Apart, OneRowEach;
    forall i | 0 <= i < |items| ensures WroteOwn(t, PickedUpTo(t, items, pick, |items|), items, i, pick) {
      assert OwnRow(t, items, i) && UniformItem(items[i], keys);
      OwnedBy(t, items, i, pick);
    }
  }

  lemma OwnRowEach(t: Table, u: Table, items: seq<Write>, pick: map<RowId, nat>)
    requires forall i :: 0 <= i < |items| ==> WroteOwn(t, u, items, i, pick)
    ensures OneRowEach(t, items)
  {
    forall i | 0 <= i < |items| ensures |Hits(t, items[i])| <= 1 {
      assert WroteOwn(t, u, items, i, pick);
      hide Hits;
    }
  }

  lemma SingleElement<T>(s: set<T>) returns (x: T)
    requires |s| == 1
    ensures s == {x}
  {
    x :| x in s;
    assert |s - {x}| == 0;
  }

  lemma OwnedBy(t: Table, items: seq<Write>, i: nat, pick: map<RowId, nat>)
    requires i < |items| && Apart(t, items, |items|) && Picks(t, items, pick) && |Hits(t, items[i])| == 1
    requires items[i].change.Assign?
    ensures WroteOwn(t, PickedUpTo(t, items, pick, |items|), items, i, pick)
  {
    var r := SingleElement(Hits(t, items[i]));
    assert ItemHits(t, items, i, r);
    assert r in pick && ItemHits(t, items, pick[r], r);
    assert r in Hits(t, items[i]) && r in Hits(t, items[pick[r]]);
    assert pick[r] == i;
    assert WroteRow(t, PickedUpTo(t, items, pick, |items|), items[i], r);
  }

  // ----- one by one

  lemma AssignedMatches(row: Row, sets: Fields, bump: bool, conds: Fields)
    requires sets.Keys !! conds.Keys
    ensures Matches(Assigned(row, sets, bump), conds) <==> Matches(row, conds)
  {
  }

  lemma PickedMatched(t: Table, items: seq<Write>, pick: map<RowId, nat>, k: nat, conds: Fields, keys: set<Col>)
    requires Uniform(items, keys) && conds.Keys == keys
    ensures Matched(PickedUpTo(t, items, pick, k), conds) == Matched(t, conds)
  {
    var u := PickedUpTo(t, items, pick, k);
    forall r | r in t ensures Matches(u[r], conds) <==> Matches(t[r], conds) {
      if r in pick && pick[r] < k && pick[r] < |items| {
        assert UniformItem(items[pick[r]], keys);
        AssignedMatches(t[r], items[pick[r]].change.sets, items[pick[r]].change.bump, conds);
      }
    }
  }

  /** Every item names exactly one row, at its version, and no other item names it. */
  ghost predicate AllReady(t: Table, items: seq<Write>, pick: map<RowId, nat>) {
    Picks(t, items, pick)
    && forall i :: 0 <= i < |items| ==> Ready(t, items, i, pick)
  }

  ghost predicate Ready(t: Table, items: seq<Write>, i: nat, pick: map<RowId, nat>) {
    i < |items| && exists r :: ReadyRow(t, items[i], r) && r in pick && pick[r] == i
  }

  predicate ReadyRow(t: Table, w: Write, r: RowId) {
    Matched(t, w.conds) == {r} && r in t && Fresh(t[r], w.expected)
  }

  lemma ReadyRowHits(t: Table, w: Write, r: RowId)
    requires ReadyRow(t, w, r)
    ensures Hits(t, w) == {r}
  {
    assert r in Matched(t, w.conds);
    assert Hits(t, w) <= Matched(t, w.conds);
  }

  lemma ReadyStep(t: Table, items: seq<Write>, pick: map<RowId, nat>, k: nat, keys: set<Col>)
    requires Uniform(items, keys) && k < |items| && Ready(t, items, k, pick) && Picks(t, items, pick)
    ensures SingleWrite(PickedUpTo(t, items, pick, k), items[k]) == Ok(PickedUpTo(t, items, pick, k + 1))
  {
    var u, w := PickedUpTo(t, items, pick, k), items[k];
    var r :| ReadyRow(t, w, r) && r in pick && pick[r] == k;
    assert UniformItem(w, keys);
    PickedMatched(t, items, pick, k, w.conds, keys);
    assert ReadyRow(u, w, r);
    ReadyRowHits(u, w, r);
    ReadyRowHits(t, w, r);
    forall q | q in pick && pick[q] == k ensures q == r {
      assert ItemHits(t, items, k, q);
    }
    hide Matched, Hits, Matches, Fresh, Picks, ReadyRow;
    NextPicked(t, items, pick, k, r);
  }

  lemma NextPicked(t: Table, items: seq<Write>, pick: map<RowId, nat>, k: nat, r: RowId)
    requires k < |items| && items[k].change.Assign? && r in t && r in pick && pick[r] == k
    requires forall q :: q in pick && pick[q] == k ==> q == r
    ensures Changed(PickedUpTo(t, items, pick, k), {r}, items[k].change) == PickedUpTo(t, items, pick, k + 1)
  {
    var u, v := PickedUpTo(t, items, pick, k), PickedUpTo(t, items, pick, k + 1);
    assert forall q :: q in t && q != r ==> u[q] == v[q];
  }

  lemma {:induction false} ReadyRuns(t: Table, items: seq<Write>, pick: map<RowId, nat>, k: nat, keys: set<Col>)
    requires Uniform(items, keys) && k <= |items| && AllReady(t, items, pick)
    ensures OneByOne(t, items, k) == Ok(PickedUpTo(t, items, pick, k))
  {
    hide Ready, Picks, Uniform, PickedUpTo, SingleWrite;
    if k == 0 {
      PickedNone(t, items, pick);
    } else {
      ReadyRuns(t, items, pick, k - 1, keys);
      assert Ready(t, items, k - 1, pick) && Picks(t, items, pick);
      ReadyStep(t, items, pick, k - 1, keys);
    }
  }

  lemma PickedNone(t: Table, items: seq<Write>, pick: map<RowId, nat>)
    ensures PickedUpTo(t, items, pick, 0) == t
  {
  }

  /** A sequential run that got past `k` items over distinct rows found each of them ready. */
  lemma {:induction false} RunsReady(t: Table, items: seq<Write>, pick: map<RowId, nat>, k: nat, keys: set<Col>)
    requires Uniform(items, keys) && k <= |items| && Picks(t, items, pick) && DistinctRows(t, items)
    requires OneByOne(t, items, k).Ok?
    ensures OneByOne(t, items, k) == Ok(PickedUpTo(t, items, pick, k))
    ensures forall i :: 0 <= i < k ==> Ready(t, items, i, pick)
  {
    if k == 0 {
      PickedNone(t, items, pick);
    } else {
      RunsReady(t, items, pick, k - 1, keys);
      hide Ready, Picks, Uniform, PickedUpTo, SingleWrite, DistinctRows;
      WroteReady(t, items, pick, k - 1, keys);
      ReadyStep(t, items, pick, k - 1, keys);
    }
  }

  lemma WroteReady(t: Table, items: seq<Write>, pick: map<RowId, nat>, k: nat, keys: set<Col>)
    requires Uniform(items, keys) && k < |items| && Picks(t, items, pick) && DistinctRows(t, items)
    requires SingleWrite(PickedUpTo(t, items, pick, k), items[k]).Ok?
    ensures Ready(t, items, k, pick)
  {
    var u, w := PickedUpTo(t, items, pick, k), items[k];
    assert UniformItem(w, keys);
    PickedMatched(t, items, pick, k, w.conds, keys);
    var r :| r in Hits(u, w);
    assert r in Matched(t, w.conds);
    SubsetSize({r}, Matched(t, w.conds));
    var only := SingleElement(Matched(t, w.conds));
    assert Matched(t, w.conds) == {r};
    NotEarlier(t, items, pick, k, r);
    assert u[r] == t[r];
    assert ItemHits(t, items, k, r);
    assert r in BulkHits(t, items);
    NotEarlier(t, items, pick, k, r);
  }

  lemma NotEarlier(t: Table, items: seq<Write>, pick: map<RowId, nat>, k: nat, r: RowId)
    requires k < |items| && Picks(t, items, pick) && DistinctRows(t, items) && r in Matched(t, items[k].conds)
    ensures r in pick ==> pick[r] == k
  {
    if r in pick {
      assert ItemHits(t, items, pick[r], r);
      assert r in Matched(t, items[pick[r]].conds);
    }
  }

  lemma OnlyMatch(t: Table, w: Write, r: RowId)
    requires |Matched(t, w.conds)| <= 1 && r in Hits(t, w)
    ensures ReadyRow(t, w, r)
  {
    assert r in Matched(t, w.conds);
    SubsetSize({r}, Matched(t, w.conds));
    var only := SingleElement(Matched(t, w.conds));
  }

  lemma BulkReady(t: Table, items: seq<Write>, pick: map<RowId, nat>, keys: set<Col>)
    requires Uniform(items, keys) && Picks(t, items, pick) && Bulk(t, t, t, items, true, pick).Ok?
    ensures AllReady(t, items, pick)
  {
    assert Identifies(t, items);
    CommittedMeansEachItsOwn(t, t, t, items, pick, keys);
    var u := PickedUpTo(t, items, pick, |items|);
    hide Bulk, PickedUpTo, Matched, Picks, Uniform;
    forall i | 0 <= i < |items| ensures Ready(t, items, i, pick) {
      assert WroteOwn(t, u, items, i, pick);
      var r :| WroteRow(t, u, items[i], r) && r in pick && pick[r] == i;
      OnlyMatch(t, items[i], r);
    }
  }

  lemma ReadyItem(t: Table, items: seq<Write>, i: nat, pick: map<RowId, nat>)
    requires Ready(t, items, i, pick)
    ensures |Matched(t, items[i].conds)| <= 1 && !StaleItem(t, items[i]) && OwnRow(t, items, i)
  {
    var r :| ReadyRow(t, items[i], r) && r in pick && pick[r] == i;
    ReadyRowHits(t, items[i], r);
    assert forall q :: q in Matched(t, items[i].conds) ==> q == r;
  }

  lemma ReadyBulk(t: Table, items: seq<Write>, pick: map<RowId, nat>, keys: set<Col>)
    requires Uniform(items, keys) && AllReady(t, items, pick)
    ensures Bulk(t, t, t, items, true, pick) == Ok(PickedUpTo(t, items, pick, |items|))
  {
    hide Matched, StaleItem, Picks, Uniform, PickedUpTo, Ready, OwnRow;
    forall i | 0 <= i < |items| ensures |Matched(t, items[i].conds)| <= 1 && !StaleItem(t, items[i]) && OwnRow(t, items, i) {
      ReadyItem(t, items, i, pick);
    }
    assert Identifies(t, items) && AllOwn(t, items, |items|);
    ReadyApart(t, items, pick);
    RaceGuardCounts(t, items);
  }

  lemma ReadyApart(t: Table, items: seq<Write>, pick: map<RowId, nat>)
    requires AllReady(t, items, pick)
    ensures Apart(t, items, |items|) && DistinctRows(t, items)
  {
    forall i, j | 0 <= i < j < |items| ensures Matched(t, items[i].conds) !! Matched(t, items[j].conds)
      && Hits(t, items[i]) !! Hits(t, items[j]) {
      assert Ready(t, items, i, pick) && Ready(t, items, j, pick);
      var r :| ReadyRow(t, items[i], r) && r in pick && pick[r] == i;
      var q :| ReadyRow(t, items[j], q) && q in pick && pick[q] == j;
      assert Hits(t, items[i]) <= Matched(t, items[i].conds) && Hits(t, items[j]) <= Matched(t, items[j].conds);
    }
  }

  /** On a table no one else writes: a guarded batch commits exactly when its items name distinct rows and the writes
      one by one all succeed; then both leave the same table. */
  lemma BulkIsOneByOne(t: Table, items: seq<Write>, pick: map<RowId, nat>, keys: set<Col>)
    requires Uniform(items, keys) && Picks(t, items, pick)
    ensures Bulk(t, t, t, items, true, pick).Ok? <==> DistinctRows(t, items) && OneByOne(t, items, |items|).Ok?
    ensures Bulk(t, t, t, items, true, pick).Ok? ==> Bulk(t, t, t, items, true, pick) == OneByOne(t, items, |items|)
  {
    hide Bulk, OneByOne, Uniform, Picks, DistinctRows, Ready;
    if Bulk(t, t, t, items, true, pick).Ok? {
      BulkReady(t, items, pick, keys);
      ReadyBulk(t, items, pick, keys);
      ReadyRuns(t, items, pick, |items|, keys);
      ReadyApart(t, items, pick);
    }
    if DistinctRows(t, items) && OneByOne(t, items, |items|).Ok? {
      RunsReady(t, items, pick, |items|, keys);
      ReadyBulk(t, items, pick, keys);
    }
  }

  /** Over distinct rows it makes no difference whether each write is tried on the original table. */
  lemma EachAloneSucceeds(t: Table, items: seq<Write>, pick: map<RowId, nat>, keys: set<Col>)
    requires Uniform(items, keys) && Picks(t, items, pick) && DistinctRows(t, items)
    ensures Bulk(t, t, t, items, true, pick).Ok? <==> forall i :: 0 <= i < |items| ==> SingleWrite(t, items[i]).Ok?
  {
    hide Bulk, OneByOne;
    if Bulk(t, t, t, items, true, pick).Ok? {
      BulkReady(t, items, pick, keys);
      forall i | 0 <= i < |items| ensures SingleWrite(t, items[i]).Ok? {
        assert Ready(t, items, i, pick);
        ReadyAlone(t, items, i, pick);
      }
    }
    if forall i :: 0 <= i < |items| ==> SingleWrite(t, items[i]).Ok? {
      forall i | 0 <= i < |items| ensures Ready(t, items, i, pick) { AloneReady(t, items, i, pick); }
      ReadyBulk(t, items, pick, keys);
    }
  }

  lemma ReadyAlone(t: Table, items: seq<Write>, i: nat, pick: map<RowId, nat>)
    requires Ready(t, items, i, pick)
    ensures SingleWrite(t, items[i]).Ok?
  {
    var r :| ReadyRow(t, items[i], r) && r in pick && pick[r] == i;
    ReadyRowHits(t, items[i], r);
  }

  lemma AloneReady(t: Table, items: seq<Write>, i: nat, pick: map<RowId, nat>)
    requires i < |items| && Picks(t, items, pick) && DistinctRows(t, items) && SingleWrite(t, items[i]).Ok?
    ensures Ready(t, items, i, pick)
  {
    var w := items[i];
    var r :| r in Hits(t, w);
    assert r in Matched(t, w.conds);
    SubsetSize({r}, Matched(t, w.conds));
    var only := SingleElement(Matched(t, w.conds));
    assert ItemHits(t, items, i, r);
    assert r in BulkHits(t, items);
    NotEarlier(t, items, pick, i, r);
  }

  /** A batch of one is the single-row write, down to the error it raises. */
  lemma BatchOfOne(t: Table, w: Write, pick: map<RowId, nat>)
    requires w.expected.Some? && w.change.Assign? && Picks(t, [w], pick)
    ensures Bulk(t, t, t, [w], true, pick) == SingleWrite(t, w)
  {
    var items := [w];
    OneItem(t, w);
    if |Matched(t, w.conds)| > 1 {
      assert Ambiguous(t, items) by { assert |Matched(t, items[0].conds)| > 1; }
    } else if Hits(t, w) != {} {
      var r :| r in Hits(t, w);
      OnlyMatch(t, w, r);
      ReadyRowHits(t, w, r);
      assert pick.Keys == {r};
      NextPicked(t, items, pick, 0, r);
      assert PickedUpTo(t, items, pick, 0) == t;
      assert !StaleItem(t, w);
    } else {
      OneItemErrors(t, w);
    }
  }

  lemma OneItem(t: Table, w: Write)
    ensures BulkHits(t, [w]) == Hits(t, w)
    ensures Ambiguous(t, [w]) <==> |Matched(t, w.conds)| > 1
  {
    assert forall r :: ItemHits(t, [w], 0, r) <==> r in Hits(t, w);
    assert Ambiguous(t, [w]) <==> |Matched(t, [w][0].conds)| > 1;
  }

  lemma OneItemErrors(t: Table, w: Write)
    requires w.expected.Some? && Hits(t, w) == {}
    ensures StaleCode(t, [w]) == Some(ZeroRows(t, w))
  {
    if Matched(t, w.conds) == {} {
      assert StaleItem(t, [w][0]);
      if PartlySeen(t, w.conds) && |w.conds| == 1 {
        var c :| c in w.conds && Matched(t, map[c := w.conds[c]]) != {};
        SingleCond(w.conds, c);
      }
      if |w.conds| == 0 { assert w.conds == map[]; }
      assert Incoherent(t, [w][0]) <==> PartlySeen(t, w.conds);
    } else {
      var r :| r in Matched(t, w.conds);
      assert r !in Hits(t, w);
      assert StaleItem(t, [w][0]);
    }
  }

  lemma SingleCond(conds: Fields, c: Col)
    requires |conds| == 1 && c in conds
    ensures conds == map[c := conds[c]]
  {
    var only := SingleElement(conds.Keys);
  }

  // ----- where the guards are needed

  function TwoSevens(): Table {
    map[0 := Row(1, map["code" := V(7)]), 1 := Row(1, map["code" := V(7)])]
  }

  function SevenAndEight(): seq<Write> {
    [Write(map["code" := V(7)], Some(1), Assign(map["x" := V(1)], true)),
     Write(map["code" := V(8)], Some(1), Assign(map["x" := V(2)], true))]
  }

  function SevenEight(): Table {
    map[0 := Row(1, map["code" := V(7)]), 1 := Row(1, map["code" := V(8)])]
  }

  /** Without unique identity columns: both checks pass, another client then gives the second row the first one's code, and
      the batch commits with a full count although one item wrote two rows and the other none. */
  lemma SharedIdentityFoolsTheCount()
    ensures var t, late, items, pick := SevenEight(), TwoSevens(), SevenAndEight(), map[0 := 0, 1 := 0];
      Picks(late, items, pick) && Bulk(t, t, late, items, true, pick).Ok?
      && Hits(late, items[0]) == {0, 1} && Hits(late, items[1]) == {}
  {
    var t, late, items, pick := SevenEight(), TwoSevens(), SevenAndEight(), map[0 := 0, 1 := 0];
    SevensHit();
    EightsHit();
    assert forall i, r :: ItemHits(late, items, i, r) <==> i == 0 && r in {0, 1};
    assert ItemHits(late, items, 0, 0) && ItemHits(late, items, 0, 1);
    assert BulkHits(late, items) == {0, 1};
    hide Hits, Matched, BulkHits;
  }

  lemma SevensHit()
    ensures Hits(TwoSevens(), SevenAndEight()[0]) == {0, 1} && Hits(TwoSevens(), SevenAndEight()[1]) == {}
  {
    var row, items := Row(1, map["code" := V(7)]), SevenAndEight();
    assert TwoSevens().Keys == {0, 1};
    assert Matches(row, items[0].conds) && !Matches(row, items[1].conds) by { assert "code" in items[1].conds; }
  }

  lemma EightsHit()
    ensures var t, items := SevenEight(), SevenAndEight();
      Matched(t, items[0].conds) == {0} && Matched(t, items[1].conds) == {1}
      && !Ambiguous(t, items) && StaleCode(t, items) == None
  {
    var t, items := SevenEight(), SevenAndEight();
    assert t.Keys == {0, 1};
    assert "code" in items[0].conds && "code" in items[1].conds;
    assert Matches(t[0], items[0].conds) && Matches(t[1], items[1].conds);
    assert !Matches(t[0], items[1].conds) && !Matches(t[1], items[0].conds);
    assert Matched(t, items[0].conds) == {0} && Matched(t, items[1].conds) == {1};
  }

  predicate Unversioned(items: seq<Write>) {
    forall i :: 0 <= i < |items| ==> items[i].expected == None
  }

  /** Without a version column a batch commits unless an item names two rows. Over distinct rows the writes one by one
      succeed exactly when it commits and every item names a row, and then both leave the same table. */
  lemma UnguardedBatchExactly(t: Table, items: seq<Write>, pick: map<RowId, nat>, keys: set<Col>)
    requires Uniform(items, keys) && Unversioned(items) && Picks(t, items, pick)
    ensures Bulk(t, t, t, items, false, pick).Ok? <==> Identifies(t, items)
    ensures DistinctRows(t, items) ==>
      (OneByOne(t, items, |items|).Ok? <==>
        Bulk(t, t, t, items, false, pick).Ok? && forall i :: 0 <= i < |items| ==> !Vanished(t, items[i]))
    ensures DistinctRows(t, items) && OneByOne(t, items, |items|).Ok? ==>
      OneByOne(t, items, |items|) == Bulk(t, t, t, items, false, pick)
  {
    hide OneByOne, Uniform, Picks, DistinctRows, Ready, Matched, PickedUpTo;
    if DistinctRows(t, items) {
      if OneByOne(t, items, |items|).Ok? {
        RunsReady(t, items, pick, |items|, keys);
        forall i | 0 <= i < |items| ensures |Matched(t, items[i].conds)| <= 1 && !Vanished(t, items[i]) {
          ReadyItem(t, items, i, pick);
        }
      }
      if Identifies(t, items) && forall i :: 0 <= i < |items| ==> !Vanished(t, items[i]) {
        forall i | 0 <= i < |items| ensures Ready(t, items, i, pick) { NamedReady(t, items, i, pick); }
        ReadyRuns(t, items, pick, |items|, keys);
      }
    }
  }

  lemma NamedReady(t: Table, items: seq<Write>, i: nat, pick: map<RowId, nat>)
    requires i < |items| && Picks(t, items, pick) && DistinctRows(t, items)
    requires |Matched(t, items[i].conds)| <= 1 && !Vanished(t, items[i]) && items[i].expected == None
    ensures Ready(t, items, i, pick)
  {
    var r :| r in Matched(t, items[i].conds);
    assert r in Hits(t, items[i]);
    OnlyMatch(t, items[i], r);
    assert ItemHits(t, items, i, r);
    assert r in BulkHits(t, items);
    NotEarlier(t, items, pick, i, r);
  }

  /** For example: no row at all. */
  lemma UnguardedBatchSkips()
    ensures var t: Table := map[];
      var items := [Write(map["id" := V(1)], None, Assign(map["x" := V(1)], false))];
      Bulk(t, t, t, items, false, map[]) == Ok(t) && OneByOne(t, items, 1).Err?
  {
    var t: Table := map[];
    var items := [Write(map["id" := V(1)], None, Assign(map["x" := V(1)], false))];
    assert PickedUpTo(t, items, map[], 1) == t;
    assert OneByOne(t, items, 0) == Ok(t);
  }
}

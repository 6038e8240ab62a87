/** What a run over patches without controls leaves, said of the files and of the rows and log at its start. */
module MigrationOutcomes {
  import opened Outcomes
  import opened PatchRegistry
  import opened MigrationMachine
  import opened MigrationInvariants
  import opened MigrationPrograms

  predicate PlainFiles(files: seq<File>) {
    forall i :: 0 <= i < |files| ==> Plain(files[i].content)
  }

  ghost predicate DistinctFiles(files: seq<File>) {
    forall i, j :: 0 <= i < j < |files| ==> files[i].name != files[j].name
  }

  /** The effects of the files before `m` that were not settled at the start, all of each, in file order. */
  function Durable(files: seq<File>, m: nat, start: Rows): seq<Entry>
    requires PlainFiles(files) && m <= |files|
  {
    if m == 0 then []
    else
      var f := files[m - 1];
      Durable(files, m - 1, start) + if Settled(start, f.name) then [] else Entries(f.name, AllTags(f.content.segments))
  }

  ghost predicate SameRow(before: Rows, after: Rows, n: Name) {
    (n in after <==> n in before) && (n in before ==> after[n] == before[n])
  }

  /** The row of a patch that was applied: one transaction for everything exactly when it is one transactional segment. */
  ghost predicate AppliedRow(before: Rows, after: Rows, o: Options, f: File, ms: nat) {
    f.name in after
    && var r, s := after[f.name], f.content.segments;
       r.status == Applied && r.hash == f.content.sha && r.keyId == o.keyId && r.error == None && r.durationMs == Some(ms)
       && r.attempts == AttemptsOf(before, f.name) + 1 && (o.actor.Some? ==> r.appliedBy == o.actor)
       && (r.atomic <==> |s| == 1 && s[0].transactional)
  }

  /** The row of a patch that failed or waits for review. */
  ghost predicate MarkedRow(before: Rows, after: Rows, o: Options, f: File, status: Status, error: Option<string>) {
    f.name in after
    && var r := after[f.name];
       r.status == status && r.hash == f.content.sha && r.keyId == o.keyId && r.error == error
       && r.attempts == AttemptsOf(before, f.name) + 1 && (o.actor.Some? ==> r.appliedBy == o.actor)
       && (r.atomic <==> !f.content.noTransaction)
  }

  ghost predicate Touched(o: Options, start: Rows, m: nat, n: Name) {
    exists i :: 0 <= i < m && i < |o.files| && o.files[i].name == n && !Settled(start, n)
  }

  ghost predicate AppliedRows(o: Options, before: Rows, after: Rows, m: nat, ms: nat) {
    forall i :: 0 <= i < m && i < |o.files| && !Settled(before, o.files[i].name) ==> AppliedRow(before, after, o, o.files[i], ms)
  }

  /** After the first `m` files. */
  ghost predicate Progressed(o: Options, before: Store, now: Store, m: nat, ms: nat)
    requires PlainFiles(o.files) && m <= |o.files|
  {
    now.log == before.log + Durable(o.files, m, before.rows) && AppliedRows(o, before.rows, now.rows, m, ms)
    && forall n :: !Touched(o, before.rows, m, n) ==> SameRow(before.rows, now.rows, n)
  }

  lemma ProgressStarts(o: Options, d: Store, ms: nat)
    requires PlainFiles(o.files)
    ensures Progressed(o, d, d, 0, ms)
  {
  }

  lemma ProgressSkips(o: Options, before: Store, now: Store, m: nat, ms: nat)
    requires PlainFiles(o.files) && m < |o.files| && Progressed(o, before, now, m, ms)
    requires Settled(before.rows, o.files[m].name)
    ensures Progressed(o, before, now, m + 1, ms)
  {
    hide AppliedRow, SameRow, Settled;
    forall n | !Touched(o, before.rows, m + 1, n) ensures SameRow(before.rows, now.rows, n) {
      assert !Touched(o, before.rows, m, n);
    }
  }

  lemma NotYetTouched(o: Options, start: Rows, m: nat)
    requires DistinctFiles(o.files) && m < |o.files|
    ensures !Touched(o, start, m, o.files[m].name)
  {
  }

  /** One more patch with all its effects and its row. */
  lemma ProgressApplies(o: Options, before: Store, now: Store, after: Store, m: nat, ms: nat)
    requires PlainFiles(o.files) && DistinctFiles(o.files) && m < |o.files| && Progressed(o, before, now, m, ms)
    requires !Settled(before.rows, o.files[m].name)
    requires var f := o.files[m];
      after == Registered(Logged(now, f, AllTags(f.content.segments)), f, Success(o, f, ms))
    ensures Progressed(o, before, after, m + 1, ms)
  {
    var f := o.files[m];
    NotYetTouched(o, before.rows, m);
    assert after.rows == Upserted(now.rows, f.name, Success(o, f, ms));
    assert after.log == now.log + Entries(f.name, AllTags(f.content.segments));
    assert SameRow(before.rows, now.rows, f.name);
    assert AppliedRow(before.rows, after.rows, o, f, ms);
    OthersStay(o, before.rows, now.rows, after.rows, m, ms);
    forall n | !Touched(o, before.rows, m + 1, n) ensures SameRow(before.rows, after.rows, n) {
      assert n != f.name && !Touched(o, before.rows, m, n);
    }
    hide Settled, Upserted, AppliedRow, Touched, Logged, Registered;
  }

  /** What is written to the row of file `m` leaves the rows of the files before it. */
  lemma OthersStay(o: Options, before: Rows, now: Rows, after: Rows, m: nat, ms: nat)
    requires DistinctFiles(o.files) && m < |o.files| && AppliedRows(o, before, now, m, ms)
    requires forall n :: n in now && n != o.files[m].name ==> n in after && after[n] == now[n]
    ensures AppliedRows(o, before, after, m, ms)
  {
    forall i | 0 <= i < m && i < |o.files| && !Settled(before, o.files[i].name)
      ensures AppliedRow(before, after, o, o.files[i], ms) {
      assert AppliedRow(before, now, o, o.files[i], ms);
      assert o.files[i].name != o.files[m].name;
    }
  }

  /** Patch `f` failed with the first `j` of its effects durable; the marker is written unless that fails as well. */
  ghost predicate FailedAfter(d: Store, e: Store, o: Options, f: File, r: Outcome, j: nat)
    requires Plain(f.content)
  {
    j <= |AllTags(f.content.segments)| && (Atomic(f.content) ==> j == 0)
    && e == Logged(d, f, AllTags(f.content.segments)[..j])
            .(rows := if r.Threw? then d.rows else Upserted(d.rows, f.name, Failure(o, f, "failed")))
  }

  /** Of the patch at which the run stopped an initial part of the effects may be durable, none when it is one transaction. */
  ghost predicate LogLeft(o: Options, before: Store, after: Store, m: nat, j: nat)
    requires PlainFiles(o.files) && m < |o.files|
  {
    var c := o.files[m].content;
    j <= |AllTags(c.segments)| && (|c.segments| == 1 && c.segments[0].transactional ==> j == 0)
    && after.log == before.log + Durable(o.files, m, before.rows) + Entries(o.files[m].name, AllTags(c.segments)[..j])
  }

  /** The whole effect of a run that handled the files before `m`. With all of them handled: their effects and their rows, nothing
      else. Otherwise file `m` waits for review, or failed; it has the one other row that changed, unless that could not be
      written. */
  ghost predicate Left(o: Options, before: Store, after: Store, r: Outcome, m: nat, review: bool, ms: nat)
    requires PlainFiles(o.files) && m <= |o.files|
  {
    AppliedRows(o, before.rows, after.rows, m, ms)
    && (m == |o.files| ==> after.log == before.log + Durable(o.files, m, before.rows))
    && (m < |o.files| ==> exists j :: (review ==> j == 0) && LogLeft(o, before, after, m, j))
    && (m < |o.files| && r.Returned? ==>
          MarkedRow(before.rows, after.rows, o, o.files[m], if review then Status.PendingReview else Failed,
                    if review then None else Some("failed")))
    && forall n :: !Touched(o, before.rows, m, n) && !(m < |o.files| && n == o.files[m].name && r.Returned?) ==>
         SameRow(before.rows, after.rows, n)
  }

  lemma LeftAtEnd(o: Options, before: Store, after: Store, r: Outcome, ms: nat)
    requires PlainFiles(o.files) && Progressed(o, before, after, |o.files|, ms)
    ensures Left(o, before, after, r, |o.files|, false, ms)
  {
  }

  lemma LeftAtReview(o: Options, before: Store, now: Store, after: Store, r: Outcome, m: nat, ms: nat)
    requires PlainFiles(o.files) && DistinctFiles(o.files) && m < |o.files| && Progressed(o, before, now, m, ms)
    requires r.Returned?
    requires after == now.(rows := Upserted(now.rows, o.files[m].name, ReviewWanted(o, o.files[m])))
    ensures Left(o, before, after, r, m, true, ms)
  {
    var f := o.files[m];
    NotYetTouched(o, before.rows, m);
    assert SameRow(before.rows, now.rows, f.name);
    assert MarkedRow(before.rows, after.rows, o, f, Status.PendingReview, None);
    OthersStay(o, before.rows, now.rows, after.rows, m, ms);
    assert Entries(f.name, AllTags(f.content.segments)[..0]) == [];
    assert LogLeft(o, before, after, m, 0);
    hide Settled, AppliedRow, MarkedRow, Touched, LogLeft, Durable;
  }

  lemma LeftAtFailure(o: Options, before: Store, now: Store, after: Store, r: Outcome, m: nat, ms: nat, j: nat)
    requires PlainFiles(o.files) && DistinctFiles(o.files) && m < |o.files| && Progressed(o, before, now, m, ms)
    requires FailedAfter(now, after, o, o.files[m], r, j)
    ensures Left(o, before, after, r, m, false, ms)
  {
    var f := o.files[m];
    NotYetTouched(o, before.rows, m);
    assert SameRow(before.rows, now.rows, f.name);
    assert r.Returned? ==> MarkedRow(before.rows, after.rows, o, f, Failed, Some("failed"));
    OthersStay(o, before.rows, now.rows, after.rows, m, ms);
    assert LogLeft(o, before, after, m, j);
    hide Settled, AppliedRow, MarkedRow, Touched, LogLeft, Durable;
  }

  lemma ViewDistinct(o: Options, G: seq<Name>)
    requires Distinct(G) && View(o, G)
    ensures DistinctFiles(o.files)
  {
  }
}

/** The per-schema patch registry: the engine's upsert and the admin transitions. */
module PatchRegistry {
  import opened Outcomes

  type Name = string
  type Hash = string

  datatype Status = Pending | Applied | Failed | PendingReview | Approved | ResolvedManual

  datatype Row = Row(status: Status, hash: Hash, keyId: Option<string>, attempts: nat, durationMs: Option<nat>,
                     error: Option<string>, appliedBy: Option<string>, resolvedBy: Option<string>,
                     resolvedNote: Option<string>, atomic: bool)

  type Rows = map<Name, Row>

  predicate Settled(rows: Rows, n: Name) {
    n in rows && (rows[n].status == Applied || rows[n].status == ResolvedManual)
  }

  predicate IsApplied(rows: Rows, n: Name) {
    n in rows && rows[n].status == Applied
  }

  function Coalesce<T>(a: Option<T>, b: Option<T>): Option<T> {
    if a.Some? then a else b
  }

  /** What the engine records about one attempt. */
  datatype Attempt = Attempt(hash: Hash, status: Status, keyId: Option<string>, durationMs: Option<nat>,
                             error: Option<string>, actor: Option<string>, atomic: bool)

  function AttemptsOf(rows: Rows, n: Name): nat {
    if n in rows then rows[n].attempts else 0
  }

  /** A known actor, duration or admin note is never lost. */
  predicate Remembers(before: Row, after: Row) {
    after.resolvedBy == before.resolvedBy && after.resolvedNote == before.resolvedNote
    && (before.durationMs.Some? ==> after.durationMs.Some?) && (before.appliedBy.Some? ==> after.appliedBy.Some?)
  }

  /** INSERT … ON CONFLICT DO UPDATE: the hash follows the file of this attempt. */
  function Upserted(rows: Rows, n: Name, a: Attempt): (r: Rows)
    ensures r.Keys == rows.Keys + {n} && r[n].status == a.status && r[n].hash == a.hash
    ensures r[n].keyId == a.keyId && r[n].error == a.error && r[n].atomic == a.atomic
    ensures r[n].attempts == AttemptsOf(rows, n) + 1
    ensures (a.durationMs.Some? ==> r[n].durationMs == a.durationMs) && (a.actor.Some? ==> r[n].appliedBy == a.actor)
    ensures n in rows ==> Remembers(rows[n], r[n])
    ensures n in rows && a.durationMs == None ==> r[n].durationMs == rows[n].durationMs
    ensures n in rows && a.actor == None ==> r[n].appliedBy == rows[n].appliedBy
    ensures forall m :: m in rows && m != n ==> r[m] == rows[m]
  {
    var row :=
      if n in rows then
        var prev := rows[n];
        Row(a.status, a.hash, a.keyId, prev.attempts + 1, Coalesce(a.durationMs, prev.durationMs), a.error,
            Coalesce(a.actor, prev.appliedBy), prev.resolvedBy, prev.resolvedNote, a.atomic)
      else
        Row(a.status, a.hash, a.keyId, 1, a.durationMs, a.error, a.actor, None, None, a.atomic);
    rows[n := row]
  }

  /** The registry after a list of attempts. */
  function UpsertedAll(rows: Rows, log: seq<(Name, Attempt)>): Rows {
    if log == [] then rows
    else Upserted(UpsertedAll(rows, log[..|log| - 1]), log[|log| - 1].0, log[|log| - 1].1)
  }

  function TriesOf(log: seq<(Name, Attempt)>, n: Name): nat {
    if log == [] then 0 else TriesOf(log[..|log| - 1], n) + if log[|log| - 1].0 == n then 1 else 0
  }

  /** The last attempt at `n` that names an actor. */
  function LastActor(log: seq<(Name, Attempt)>, n: Name): Option<string> {
    if log == [] then None
    else
      var (m, a) := log[|log| - 1];
      if m == n && a.actor.Some? then a.actor else LastActor(log[..|log| - 1], n)
  }

  /** From an empty registry: a row counts its attempts and names the last known actor, whatever happened to others. */
  lemma {:induction false} AttemptsAreCounted(log: seq<(Name, Attempt)>, n: Name)
    ensures n in UpsertedAll(map[], log) <==> TriesOf(log, n) > 0
    ensures AttemptsOf(UpsertedAll(map[], log), n) == TriesOf(log, n)
    ensures n in UpsertedAll(map[], log) ==> UpsertedAll(map[], log)[n].appliedBy == LastActor(log, n)
    ensures n !in UpsertedAll(map[], log) ==> LastActor(log, n) == None
  {
    if log != [] { AttemptsAreCounted(log[..|log| - 1], n); }
  }

  /** What only the engine writes. */
  predicate SameRun(before: Row, after: Row) {
    after.hash == before.hash && after.keyId == before.keyId && after.attempts == before.attempts
    && after.durationMs == before.durationMs && after.appliedBy == before.appliedBy && after.atomic == before.atomic
  }

  /** A failed row waits for its next try, without its error, under the name of who asked; the note stays. */
  function Retried(rows: Rows, actor: Option<string>): (r: Rows)
    ensures r.Keys == rows.Keys
    ensures forall n :: n in rows ==> r[n].hash == rows[n].hash
    ensures forall n :: n in rows ==> r[n].status == if rows[n].status == Failed then Pending else rows[n].status
    ensures forall n :: n in rows && rows[n].status == Failed ==>
      SameRun(rows[n], r[n]) && r[n].error == None && r[n].resolvedBy == actor && r[n].resolvedNote == rows[n].resolvedNote
    ensures forall n :: n in rows && rows[n].status != Failed ==> r[n] == rows[n]
  {
    map n | n in rows :: if rows[n].status == Failed then rows[n].(status := Pending, error := None, resolvedBy := actor) else rows[n]
  }

  /** The row names the admin and the note, if there is one; nothing else changes. */
  function ApprovedRows(rows: Rows, n: Name, actor: string, note: Option<string>): (r: Rows)
    ensures r.Keys == rows.Keys
    ensures forall m :: m in rows ==> r[m].hash == rows[m].hash && (m != n ==> r[m] == rows[m])
    ensures n in rows ==> r[n].status == if rows[n].status == PendingReview then Approved else rows[n].status
    ensures n in rows && rows[n].status == PendingReview ==>
      SameRun(rows[n], r[n]) && r[n].resolvedBy == Some(actor) && r[n].resolvedNote == note && r[n].error == rows[n].error
    ensures n in rows && rows[n].status != PendingReview ==> r[n] == rows[n]
  {
    if n in rows && rows[n].status == PendingReview then
      rows[n := rows[n].(status := Approved, resolvedBy := Some(actor), resolvedNote := note)]
    else rows
  }

  predicate Resolvable(s: Status) { s == Failed || s == Pending || s == PendingReview }

  /** The row names the admin and the reason, and its error is gone; nothing else changes. */
  function ResolvedRows(rows: Rows, n: Name, actor: string, note: string): (r: Rows)
    ensures r.Keys == rows.Keys
    ensures forall m :: m in rows ==> r[m].hash == rows[m].hash && (m != n ==> r[m] == rows[m])
    ensures n in rows ==>
      if rows[n].status in {Failed, Pending, PendingReview} then
        r[n].status == ResolvedManual && SameRun(rows[n], r[n]) && r[n].resolvedBy == Some(actor)
        && r[n].resolvedNote == Some(note) && r[n].error == None
      else r[n] == rows[n]
  {
    if n in rows && Resolvable(rows[n].status) then
      rows[n := rows[n].(status := ResolvedManual, resolvedBy := Some(actor), resolvedNote := Some(note), error := None)]
    else rows
  }

  class Registry {
    var rows: Rows

    constructor ()
      ensures rows == map[]
    {
      rows := map[];
    }

    /** failed → pending for every failed patch. */
    method RetryFailedPatches(actor: Option<string>) returns (changed: nat)
      modifies this
      ensures rows == Retried(old(rows), actor)
      ensures changed == |set n | n in old(rows) && old(rows)[n].status == Failed|
    {
      changed := |set n | n in rows && rows[n].status == Failed|;
      rows := Retried(rows, actor);
    }

    /** pending_review → approved for one patch. */
    method ApprovePendingReview(n: Name, actor: string, note: Option<string>) returns (done: bool)
      modifies this
      ensures rows == ApprovedRows(old(rows), n, actor, note)
      ensures done <==> rows != old(rows)
      ensures done <==> n in old(rows) && old(rows)[n].status == PendingReview
    {
      done := n in rows && rows[n].status == PendingReview;
      if done {
        var row := rows[n].(status := Approved, resolvedBy := Some(actor), resolvedNote := note);
        assert row != rows[n];
        rows := rows[n := row];
      }
    }

    /** failed, pending or pending_review → resolved_manual for one patch. */
    method ResolveManually(n: Name, actor: string, note: string) returns (done: bool)
      modifies this
      ensures rows == ResolvedRows(old(rows), n, actor, note)
      ensures done <==> rows != old(rows)
      ensures done <==> n in old(rows) && Resolvable(old(rows)[n].status)
    {
      done := n in rows && Resolvable(rows[n].status);
      if done {
        var row := rows[n].(status := ResolvedManual, resolvedBy := Some(actor), resolvedNote := Some(note), error := None);
        assert row != rows[n];
        rows := rows[n := row];
      }
    }

    method UpsertStatus(n: Name, a: Attempt)
      modifies this
      ensures rows == Upserted(old(rows), n, a)
    {
      rows := Upserted(rows, n, a);
    }
  }
}

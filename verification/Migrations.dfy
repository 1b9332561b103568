/**
 * Schema migrations. Pending migrations are applied in order and recorded; a run
 * may be cut off at any statement, and with transactions it then leaves whole
 * migrations only.
 */
module Migrations {
  import opened Common
  import opened Strings

  datatype Migration = Migration(id: string, name: string, statements: seq<string>)

  datatype Error = Duplicate(id: string) | OutOfOrder(id: string) | CutOff

  datatype RunResult = RunResult(applied: seq<string>, skipped: seq<string>)

  function Ids(ms: seq<Migration>): seq<string> {
    seq(|ms|, i requires 0 <= i < |ms| => ms[i].id)
  }

  /** The statements of the migrations, one migration after another. */
  function Statements(ms: seq<Migration>): seq<string> {
    if ms == [] then [] else Statements(Front(ms)) + Last(ms).statements
  }

  /** How many statements it takes to run these migrations and record each. */
  function Work(ms: seq<Migration>): nat {
    |Statements(ms)| + |ms|
  }

  lemma StatementsAppend(ms: seq<Migration>, m: Migration)
    ensures Statements(ms + [m]) == Statements(ms) + m.statements && Ids(ms + [m]) == Ids(ms) + [m.id]
  {
    assert Front(ms + [m]) == ms;
  }

  lemma {:induction false} WorkConcat(a: seq<Migration>, b: seq<Migration>)
    ensures Work(a + b) == Work(a) + Work(b)
  {
    if b == [] {
      assert a + b == a;
    } else {
      WorkConcat(a, Front(b));
      assert Front(a + b) == a + Front(b);
    }
  }

  /** The work from `n` on is that before `i`, that of the migration at `i` and some more. */
  lemma WorkAt(ms: seq<Migration>, n: nat, i: nat)
    requires n <= i < |ms|
    ensures Work(ms[n..i + 1]) == Work(ms[n..i]) + |ms[i].statements| + 1
    ensures Work(ms[n..i + 1]) <= Work(ms[n..])
  {
    assert ms[n..i + 1] == ms[n..i] + [ms[i]] && ms[n..] == ms[n..i + 1] + ms[i + 1..];
    StatementsAppend(ms[n..i], ms[i]);
    WorkConcat(ms[n..i + 1], ms[i + 1..]);
  }

  // ------------------------------------------------------------- the ordering

  ghost predicate IncreasingUpTo(ids: seq<string>, n: nat)
    requires n <= |ids|
  {
    forall i, j :: 0 <= i < j < n ==> Less(ids[i], ids[j])
  }

  lemma OneMoreIncreases(ids: seq<string>, n: nat)
    requires n < |ids| && IncreasingUpTo(ids, n)
    requires n > 0 ==> Less(ids[n - 1], ids[n])
    ensures IncreasingUpTo(ids, n + 1)
  {
    hide Less;
    forall i | 0 <= i < n
      ensures Less(ids[i], ids[n])
    {
      if i < n - 1 {
        LessTransitive(ids[i], ids[n - 1], ids[n]);
      }
    }
  }

  /** Migrations are accepted exactly when their ids strictly increase. */
  method AssertOrderedMigrations(ms: seq<Migration>) returns (error: Option<Error>)
    ensures error.None? <==> StrictlyIncreasing(Ids(ms))
    ensures error.Some? ==>
              exists i :: 0 <= i < |ms| && IncreasingUpTo(Ids(ms), i) &&
                error == Some(if exists k :: 0 <= k < i && Ids(ms)[k] == ms[i].id then Duplicate(ms[i].id) else OutOfOrder(ms[i].id))
  {
    hide Less;
    ghost var ids := Ids(ms);
    var seen: set<string> := {};
    for i := 0 to |ms|
      invariant forall id :: id in seen <==> exists k :: 0 <= k < i && ids[k] == id
      invariant IncreasingUpTo(ids, i)
    {
      assert ms[i].id == ids[i];
      if ms[i].id in seen {
        ghost var k :| 0 <= k < i && ids[k] == ms[i].id;
        LessIrreflexive(ms[i].id);
        assert !Less(ids[k], ids[i]);
        return Some(Duplicate(ms[i].id));
      }
      seen := seen + {ms[i].id};
      if i > 0 && !Less(ms[i - 1].id, ms[i].id) {
        assert ms[i - 1].id == ids[i - 1];
        assert !Less(ids[i - 1], ids[i]);
        return Some(OutOfOrder(ms[i].id));
      }
      OneMoreIncreases(ids, i);
    }
    error := None;
  }

  // -------------------------------------------------------------- the database

  /** Where every run of one list leaves a database: after some of its migrations, and none in part. */
  ghost predicate AfterPrefix(ms: seq<Migration>, applied: seq<string>, executed: seq<string>, transactional: bool) {
    && |applied| <= |ms|
    && applied == Ids(ms[..|applied|])
    && (transactional ==> executed == Statements(ms[..|applied|]))
  }

  class Database {
    const transactional: bool
    /** The rows of the bookkeeping table. */
    var applied: seq<string>
    /** Every schema statement whose effect stands, in order. */
    var executed: seq<string>
    /** How many more statements run before the connection is lost. */
    var quota: nat

    constructor (transactional: bool)
      ensures this.transactional == transactional && applied == [] && executed == []
    {
      this.transactional := transactional;
      applied, executed, quota := [], [], 0;
    }

    method Execute(statement: string) returns (ok: bool)
      modifies this`executed, this`quota
      ensures ok <==> old(quota) > 0
      ensures executed == if ok then old(executed) + [statement] else old(executed)
      ensures quota == if ok then old(quota) - 1 else 0
    {
      ok := quota > 0;
      if ok {
        executed, quota := executed + [statement], quota - 1;
      }
    }

    /** Enter a migration in the bookkeeping table. */
    method Record(id: string) returns (ok: bool)
      modifies this`applied, this`quota
      ensures ok <==> old(quota) > 0
      ensures applied == if ok then old(applied) + [id] else old(applied)
      ensures quota == if ok then old(quota) - 1 else 0
    {
      ok := quota > 0;
      if ok {
        applied, quota := applied + [id], quota - 1;
      }
    }

    /** Create the bookkeeping table unless it exists, and read it. */
    method ReadApplied() returns (already: Option<set<string>>)
      modifies this`quota
      ensures already.Some? <==> old(quota) >= 2
      ensures already.Some? ==> quota == old(quota) - 2 && already.value == set id | id in applied
    {
      if quota < 2 {
        quota := 0;
        return None;
      }
      quota := quota - 2;
      already := Some(set id | id in applied);
    }

    /**
     * Run a migration's statements and record it, all or nothing where
     * transactions are to be had. It fails only when the connection is lost.
     */
    method ApplyOne(m: Migration) returns (ok: bool)
      modifies this
      ensures ok <==> old(quota) > |m.statements|
      ensures ok ==> quota == old(quota) - |m.statements| - 1
      ensures ok ==> applied == old(applied) + [m.id] && executed == old(executed) + m.statements
      ensures !ok ==> applied == old(applied) && old(executed) <= executed
      ensures !ok && transactional ==> executed == old(executed)
    {
      ghost var before := executed;
      var snapshot := executed;
      for i := 0 to |m.statements|
        invariant executed == before + m.statements[..i] && applied == old(applied)
        invariant quota == old(quota) - i
      {
        var ran := Execute(m.statements[i]);
        if !ran {
          executed := if transactional then snapshot else executed;
          return false;
        }
        assert m.statements[..i + 1] == m.statements[..i] + [m.statements[i]];
      }
      assert m.statements[..|m.statements|] == m.statements;
      ok := Record(m.id);
      if !ok && transactional {
        executed := snapshot;
      }
    }

    /**
     * Apply what is pending, in order. However the run ends, the database is
     * left after a longer prefix of the list. A run finishes exactly when the
     * ids increase and the connection lasts for what is pending; it then leaves
     * the database after the whole list and tells which migrations it applied
     * and which it found.
     */
    method RunMigrations(ms: seq<Migration>) returns (result: Result<RunResult, Error>)
      requires AfterPrefix(ms, applied, executed, transactional)
      modifies this
      ensures AfterPrefix(ms, applied, executed, transactional)
      ensures old(applied) <= applied && old(executed) <= executed
      ensures !StrictlyIncreasing(Ids(ms)) ==> result.Err? && applied == old(applied) && executed == old(executed)
      ensures result.Ok? <==> StrictlyIncreasing(Ids(ms)) && old(quota) >= 2 + Work(ms[|old(applied)|..])
      ensures result.Ok? ==>
                applied == Ids(ms) && result.value == RunResult(Ids(ms)[|old(applied)|..], Ids(ms)[..|old(applied)|])
    {
      hide AfterPrefix, StrictlyIncreasing, Statements, Ids, Work;
      PrefixIsIds(ms, applied, executed, transactional);
      var error := AssertOrderedMigrations(ms);
      if error.Some? {
        return Err(error.value);
      }
      var already := ReadApplied();
      if already.None? {
        return Err(CutOff);
      }
      ghost var n, ids := |applied|, Ids(ms);
      NoWork(ms, n);
      var done, skipped: seq<string> := [], [];
      for i := 0 to |ms|
        invariant AfterPrefix(ms, applied, executed, transactional)
        invariant old(applied) <= applied && old(executed) <= executed
        invariant |applied| == if i <= n then n else i
        invariant skipped == ids[..if i <= n then i else n]
        invariant done == if i <= n then [] else ids[n..i]
        invariant quota == old(quota) - 2 - Work(ms[n..if i <= n then n else i])
      {
        AlreadyApplied(ms, n, i);
        if ms[i].id in already.value {
          skipped := skipped + [ms[i].id];
        } else {
          assert i >= n;
          WorkAt(ms, n, i);
          ghost var before, ran := applied, executed;
          var ok := ApplyOne(ms[i]);
          if !ok {
            PrefixStays(ms, before, ran, executed, transactional);
            return Err(CutOff);
          }
          PrefixGrows(ms, before, ran, transactional);
          done := done + [ms[i].id];
        }
      }
      PrefixIsIds(ms, applied, executed, transactional);
      assert ms[n..|ms|] == ms[n..];
      result := Ok(RunResult(done, skipped));
    }
  }

  lemma NoWork(ms: seq<Migration>, n: nat)
    requires n <= |ms|
    ensures Work(ms[n..n]) == 0
  {
  }

  lemma PrefixIsIds(ms: seq<Migration>, applied: seq<string>, executed: seq<string>, transactional: bool)
    requires AfterPrefix(ms, applied, executed, transactional)
    ensures |applied| <= |ms| == |Ids(ms)| && applied == Ids(ms)[..|applied|]
  {
  }

  lemma PrefixStays(ms: seq<Migration>, applied: seq<string>, executed: seq<string>, more: seq<string>, transactional: bool)
    requires AfterPrefix(ms, applied, executed, transactional) && (transactional ==> more == executed)
    ensures AfterPrefix(ms, applied, more, transactional)
  {
  }

  lemma PrefixGrows(ms: seq<Migration>, applied: seq<string>, executed: seq<string>, transactional: bool)
    requires AfterPrefix(ms, applied, executed, transactional) && |applied| < |ms|
    ensures AfterPrefix(ms, applied + [ms[|applied|].id], executed + ms[|applied|].statements, transactional)
  {
    var n := |applied|;
    assert ms[..n + 1] == ms[..n] + [ms[n]];
    StatementsAppend(ms[..n], ms[n]);
  }

  /** Of increasing ids, exactly the first `n` are among the first `n`. */
  lemma AlreadyApplied(ms: seq<Migration>, n: nat, i: nat)
    requires StrictlyIncreasing(Ids(ms)) && n <= |ms| && i < |ms|
    ensures |Ids(ms)| == |ms| && Ids(ms)[i] == ms[i].id
    ensures ms[i].id in Ids(ms)[..n] <==> i < n
  {
    hide Less;
    var ids := Ids(ms);
    if i < n {
      assert ids[..n][i] == ms[i].id;
    } else {
      forall k | 0 <= k < n
        ensures ids[..n][k] != ms[i].id
      {
        LessIrreflexive(ms[i].id);
        assert Less(ids[k], ids[i]);
      }
    }
  }
}

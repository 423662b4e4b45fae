/** resolver/migrate.go: one ordered migration history, registered by several
    packages and applied by any number of processes to one database. */
module Migrate {
  import opened GoStrings

  datatype Migration = Migration(version: int, name: string, sql: string)

  // ---- the registry ----

  ghost predicate Ordered(ms: seq<Migration>) {
    forall i, j :: 0 <= i < j < |ms| ==> ms[i].version <= ms[j].version
  }

  ghost predicate Distinct(ms: seq<Migration>) {
    forall i, j :: 0 <= i < j < |ms| ==> ms[i].version != ms[j].version
  }

  /** A place in an ordered list for one more. */
  method Insert(ms: seq<Migration>, m: Migration) returns (r: seq<Migration>)
    requires Ordered(ms)
    ensures Ordered(r) && multiset(r) == multiset(ms) + multiset{m}
  {
    var i := |ms|;
    while i > 0 && m.version < ms[i - 1].version
      invariant 0 <= i <= |ms| && forall k :: i <= k < |ms| ==> m.version < ms[k].version
    {
      i := i - 1;
    }
    r := With(ms, m, i);
    InsertedOrdered(ms, m, i);
    InsertedMembers(ms, m, i);
  }

  function With(ms: seq<Migration>, m: Migration, i: nat): (r: seq<Migration>)
    requires i <= |ms|
    ensures |r| == |ms| + 1
    ensures forall k :: 0 <= k < |r| ==> r[k] == if k < i then ms[k] else if k == i then m else ms[k - 1]
  {
    ms[..i] + [m] + ms[i..]
  }

  lemma InsertedOrdered(ms: seq<Migration>, m: Migration, i: nat)
    requires Ordered(ms) && i <= |ms| && (forall k :: i <= k < |ms| ==> m.version < ms[k].version)
    requires i > 0 ==> ms[i - 1].version <= m.version
    ensures Ordered(With(ms, m, i))
  {
    var r := With(ms, m, i);
    forall j, k | 0 <= j < k < |r| ensures r[j].version <= r[k].version {
      if j < i && k == i && j < i - 1 { assert ms[j].version <= ms[i - 1].version; }
    }
  }

  lemma InsertedMembers(ms: seq<Migration>, m: Migration, i: nat)
    requires i <= |ms|
    ensures multiset(With(ms, m, i)) == multiset(ms) + multiset{m}
  {
    assert ms == ms[..i] + ms[i..];
  }

  class Registry {
    var migrations: seq<Migration>

    constructor (own: seq<Migration>)
      ensures migrations == own
    { migrations := own; }

    /** RegisterMigrations: append, then sort the whole list by version. */
    method Register(extra: seq<Migration>)
      modifies this
      ensures Ordered(migrations) && multiset(migrations) == multiset(old(migrations) + extra)
    {
      var all := migrations + extra;
      var sorted: seq<Migration> := [];
      for i := 0 to |all|
        invariant Ordered(sorted) && multiset(sorted) == multiset(all[..i])
      {
        sorted := Insert(sorted, all[i]);
        assert all[..i + 1] == all[..i] + [all[i]];
      }
      assert all[..|all|] == all;
      migrations := sorted;
    }

    /** SchemaVersion, once something has been registered. */
    method SchemaVersion() returns (v: int)
      requires Ordered(migrations)
      ensures migrations == [] ==> v == 0
      ensures migrations != [] ==>
        (exists m :: m in migrations && m.version == v) && forall m :: m in migrations ==> m.version <= v
    {
      if |migrations| == 0 { return 0; }
      v := migrations[|migrations| - 1].version;
    }
  }

  lemma SameMembers(a: seq<Migration>, b: seq<Migration>, m: Migration)
    requires multiset(a) == multiset(b)
    ensures |a| == |b| && (m in a <==> m in b)
  {
    assert |multiset(a)| == |a| && |multiset(b)| == |b|;
    assert m in multiset(a) <==> m in multiset(b);
  }

  /** The last of an ordered list of distinct versions has the highest one. */
  lemma LastIsHighest(a: seq<Migration>, m: Migration)
    requires Ordered(a) && Distinct(a) && m in a
    ensures m.version < a[|a| - 1].version || m == a[|a| - 1]
  {}

  lemma AllButLast(a: seq<Migration>)
    requires a != [] && Ordered(a) && Distinct(a)
    ensures var n := |a| - 1;
      Ordered(a[..n]) && Distinct(a[..n]) && multiset(a[..n]) == multiset(a) - multiset{a[n]} && a == a[..n] + [a[n]]
  {
    assert a == a[..|a| - 1] + [a[|a| - 1]];
  }

  /** The order in which packages register is of no account: an ordered list of
      distinct versions is determined by its members. */
  lemma {:induction false} OrderOfRegistrationIrrelevant(a: seq<Migration>, b: seq<Migration>)
    requires Ordered(a) && Ordered(b) && Distinct(a) && Distinct(b) && multiset(a) == multiset(b)
    ensures a == b
  {
    if a == [] {
      assert multiset(b) == multiset{};
    } else {
      var n := |a| - 1;
      SameMembers(a, b, a[n]);
      SameMembers(a, b, b[n]);
      LastIsHighest(a, b[n]);
      LastIsHighest(b, a[n]);
      AllButLast(a);
      AllButLast(b);
      OrderOfRegistrationIrrelevant(a[..n], b[..n]);
    }
  }

  // ---- one call, undisturbed ----

  class Database {
    var recorded: set<int>      // the versions in schema_migrations
    var log: seq<Migration>     // the SQL committed, in order

    constructor ()
      ensures recorded == {} && log == []
    { recorded, log := {}, []; }

    /** One transaction: run the SQL and record the version, or neither. A version
        already recorded fails on the table's primary key. */
    method Apply(m: Migration, fault: bool) returns (ok: bool)
      modifies this
      ensures ok <==> !fault && m.version !in old(recorded)
      ensures ok ==> recorded == old(recorded) + {m.version} && log == old(log) + [m]
      ensures !ok ==> recorded == old(recorded) && log == old(log)
    {
      if fault || m.version in recorded { return false; }
      recorded, log := recorded + {m.version}, log + [m];
      return true;
    }
  }

  /** What is still to be applied, in order. */
  function Missing(ms: seq<Migration>, done: set<int>): seq<Migration> {
    if ms == [] then []
    else
      var rest, m := Missing(ms[..|ms| - 1], done), ms[|ms| - 1];
      if m.version in done then rest else rest + [m]
  }

  /** Some earlier one of the list has the same version as the n-th. */
  predicate Repeats(ms: seq<Migration>, n: nat)
    requires n < |ms|
  {
    exists i :: 0 <= i < n && ms[i].version == ms[n].version
  }

  /** A transaction that is bound to fail: of itself, or as the second of its version. */
  predicate Doomed(todo: seq<Migration>, n: nat, faults: set<int>)
    requires n < |todo|
  {
    todo[n].version in faults || Repeats(todo, n)
  }

  /** How far a list gets: to its first doomed transaction, or all the way. */
  function Reach(todo: seq<Migration>, n: nat, faults: set<int>): (r: nat)
    requires n <= |todo|
    ensures n <= r <= |todo| && (r < |todo| ==> Doomed(todo, r, faults))
    ensures forall i :: n <= i < r ==> !Doomed(todo, i, faults)
    decreases |todo| - n
  {
    if n == |todo| || Doomed(todo, n, faults) then n else Reach(todo, n + 1, faults)
  }

  function VersionsOf(ms: seq<Migration>): set<int> { set m | m in ms :: m.version }

  /** The contents of a database: what is recorded, and what has been run. */
  datatype Schema = Schema(recorded: set<int>, log: seq<Migration>)

  const FRESH := Schema({}, [])

  /** A whole call of migrate: the missing migrations are applied in order up to
      the first that is doomed, and it succeeds if that is none. */
  function Migrated(db: Schema, pending: seq<Migration>, faults: set<int>): (Schema, nat, bool) {
    var todo := Missing(pending, db.recorded);
    var n := Reach(todo, 0, faults);
    (Schema(db.recorded + VersionsOf(todo[..n]), db.log + todo[..n]), n, n == |todo|)
  }

  /** migrate, with the versions whose transaction the database fails. */
  method RunMigrations(db: Database, pending: seq<Migration>, faults: set<int>) returns (applied: nat, ok: bool)
    modifies db
    ensures (Schema(db.recorded, db.log), applied, ok)
         == Migrated(Schema(old(db.recorded), old(db.log)), pending, faults)
  {
    var done := db.recorded;
    ghost var log, todo := db.log, Missing(pending, done);
    applied := 0;
    for k := 0 to |pending|
      invariant applied <= |todo| && Missing(pending[..k], done) == todo[..applied]
      invariant db.log == log + todo[..applied]
      invariant db.recorded == done + VersionsOf(todo[..applied])
      invariant Reach(todo, 0, faults) == Reach(todo, applied, faults)
    {
      var m := pending[k];
      assert pending[..k + 1][..k] == pending[..k];
      MissingIsPrefix(pending, k + 1, done);
      if m.version in done { continue; }
      assert Missing(pending[..k + 1], done) == todo[..applied] + [m] == todo[..applied + 1];
      RecordedMeansRepeated(todo, applied, done, db.recorded);
      ok := db.Apply(m, m.version in faults);
      if !ok { return applied, false; }
      assert VersionsOf(todo[..applied + 1]) == VersionsOf(todo[..applied]) + {m.version};
      applied := applied + 1;
    }
    assert pending[..|pending|] == pending && todo[..|todo|] == todo;
    return applied, true;
  }

  lemma RecordedMeansRepeated(todo: seq<Migration>, n: nat, done: set<int>, recorded: set<int>)
    requires n < |todo| && todo[n].version !in done && recorded == done + VersionsOf(todo[..n])
    ensures todo[n].version in recorded <==> Repeats(todo, n)
  {
    if todo[n].version in recorded {
      var m :| m in todo[..n] && m.version == todo[n].version;
      var i :| 0 <= i < n && todo[..n][i] == m;
      assert todo[i].version == todo[n].version;
    }
    if Repeats(todo, n) {
      var i :| 0 <= i < n && todo[i].version == todo[n].version;
      assert todo[i] in todo[..n];
    }
  }

  lemma {:induction false} MissingIsPart(ms: seq<Migration>, done: set<int>)
    ensures forall m :: m in Missing(ms, done) <==> m in ms && m.version !in done
  {
    if ms != [] {
      MissingIsPart(ms[..|ms| - 1], done);
      assert ms == ms[..|ms| - 1] + [ms[|ms| - 1]];
    }
  }

  lemma {:induction false} MissingIsPrefix(ms: seq<Migration>, k: nat, done: set<int>)
    requires k <= |ms|
    ensures Missing(ms[..k], done) <= Missing(ms, done)
    decreases |ms|
  {
    if k == |ms| {
      assert ms[..k] == ms;
    } else {
      assert ms[..|ms| - 1][..k] == ms[..k];
      MissingIsPrefix(ms[..|ms| - 1], k, done);
    }
  }

  lemma {:induction false} AllMissing(ms: seq<Migration>)
    ensures Missing(ms, {}) == ms
  {
    if ms != [] { AllMissing(ms[..|ms| - 1]); }
  }

  /** A call succeeds exactly when the database fails none of the missing
      migrations and no version is missing twice; on a fresh database that does
      not fail, exactly when the list names no version twice. */
  lemma SucceedsIff(db: Schema, list: seq<Migration>, faults: set<int>)
    ensures var todo := Missing(list, db.recorded);
      Migrated(db, list, faults).2 <==> Distinct(todo) && VersionsOf(todo) !! faults
    ensures Migrated(FRESH, list, {}).2 <==> Distinct(list)
  {
    ReachesEndIff(Missing(list, db.recorded), faults);
    AllMissing(list);
    ReachesEndIff(list, {});
  }

  lemma ReachesEndIff(todo: seq<Migration>, faults: set<int>)
    ensures Reach(todo, 0, faults) == |todo| <==> Distinct(todo) && VersionsOf(todo) !! faults
  {
    var n := Reach(todo, 0, faults);
    if n == |todo| {
      forall i, j | 0 <= i < j < n ensures todo[i].version != todo[j].version { assert !Doomed(todo, j, faults); }
      forall m | m in todo ensures m.version !in faults {
        var j :| 0 <= j < n && todo[j] == m;
        assert !Doomed(todo, j, faults);
      }
    } else {
      assert todo[n] in todo;
    }
  }

  /** A version named twice: the first call fails, having run the first of the
      two, and the second reports success although the other never ran. */
  lemma SuccessWithoutRunning(m: Migration, m': Migration)
    requires m.version == m'.version && m != m'
    ensures var (db, applied, ok) := Migrated(FRESH, [m, m'], {});
      && applied == 1 && !ok && db.log == [m]
      && Migrated(db, [m, m'], {}) == (db, 0, true) && m' !in db.log
  {
    var list, done := [m, m'], VersionsOf([m]);
    AllMissing(list);
    assert list[0].version == list[1].version && Repeats(list, 1) && !Repeats(list, 0);
    assert Reach(list, 0, {}) == Reach(list, 1, {}) == 1 && list[..1] == [m];
    assert m in [m] && {} + done == done && [] + [m] == [m];
    assert Migrated(FRESH, list, {}) == (Schema(done, [m]), 1, false);
    assert [m][..0] == [] && Missing([], done) == [] && Missing([m], done) == Missing(list, done) == [];
    assert VersionsOf([]) == {} && done + {} == done && [m] + [] == [m];
  }

  // ---- any number of processes ----

  /** One call of migrate: the list it copied, what it read as done once it has,
      and how far it has come. */
  datatype Proc = Proc(pending: seq<Migration>, done: Option<set<int>>, next: nat, failed: bool)

  datatype Commit = Commit(m: Migration, proc: nat)

  datatype Sys = Sys(recorded: set<int>, log: seq<Commit>, procs: seq<Proc>)

  /** `fault` is the database refusing, for reasons of its own. */
  datatype Event = Called(pending: seq<Migration>) | ReadDone(p: nat, fault: bool) | Try(p: nat, fault: bool)

  const START := Sys({}, [], [])

  predicate Reading(y: Sys, p: nat) { p < |y.procs| && !y.procs[p].failed && y.procs[p].done == None }

  predicate Trying(y: Sys, p: nat) {
    p < |y.procs| && !y.procs[p].failed && y.procs[p].done.Some? && y.procs[p].next < |y.procs[p].pending|
  }

  predicate Succeeded(c: Proc) { !c.failed && c.done.Some? && c.next == |c.pending| }

  /** One atomic step; a whole transaction is one. */
  function Step(y: Sys, e: Event): Sys {
    match e
    case Called(pending) => y.(procs := y.procs + [Proc(pending, None, 0, false)])
    case ReadDone(p, fault) =>
      if !Reading(y, p) then y
      else if fault then y.(procs := y.procs[p := y.procs[p].(failed := true)])
      else y.(procs := y.procs[p := y.procs[p].(done := Some(y.recorded))])
    case Try(p, fault) =>
      if !Trying(y, p) then y
      else
        var c := y.procs[p];
        var m := c.pending[c.next];
        if m.version in c.done.value then y.(procs := y.procs[p := c.(next := c.next + 1)])
        else if fault || m.version in y.recorded then y.(procs := y.procs[p := c.(failed := true)])
        else Sys(y.recorded + {m.version}, y.log + [Commit(m, p)], y.procs[p := c.(next := c.next + 1)])
  }

  function After(evs: seq<Event>): Sys {
    if evs == [] then START else Step(After(evs[..|evs| - 1]), evs[|evs| - 1])
  }

  function Versions(log: seq<Commit>): set<int> { set c | c in log :: c.m.version }

  function Ran(log: seq<Commit>): (ms: seq<Migration>)
    ensures |ms| == |log| && forall k :: 0 <= k < |log| ==> ms[k] == log[k].m
  {
    seq(|log|, k requires 0 <= k < |log| => log[k].m)
  }

  // ---- the call and its steps ----

  lemma AfterOneMore(evs: seq<Event>, e: Event)
    ensures After(evs + [e]) == Step(After(evs), e)
  {
    assert (evs + [e])[..|evs|] == evs;
  }

  /** The transactions a call attempts when nothing comes in between. */
  function Tries(p: nat, list: seq<Migration>, n: nat, faults: set<int>): seq<Event>
    requires n <= |list|
  {
    if n == 0 then [] else Tries(p, list, n - 1, faults) + [Try(p, list[n - 1].version in faults)]
  }

  /** A call alone, from where a run has come to, with its first `n` attempts. */
  function Alone(evs: seq<Event>, list: seq<Migration>, n: nat, faults: set<int>): seq<Event>
    requires n <= |list|
  {
    var p := |After(evs).procs|;
    evs + [Called(list), ReadDone(p, false)] + Tries(p, list, n, faults)
  }

  /** How the system stands when the call has come past the first `n` of its
      list, among them `t` of what was missing, of which it can do `a`. */
  ghost predicate Stands(y: Sys, z: Sys, list: seq<Migration>, n: nat, todo: seq<Migration>, t: nat, a: nat) {
    var k := if t < a then t else a;
    && k <= |todo| && |z.procs| == |y.procs| + 1 && z.procs[..|y.procs|] == y.procs
    && z.procs[|y.procs|] == Proc(list, Some(y.recorded), z.procs[|y.procs|].next, a < t)
    && (t <= a ==> z.procs[|y.procs|].next == n)
    && z.recorded == y.recorded + VersionsOf(todo[..k]) && Ran(z.log) == Ran(y.log) + todo[..k]
  }

  ghost predicate Passed(y: Sys, z: Sys, list: seq<Migration>, n: nat, faults: set<int>)
    requires n <= |list|
  {
    var todo := Missing(list, y.recorded);
    Stands(y, z, list, n, todo, |Missing(list[..n], y.recorded)|, Reach(todo, 0, faults))
  }

  lemma MissingOneMore(list: seq<Migration>, n: nat, done: set<int>)
    requires n < |list|
    ensures var t, todo := |Missing(list[..n], done)|, Missing(list, done);
      if list[n].version in done then |Missing(list[..n + 1], done)| == t
      else |Missing(list[..n + 1], done)| == t + 1 <= |todo| && todo[t] == list[n]
  {
    assert list[..n + 1][..n] == list[..n];
    MissingIsPrefix(list, n + 1, done);
  }

  /** The attempt at the t-th of what is missing fails exactly when it is where
      the call ends. */
  lemma FailsThere(list: seq<Migration>, done: set<int>, t: nat, faults: set<int>, recorded: set<int>)
    requires var todo := Missing(list, done);
      t < |todo| && t <= Reach(todo, 0, faults) && recorded == done + VersionsOf(todo[..t])
    ensures var todo := Missing(list, done);
      todo[t].version in faults || todo[t].version in recorded <==> Reach(todo, 0, faults) == t
  {
    var todo := Missing(list, done);
    MissingIsPart(list, done);
    assert todo[t] in todo;
    RecordedMeansRepeated(todo, t, done, recorded);
    assert Doomed(todo, t, faults) <==> Reach(todo, 0, faults) == t;
  }

  lemma Attempted(y: Sys, z: Sys, list: seq<Migration>, n: nat, todo: seq<Migration>, t: nat, a: nat, fault: bool)
    requires n < |list| && Stands(y, z, list, n, todo, t, a) && list[n].version !in y.recorded
    requires t < |todo| && todo[t] == list[n] && t <= a
    requires fault || todo[t].version in z.recorded <==> a == t
    ensures Stands(y, Step(z, Try(|y.procs|, fault)), list, n + 1, todo, t + 1, a)
  {
    var w := Step(z, Try(|y.procs|, fault));
    if t < a {
      assert Ran(w.log) == Ran(z.log) + [todo[t]];
      assert todo[..t + 1] == todo[..t] + [todo[t]];
      assert VersionsOf(todo[..t + 1]) == VersionsOf(todo[..t]) + {todo[t].version};
    }
  }

  lemma OneMoreTry(y: Sys, z: Sys, list: seq<Migration>, n: nat, faults: set<int>)
    requires n < |list| && Passed(y, z, list, n, faults)
    ensures Passed(y, Step(z, Try(|y.procs|, list[n].version in faults)), list, n + 1, faults)
  {
    MissingOneMore(list, n, y.recorded);
    if z.procs[|y.procs|].failed || list[n].version in y.recorded {
    } else {
      var todo, t := Missing(list, y.recorded), |Missing(list[..n], y.recorded)|;
      FailsThere(list, y.recorded, t, faults, z.recorded);
      Attempted(y, z, list, n, todo, t, Reach(todo, 0, faults), list[n].version in faults);
    }
  }

  lemma AloneBegins(evs: seq<Event>, list: seq<Migration>, faults: set<int>)
    ensures Passed(After(evs), After(Alone(evs, list, 0, faults)), list, 0, faults)
  {
    var p, all := |After(evs).procs|, Alone(evs, list, 0, faults);
    AfterOneMore(evs, Called(list));
    AfterOneMore(evs + [Called(list)], ReadDone(p, false));
    assert all == evs + [Called(list)] + [ReadDone(p, false)] && list[..0] == [];
  }

  lemma {:induction false} AlonePasses(evs: seq<Event>, list: seq<Migration>, n: nat, faults: set<int>)
    requires n <= |list|
    ensures Passed(After(evs), After(Alone(evs, list, n, faults)), list, n, faults)
  {
    if n == 0 {
      AloneBegins(evs, list, faults);
    } else {
      var before, e := Alone(evs, list, n - 1, faults), Try(|After(evs).procs|, list[n - 1].version in faults);
      AlonePasses(evs, list, n - 1, faults);
      assert Alone(evs, list, n, faults) == before + [e];
      AfterOneMore(before, e);
      OneMoreTry(After(evs), After(before), list, n - 1, faults);
    }
  }

  /** These are the steps of migrate: a call that nothing comes in between leaves
      the database, and succeeds or not, exactly as RunMigrations does. */
  lemma UndisturbedIsMigrated(evs: seq<Event>, list: seq<Migration>, faults: set<int>)
    ensures var y, z := After(evs), After(Alone(evs, list, |list|, faults));
      var (db, _, ok) := Migrated(Schema(y.recorded, Ran(y.log)), list, faults);
      && Schema(z.recorded, Ran(z.log)) == db
      && |z.procs| == |y.procs| + 1 && (Succeeded(z.procs[|y.procs|]) <==> ok)
  {
    AlonePasses(evs, list, |list|, faults);
    assert list[..|list|] == list;
  }

  /** Everything a call has passed is recorded. */
  ghost predicate CallOk(y: Sys, c: Proc) {
    && c.next <= |c.pending| && (c.done.Some? ==> c.done.value <= y.recorded) && (c.done == None ==> c.next == 0)
    && forall i :: 0 <= i < c.next ==> c.pending[i].version in y.recorded
  }

  /** A commit is one its process had come to, after all that come before it in
      that process's list had been committed. */
  ghost predicate CommitOk(y: Sys, k: nat)
    requires k < |y.log|
  {
    var q := y.log[k].proc;
    q < |y.procs| && exists i :: Place(y.procs[q], y.log[k].m, i) && Before(y.procs[q].pending, i, Versions(y.log[..k]))
  }

  ghost predicate Place(c: Proc, m: Migration, i: int) { 0 <= i < c.next && i < |c.pending| && c.pending[i] == m }

  ghost predicate Before(pending: seq<Migration>, i: int, versions: set<int>) {
    forall j :: 0 <= j < i && j < |pending| ==> pending[j].version in versions
  }

  ghost predicate Inv(y: Sys) {
    && y.recorded == Versions(y.log)
    && (forall k, k' :: 0 <= k < k' < |y.log| ==> y.log[k].m.version != y.log[k'].m.version)
    && (forall p :: 0 <= p < |y.procs| ==> CallOk(y, y.procs[p]))
    && (forall k :: 0 <= k < |y.log| ==> CommitOk(y, k))
  }

  /** Calls only move on, and the log only grows. */
  lemma CommitStays(y: Sys, z: Sys, k: nat)
    requires k < |y.log| && CommitOk(y, k) && y.log <= z.log && |y.procs| <= |z.procs|
    requires forall p :: 0 <= p < |y.procs| ==>
      z.procs[p].pending == y.procs[p].pending && y.procs[p].next <= z.procs[p].next
    ensures CommitOk(z, k)
  {
    var q := y.log[k].proc;
    var i :| Place(y.procs[q], y.log[k].m, i) && Before(y.procs[q].pending, i, Versions(y.log[..k]));
    assert y.log[..k] == z.log[..k] && z.log[k] == y.log[k];
    assert Place(z.procs[q], z.log[k].m, i);
  }

  lemma StepKeepsCommits(y: Sys, e: Event, k: nat)
    requires Inv(y) && k < |Step(y, e).log|
    ensures CommitOk(Step(y, e), k)
  {
    var z := Step(y, e);
    if k < |y.log| {
      CommitStays(y, z, k);
    } else {
      var c := y.procs[e.p];
      assert Place(z.procs[e.p], z.log[k].m, c.next) && z.log[..k] == y.log;
      assert Before(c.pending, c.next, Versions(y.log));
    }
  }

  lemma StepKeepsInv(y: Sys, e: Event)
    requires Inv(y)
    ensures Inv(Step(y, e)) && y.log <= Step(y, e).log
  {
    var z := Step(y, e);
    forall k | 0 <= k < |z.log| ensures CommitOk(z, k) { StepKeepsCommits(y, e, k); }
    assert z.recorded == Versions(z.log);
  }

  lemma {:induction false} AlwaysInv(evs: seq<Event>)
    ensures Inv(After(evs))
  {
    if evs != [] {
      AlwaysInv(evs[..|evs| - 1]);
      StepKeepsInv(After(evs[..|evs| - 1]), evs[|evs| - 1]);
    }
  }

  /** Whatever processes run, with whatever lists and faults: the recorded
      versions are exactly those whose SQL was committed, each of them once. */
  lemma {:induction false} RecordedIsCommitted(evs: seq<Event>)
    ensures var y := After(evs);
      && y.recorded == Versions(y.log)
      && forall k, k' :: 0 <= k < k' < |y.log| ==> y.log[k].m.version != y.log[k'].m.version
  {
    AlwaysInv(evs);
  }

  /** A call that succeeds leaves every version of its list recorded. */
  lemma SuccessMeansAll(evs: seq<Event>, p: nat)
    requires p < |After(evs).procs| && Succeeded(After(evs).procs[p])
    ensures forall m :: m in After(evs).procs[p].pending ==> m.version in After(evs).recorded
  {
    AlwaysInv(evs);
    assert CallOk(After(evs), After(evs).procs[p]);
  }

  /** Each migration runs after all that precede it in the list of the process
      that ran it, whoever ran those. */
  lemma PredecessorsFirst(evs: seq<Event>, k: nat) returns (i: int)
    requires k < |After(evs).log|
    ensures var y := After(evs);
      && y.log[k].proc < |y.procs| && 0 <= i < |y.procs[y.log[k].proc].pending|
      && y.procs[y.log[k].proc].pending[i] == y.log[k].m
      && forall j :: 0 <= j < i ==> y.procs[y.log[k].proc].pending[j].version in Versions(y.log[..k])
  {
    AlwaysInv(evs);
    var y := After(evs);
    assert CommitOk(y, k);
    var c := y.procs[y.log[k].proc];
    i :| Place(c, y.log[k].m, i) && Before(c.pending, i, Versions(y.log[..k]));
  }

  lemma LateVersion(log: seq<Commit>, k: nat, k': nat)
    requires k <= k' < |log| && forall i, j :: 0 <= i < j < |log| ==> log[i].m.version != log[j].m.version
    ensures log[k'].m.version !in Versions(log[..k])
  {}

  /** One call commits in its list's order, so in increasing versions. */
  lemma CallIncreases(evs: seq<Event>, k: nat, k': nat)
    requires k < k' < |After(evs).log| && After(evs).log[k].proc == After(evs).log[k'].proc < |After(evs).procs|
    requires var list := After(evs).procs[After(evs).log[k].proc].pending; Ordered(list) && Distinct(list)
    ensures After(evs).log[k].m.version < After(evs).log[k'].m.version
  {
    RecordedIsCommitted(evs);
    LateVersion(After(evs).log, k, k');
    var i := PredecessorsFirst(evs, k);
    var i' := PredecessorsFirst(evs, k');
    assert i <= i';
  }

  /** The first of each version, in the order of the list. */
  function Firsts(ms: seq<Migration>): seq<Migration> {
    if ms == [] then []
    else
      var rest, m := Firsts(ms[..|ms| - 1]), ms[|ms| - 1];
      if m.version in VersionsOf(ms[..|ms| - 1]) then rest else rest + [m]
  }

  lemma {:induction false} FirstsDistinct(ms: seq<Migration>)
    ensures Distinct(Firsts(ms)) && VersionsOf(Firsts(ms)) == VersionsOf(ms)
    ensures forall m :: m in Firsts(ms) ==> m in ms
  {
    if ms != [] {
      var init, m := ms[..|ms| - 1], ms[|ms| - 1];
      FirstsDistinct(init);
      assert ms == init + [m];
      assert VersionsOf(ms) == VersionsOf(init) + {m.version};
      var f := Firsts(init);
      assert VersionsOf(f + [m]) == VersionsOf(f) + {m.version};
      forall i | 0 <= i < |f| && m.version !in VersionsOf(init) ensures f[i].version != m.version {
        assert f[i] in f;
      }
    }
  }

  lemma {:induction false} FirstsPrefix(ms: seq<Migration>, k: nat)
    requires k <= |ms|
    ensures Firsts(ms[..k]) <= Firsts(ms)
    decreases |ms|
  {
    if k == |ms| {
      assert ms[..k] == ms;
    } else {
      assert ms[..|ms| - 1][..k] == ms[..k];
      FirstsPrefix(ms[..|ms| - 1], k);
    }
  }

  /** The migration at `i`, the first of its version, comes next after the firsts
      before it. */
  lemma FirstAt(ms: seq<Migration>, i: nat)
    requires i < |ms| && ms[i].version !in VersionsOf(ms[..i])
    ensures |Firsts(ms[..i])| < |Firsts(ms)| && Firsts(ms)[|Firsts(ms[..i])|] == ms[i]
  {
    assert ms[..i + 1][..i] == ms[..i];
    FirstsPrefix(ms, i + 1);
  }

  /** In a list of distinct versions, migrations whose versions are all among the
      first `n` are no more than `n`. */
  lemma AmongFirst(f: seq<Migration>, q: nat, n: nat)
    requires Distinct(f) && q <= |f| && n <= |f| && VersionsOf(f[..q]) <= VersionsOf(f[..n])
    ensures q <= n
  {
    if q > 0 {
      assert f[q - 1] in f[..q];
      assert f[q - 1].version in VersionsOf(f[..n]);
      var m :| m in f[..n] && m.version == f[q - 1].version;
      var j :| 0 <= j < n && f[j] == m;
      assert j == q - 1;
    }
  }

  lemma WithinFirst(f: seq<Migration>, q: nat, n: nat)
    requires q < |f| && n <= |f|
    ensures q < n ==> f[q].version in VersionsOf(f[..n])
  {
    if q < n { assert f[q] in f[..n]; }
  }

  lemma RanVersions(log: seq<Commit>, n: nat)
    requires n <= |log|
    ensures Versions(log[..n]) == VersionsOf(Ran(log)[..n])
  {
    forall v | v in Versions(log[..n]) ensures v in VersionsOf(Ran(log)[..n]) {
      var c :| c in log[..n] && c.m.version == v;
      var k :| 0 <= k < n && log[k] == c;
      assert Ran(log)[..n][k] == c.m;
    }
    forall v | v in VersionsOf(Ran(log)[..n]) ensures v in Versions(log[..n]) {
      var m :| m in Ran(log)[..n] && m.version == v;
      var k :| 0 <= k < n && Ran(log)[..n][k] == m;
      assert log[k] in log[..n];
    }
  }

  /** A log that has followed the firsts so far follows them one step further. */
  lemma NextIs(log: seq<Commit>, list: seq<Migration>, n: nat, i: nat)
    requires n < |log| && n <= |Firsts(list)| && Ran(log)[..n] == Firsts(list)[..n]
    requires forall k, k' :: 0 <= k < k' < |log| ==> log[k].m.version != log[k'].m.version
    requires i < |list| && list[i] == log[n].m && forall j :: 0 <= j < i ==> list[j].version in Versions(log[..n])
    ensures n < |Firsts(list)| && Firsts(list)[n] == log[n].m
  {
    var f, q := Firsts(list), |Firsts(list[..i])|;
    RanVersions(log, n);
    LateVersion(log, n, n);
    forall v | v in VersionsOf(list[..i]) ensures v in VersionsOf(f[..n]) {
      var m :| m in list[..i] && m.version == v;
      var j :| 0 <= j < i && list[j] == m;
      assert list[j].version in Versions(log[..n]);
    }
    FirstAt(list, i);
    FirstsPrefix(list, i);
    FirstsDistinct(list);
    FirstsDistinct(list[..i]);
    assert f[..q] == Firsts(list[..i]);
    AmongFirst(f, q, n);
    WithinFirst(f, q, n);
  }

  ghost predicate OneList(y: Sys, list: seq<Migration>) {
    forall p :: 0 <= p < |y.procs| ==> y.procs[p].pending == list
  }

  /** Processes that share one list keep one history: from any moment of any run,
      what has been committed is a prefix of the firsts of each version. */
  lemma {:induction false} OneListOneOrder(evs: seq<Event>, list: seq<Migration>, k: nat)
    requires OneList(After(evs), list) && k <= |After(evs).log|
    ensures k <= |Firsts(list)| && Ran(After(evs).log)[..k] == Firsts(list)[..k]
  {
    if k > 0 {
      OneListOneOrder(evs, list, k - 1);
      RecordedIsCommitted(evs);
      var i := PredecessorsFirst(evs, k - 1);
      var log := After(evs).log;
      NextIs(log, list, k - 1, i);
      assert Ran(log)[..k] == Ran(log)[..k - 1] + [log[k - 1].m];
      assert Firsts(list)[..k] == Firsts(list)[..k - 1] + [log[k - 1].m];
    }
  }

  /** And once any of their calls has succeeded, it is all of them: the first of
      each version has run and no other ever has. */
  lemma SuccessRanFirsts(evs: seq<Event>, list: seq<Migration>, p: nat)
    requires OneList(After(evs), list) && p < |After(evs).procs| && Succeeded(After(evs).procs[p])
    ensures Ran(After(evs).log) == Firsts(list)
  {
    var log, f := After(evs).log, Firsts(list);
    OneListOneOrder(evs, list, |log|);
    SuccessMeansAll(evs, p);
    RecordedIsCommitted(evs);
    RanVersions(log, |log|);
    FirstsDistinct(list);
    assert log[..|log|] == log && f[..|f|] == f && Ran(log)[..|log|] == Ran(log);
    forall v | v in VersionsOf(f) ensures v in VersionsOf(f[..|log|]) {
      var m :| m in list && m.version == v;
      assert m.version in After(evs).recorded;
    }
    AmongFirst(f, |f|, |log|);
  }

  lemma DistinctOneMore(ms: seq<Migration>)
    requires ms != []
    ensures var init, m := ms[..|ms| - 1], ms[|ms| - 1];
      Distinct(ms) <==> Distinct(init) && m.version !in VersionsOf(init)
  {
    var n := |ms| - 1;
    if ms[n].version in VersionsOf(ms[..n]) {
      var x :| x in ms[..n] && x.version == ms[n].version;
      var i :| 0 <= i < n && ms[i] == x;
      assert ms[i].version == ms[n].version;
    } else {
      forall i | 0 <= i < n ensures ms[i].version != ms[n].version { assert ms[i] in ms[..n]; }
    }
  }

  lemma {:induction false} AllFirstsIff(ms: seq<Migration>)
    ensures |Firsts(ms)| <= |ms| && (|Firsts(ms)| == |ms| <==> Distinct(ms))
    ensures Distinct(ms) ==> Firsts(ms) == ms
  {
    if ms != [] {
      AllFirstsIff(ms[..|ms| - 1]);
      DistinctOneMore(ms);
    }
  }

  /** Success means that every migration of the list has run, each once, exactly
      when the list names no version twice. */
  lemma SuccessRanAllIff(evs: seq<Event>, list: seq<Migration>, p: nat)
    requires OneList(After(evs), list) && p < |After(evs).procs| && Succeeded(After(evs).procs[p])
    ensures multiset(Ran(After(evs).log)) == multiset(list) <==> Distinct(list)
  {
    SuccessRanFirsts(evs, list, p);
    AllFirstsIff(list);
    assert |multiset(Firsts(list))| == |Firsts(list)| && |multiset(list)| == |list|;
  }

  lemma OwnCommitsPassed(y: Sys, p: nat, k: nat)
    requires Inv(y) && Trying(y, p) && Distinct(y.procs[p].pending) && k < |y.log|
    ensures y.log[k].proc == p ==> y.log[k].m.version != y.procs[p].pending[y.procs[p].next].version
  {
    assert CommitOk(y, k);
  }

  /** With a database that does not fail, a call fails only because another
      process has committed one of its versions since it read which were done. */
  lemma OnlyRivalsFail(evs: seq<Event>, p: nat) returns (k: nat)
    requires Trying(After(evs), p) && Distinct(After(evs).procs[p].pending)
    requires Step(After(evs), Try(p, false)).procs[p].failed
    ensures var y := After(evs);
      k < |y.log| && y.log[k].proc != p && y.log[k].m.version == y.procs[p].pending[y.procs[p].next].version
  {
    AlwaysInv(evs);
    var y := After(evs);
    var c := y.procs[p];
    assert c.pending[c.next].version in Versions(y.log);
    var w :| w in y.log && w.m.version == c.pending[c.next].version;
    k :| 0 <= k < |y.log| && y.log[k] == w;
    OwnCommitsPassed(y, p, k);
  }
}

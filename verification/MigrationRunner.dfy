/**
 `runMigrations` of src/migrations.ts (default options) against a transactional database in which any call may fail
 and the process may die at any call. One runner runs at a time, and a migration's statements do not themselves
 begin or end transactions.
 */
module MigrationRunner {
  import opened Options
  import opened SqlLexer
  import opened SqlSplit
  import opened SqlComments
  import opened Sorting
  import opened MigrationOrder

  /** What is committed: the schema, the statements that made it, and the ids in `schema_migrations`. */
  datatype Db<S> = Db(schema: S, history: seq<string>, log: seq<string>)

  /** The effect of a statement that succeeds. */
  type Exec<!S> = (S, string) -> S

  /** How a call ends. A lost connection may be noticed before or after the call took effect. */
  datatype Outcome = Fine | Fails | Lost | LostAfterEffect

  /** How each call of a run ends, by its number. */
  type Plan = nat -> Outcome

  // ---- One clean pass ----

  function IfExecutable(statement: string): seq<string> {
    if HasExecutableSql(statement) then [statement] else []
  }

  function Executables(statements: seq<string>): seq<string> {
    if statements == [] then [] else IfExecutable(statements[0]) + Executables(statements[1..])
  }

  /** Statements with code in them are run as often as they occur, others never. */
  lemma {:induction false} ExecutablesAre(statements: seq<string>, s: string)
    ensures multiset(Executables(statements))[s] == if HasExecutableSql(s) then multiset(statements)[s] else 0
  {
    hide HasExecutableSql;
    if statements != [] {
      ExecutablesAre(statements[1..], s);
      assert statements == [statements[0]] + statements[1..];
    }
  }

  /** They keep their order. */
  lemma {:induction false} ExecutablesConcat(a: seq<string>, b: seq<string>)
    ensures Executables(a + b) == Executables(a) + Executables(b)
  {
    hide HasExecutableSql;
    if a == [] {
      assert a + b == b;
    } else {
      assert (a + b)[1..] == a[1..] + b;
      ExecutablesConcat(a[1..], b);
    }
  }

  /** What a migration file is run as. */
  function FileStatements(sql: string): seq<string> {
    Executables(Statements(sql))
  }

  function ExecAll<S>(exec: Exec<S>, schema: S, statements: seq<string>): S {
    if statements == [] then schema
    else exec(ExecAll(exec, schema, statements[..|statements| - 1]), statements[|statements| - 1])
  }

  /** `content` is what each file is run as, given what it reads as. */
  ghost predicate RunsAs(content: string -> seq<string>, read: string -> string) {
    forall file {:trigger FileStatements(read(file))} :: content(file) == FileStatements(read(file))
  }

  /** The statements of the files, in order; `content` says what each is run as. */
  function AllStatements(content: string -> seq<string>, files: seq<string>): seq<string> {
    if files == [] then []
    else AllStatements(content, files[..|files| - 1]) + content(files[|files| - 1])
  }

  /** A database on which exactly `files` have been run, in order, from `empty`. */
  ghost predicate IsClean<S>(exec: Exec<S>, content: string -> seq<string>, empty: S, files: seq<string>, db: Db<S>) {
    && db.log == files
    && db.history == AllStatements(content, files)
    && db.schema == ExecAll(exec, empty, db.history)
  }

  /** A database that a run on `files` may have left behind. */
  ghost predicate IsPrefix<S>(exec: Exec<S>, content: string -> seq<string>, empty: S, files: seq<string>, db: Db<S>) {
    |db.log| <= |files| && IsClean(exec, content, empty, files[..|db.log|], db)
  }

  // ---- The database ----

  class Database<S> {
    const exec: Exec<S>
    var committed: Db<S>
    var open: bool           // a transaction is open
    var working: Db<S>       // what it sees
    var aborted: bool        // a statement of it has failed

    constructor (exec: Exec<S>, committed: Db<S>)
      ensures this.exec == exec && this.committed == committed && !open
    {
      this.exec, this.committed, open, working, aborted := exec, committed, false, committed, false;
    }

    method Begin(outcome: Outcome) returns (ok: bool)
      modifies this
      ensures committed == old(committed)
      ensures ok <==> outcome.Fine?
      ensures ok ==> open && !aborted && working == committed
    {
      ok := outcome.Fine?;
      open, aborted, working := ok, false, committed;
    }

    /** A statement of a migration. */
    method Query(statement: string, outcome: Outcome) returns (ok: bool)
      requires open && !aborted
      modifies this
      ensures committed == old(committed)
      ensures ok <==> outcome.Fine?
      ensures ok ==> open && !aborted && working == Db(exec(old(working.schema), statement),
                                                       old(working.history) + [statement], old(working.log))
    {
      ok := outcome.Fine?;
      if ok {
        working := Db(exec(working.schema, statement), working.history + [statement], working.log);
      } else {
        aborted := true;
        open := outcome.Fails?;
      }
    }

    /** `insert into schema_migrations` */
    method InsertId(file: string, outcome: Outcome) returns (ok: bool)
      requires open && !aborted
      modifies this
      ensures committed == old(committed)
      ensures ok <==> outcome.Fine?
      ensures ok ==> open && !aborted && working == old(working).(log := old(working.log) + [file])
    {
      ok := outcome.Fine?;
      if ok {
        working := working.(log := working.log + [file]);
      } else {
        aborted := true;
        open := outcome.Fails?;
      }
    }

    /** A commit whose connection is lost may or may not have gone through. */
    method Commit(outcome: Outcome) returns (ok: bool)
      requires open && !aborted
      modifies this
      ensures ok <==> outcome.Fine?
      ensures committed == if outcome.Fine? || outcome.LostAfterEffect? then old(working) else old(committed)
    {
      ok := outcome.Fine?;
      if outcome.Fine? || outcome.LostAfterEffect? {
        committed := working;
      }
      open := false;
    }

    /** Whether it is heard or the connection is gone, the open transaction leaves no trace. */
    method Rollback()
      modifies this
      ensures committed == old(committed) && !open
    {
      open := false;
    }
  }

  // ---- The runner ----

  lemma {:induction false} ExecutablesSnoc(a: seq<string>, s: string)
    ensures Executables(a + [s]) == Executables(a) + IfExecutable(s)
  {
    hide IfExecutable;
    if a == [] {
      assert (a + [s])[1..] == [];
    } else {
      assert (a + [s])[1..] == a[1..] + [s];
      ExecutablesSnoc(a[1..], s);
    }
  }

  lemma {:induction false} ExecutablesAll(statements: seq<string>)
    ensures forall i :: 0 <= i < |Executables(statements)| ==> HasExecutableSql(Executables(statements)[i])
  {
    hide HasExecutableSql;
    if statements != [] {
      ExecutablesAll(statements[1..]);
    }
  }

  /** `.filter(hasExecutableSql)` */
  method FilterExecutable(statements: seq<string>) returns (kept: seq<string>)
    ensures kept == Executables(statements)
  {
    hide HasExecutableSql;
    kept := [];
    var i := 0;
    while i < |statements|
      invariant 0 <= i <= |statements| && kept == Executables(statements[..i])
    {
      ExecutablesSnoc(statements[..i], statements[i]);
      assert statements[..i + 1] == statements[..i] + [statements[i]];
      if HasExecutableSql(statements[i]) {
        kept := kept + [statements[i]];
      }
      i := i + 1;
    }
    assert statements[..i] == statements;
  }

  /** The database with one more file run, all of it. */
  ghost predicate FileAdded<S>(exec: Exec<S>, statements: seq<string>, file: string, db: Db<S>, db': Db<S>) {
    && db'.log == db.log + [file]
    && db'.history == db.history + statements
    && db'.schema == ExecAll(exec, db.schema, statements)
  }

  /** One file, in one transaction. */
  method ApplyFile<S>(db: Database<S>, file: string, rawSql: string, plan: Plan, first: nat)
    returns (ok: bool, next: nat)
    modifies db
    ensures next > first
    ensures ok ==> FileAdded(db.exec, FileStatements(rawSql), file, old(db.committed), db.committed)
    ensures !ok ==> db.committed == old(db.committed)
                    || FileAdded(db.exec, FileStatements(rawSql), file, old(db.committed), db.committed)
    ensures (forall n :: plan(n).Fine?) ==> ok
  {
    hide HasExecutableSql, Statements, Executables;
    next := first;
    ok := db.Begin(plan(next));
    next := next + 1;
    if ok {
      var all := SplitSql(rawSql);
      var statements := FilterExecutable(all);
      ExecutablesAll(all);
      assert statements == FileStatements(rawSql);
      assert statements[..0] == [];
      var i := 0;
      while ok && i < |statements|
        invariant 0 <= i <= |statements| && next > first
        invariant db.committed == old(db.committed)
        invariant (forall n :: plan(n).Fine?) ==> ok
        invariant ok ==> db.open && !db.aborted
        invariant ok ==> db.working == Db(ExecAll(db.exec, old(db.committed.schema), statements[..i]),
                                          old(db.committed.history) + statements[..i], old(db.committed.log))
      {
        if HasExecutableSql(statements[i]) {
          ok := db.Query(statements[i], plan(next));
          next := next + 1;
        }
        assert statements[..i + 1][..i] == statements[..i];
        i := i + 1;
      }
      assert ok ==> statements[..i] == statements;
      if ok {
        ok := db.InsertId(file, plan(next));
        next := next + 1;
      }
      if ok {
        ok := db.Commit(plan(next));
        next := next + 1;
      }
    }
    if !ok {
      db.Rollback();
    }
  }

  /** One more file in full keeps a database clean. */
  lemma AddFile<S>(exec: Exec<S>, content: string -> seq<string>, empty: S, files: seq<string>, db: Db<S>, db': Db<S>)
    requires IsPrefix(exec, content, empty, files, db) && |db.log| < |files|
    requires FileAdded(exec, content(files[|db.log|]), files[|db.log|], db, db')
    ensures IsPrefix(exec, content, empty, files, db')
  {
    var n := |db.log|;
    assert files[..n + 1] == files[..n] + [files[n]];
    assert files[..n + 1][..n] == files[..n];
    ExecAllConcat(exec, empty, db.history, content(files[n]));
  }

  lemma {:induction false} ExecAllConcat<S>(exec: Exec<S>, schema: S, a: seq<string>, b: seq<string>)
    ensures ExecAll(exec, schema, a + b) == ExecAll(exec, ExecAll(exec, schema, a), b)
  {
    if b == [] {
      assert a + b == a;
    } else {
      var k := |b| - 1;
      assert (a + b)[..|a| + k] == a + b[..k];
      ExecAllConcat(exec, schema, a, b[..k]);
    }
  }

  /**
   Whatever fails and wherever the process dies, a run leaves the database clean for a prefix of the sorted files, at
   least as long as before; a run that returns normally has run them all, and a run without faults returns normally.
   `names` is the directory listing, in whatever order; nothing happens when `listMigrationFiles` throws.
   */
  method RunMigrations<S>(db: Database<S>, names: seq<string>, locale: Collator, creates: Creates,
                          read: string -> string, ghost content: string -> seq<string>,
                          ghost empty: S, plan: Plan)
    returns (ok: bool)
    requires IsCollator(locale) && forall x :: multiset(names)[x] <= 1
    requires IsPrefix(db.exec, content, empty, SortedFiles(names, locale), db.committed)
    requires RunsAs(content, read)
    modifies db
    ensures ListMigrationFiles(names, locale, creates).None? ==> !ok && db.committed == old(db.committed)
    ensures IsPrefix(db.exec, content, empty, SortedFiles(names, locale), db.committed)
    ensures |old(db.committed.log)| <= |db.committed.log|
    ensures ok ==> IsClean(db.exec, content, empty, SortedFiles(names, locale), db.committed)
    ensures InMigrationOrder(db.committed.log, locale)
    ensures ListMigrationFiles(names, locale, creates).Some? && (forall n :: plan(n).Fine?) ==> ok
  {
    hide FileAdded, AllStatements, SortedFiles, FileStatements, InMigrationOrder;
    LogInOrder(db.exec, content, empty, names, locale, db.committed);
    var step := 0;
    if !plan(step).Fine? {             // ensureMigrationsTable
      return false;
    }
    step := step + 1;
    var listing := ListMigrationFiles(names, locale, creates);
    if listing.None? {
      return false;
    }
    var migrationFiles := listing.value;
    SortedFilesDistinct(names, locale);
    if !plan(step).Fine? {             // fetchAppliedMigrations
      return false;
    }
    step := step + 1;
    var applied := db.committed.log;
    var i := 0;
    while i < |migrationFiles|
      invariant 0 <= i <= |migrationFiles|
      invariant IsPrefix(db.exec, content, empty, migrationFiles, db.committed)
      invariant InMigrationOrder(db.committed.log, locale)
      invariant |db.committed.log| == if i < |applied| then |applied| else i
      invariant applied == migrationFiles[..|applied|]
    {
      var file := migrationFiles[i];
      assert i < |applied| ==> migrationFiles[..|applied|][i] == file;
      if file in applied {
        i := i + 1;
        continue;
      }
      if !plan(step).Fine? {           // pool.connect
        return false;
      }
      step := step + 1;
      ghost var before := db.committed;
      var fileOk;
      fileOk, step := ApplyFile(db, file, read(file), plan, step);
      if db.committed != before {
        AddFile(db.exec, content, empty, migrationFiles, before, db.committed);
        LogInOrder(db.exec, content, empty, names, locale, db.committed);
      }
      if fileOk || db.committed != before {
        AddedOne(db.exec, content(file), file, before, db.committed);
      }
      if !fileOk {
        return false;
      }
      i := i + 1;
    }
    assert migrationFiles[..i] == migrationFiles;
    return true;
  }

  /** Whatever has been run has been run in order. */
  lemma LogInOrder<S>(exec: Exec<S>, content: string -> seq<string>, empty: S, names: seq<string>, locale: Collator,
                      db: Db<S>)
    requires IsCollator(locale) && IsPrefix(exec, content, empty, SortedFiles(names, locale), db)
    ensures InMigrationOrder(db.log, locale)
  {
    hide AllStatements, ExecAll, SortedFiles, Precedes, IsCollator;
    SortedFilesInOrder(names, locale);
    assert db.log == SortedFiles(names, locale)[..|db.log|];
  }

  lemma AddedOne<S>(exec: Exec<S>, statements: seq<string>, file: string, db: Db<S>, db': Db<S>)
    requires FileAdded(exec, statements, file, db, db')
    ensures |db'.log| == |db.log| + 1
  {
  }

  // ---- Any number of runs ----

  /** What the contract of `RunMigrations` allows a run to do. */
  ghost predicate RunStep<S>(exec: Exec<S>, content: string -> seq<string>, empty: S, files: seq<string>,
                             db: Db<S>, db': Db<S>, ok: bool) {
    IsPrefix(exec, content, empty, files, db) ==>
      && IsPrefix(exec, content, empty, files, db')
      && |db.log| <= |db'.log|
      && (ok ==> IsClean(exec, content, empty, files, db'))
  }

  /** `dbs[i + 1]` and `oks[i]` are what run `i` left and returned; the first database is new. */
  ghost predicate IsRunSequence<S>(exec: Exec<S>, content: string -> seq<string>, empty: S, files: seq<string>,
                                   dbs: seq<Db<S>>, oks: seq<bool>) {
    && |dbs| == |oks| + 1 && dbs[0] == Db(empty, [], [])
    && forall i :: 0 <= i < |oks| ==> RunStep(exec, content, empty, files, dbs[i], dbs[i + 1], oks[i])
  }

  lemma RunAt<S>(exec: Exec<S>, content: string -> seq<string>, empty: S, files: seq<string>,
                 dbs: seq<Db<S>>, oks: seq<bool>, i: nat)
    requires IsRunSequence(exec, content, empty, files, dbs, oks) && i < |oks|
    ensures |dbs| == |oks| + 1 && RunStep(exec, content, empty, files, dbs[i], dbs[i + 1], oks[i])
  {
  }

  lemma SequenceShape<S>(exec: Exec<S>, content: string -> seq<string>, empty: S, files: seq<string>,
                         dbs: seq<Db<S>>, oks: seq<bool>)
    requires IsRunSequence(exec, content, empty, files, dbs, oks)
    ensures |dbs| == |oks| + 1 && dbs[0] == Db(empty, [], []) && IsPrefix(exec, content, empty, files, dbs[0])
  {
  }

  lemma {:induction false} AllStatementsPrefix(content: string -> seq<string>, files: seq<string>, n: nat)
    requires n <= |files|
    ensures AllStatements(content, files[..n]) <= AllStatements(content, files)
  {
    if n < |files| {
      var k := |files| - 1;
      assert files[..k][..n] == files[..n];
      AllStatementsPrefix(content, files[..k], n);
    } else {
      assert files[..n] == files;
    }
  }

  /**
   Over any sequence of runs on a fresh database, each failing or dying anywhere: the recorded ids are a prefix of
   the files that only grows, every file's statements are committed once and in order, and from the first successful
   run on the database is the one a single clean pass would make.
   */
  lemma {:induction false} RunsAreSafe<S>(exec: Exec<S>, content: string -> seq<string>, empty: S, files: seq<string>,
                                          dbs: seq<Db<S>>, oks: seq<bool>, j: nat)
    requires IsRunSequence(exec, content, empty, files, dbs, oks) && j < |dbs|
    ensures dbs[j].log <= files
    ensures dbs[j].history == AllStatements(content, dbs[j].log) <= AllStatements(content, files)
    ensures dbs[j].schema == ExecAll(exec, empty, dbs[j].history)
    ensures forall i :: 0 <= i <= j ==> dbs[i].log <= dbs[j].log && dbs[i].history <= dbs[j].history
    ensures (exists i :: 0 <= i < j && oks[i]) ==> dbs[j] == CleanPass(exec, content, empty, files)
  {
    hide IsRunSequence, IsPrefix, AllStatements, ExecAll;
    SequenceShape(exec, content, empty, files, dbs, oks);
    PrefixAt(exec, content, empty, files, dbs, oks, j);
    PrefixMeans(exec, content, empty, files, dbs[j]);
    forall i | 0 <= i <= j
      ensures dbs[i].log <= dbs[j].log && dbs[i].history <= dbs[j].history
    {
      PrefixAt(exec, content, empty, files, dbs, oks, i);
      LogsGrow(exec, content, empty, files, dbs, oks, i, j);
      PrefixesNest(exec, content, empty, files, dbs[i], dbs[j]);
    }
    if i :| 0 <= i < j && oks[i] {
      PrefixAt(exec, content, empty, files, dbs, oks, i);
      RunAt(exec, content, empty, files, dbs, oks, i);
      LogsGrow(exec, content, empty, files, dbs, oks, i + 1, j);
      assert dbs[j].log == files;
    }
  }

  lemma PrefixMeans<S>(exec: Exec<S>, content: string -> seq<string>, empty: S, files: seq<string>, db: Db<S>)
    requires IsPrefix(exec, content, empty, files, db)
    ensures db.log <= files
    ensures db.history == AllStatements(content, db.log) <= AllStatements(content, files)
    ensures db.schema == ExecAll(exec, empty, db.history)
  {
    hide AllStatements, ExecAll;
    AllStatementsPrefix(content, files, |db.log|);
  }

  lemma PrefixesNest<S>(exec: Exec<S>, content: string -> seq<string>, empty: S, files: seq<string>, db: Db<S>,
                        db': Db<S>)
    requires IsPrefix(exec, content, empty, files, db) && IsPrefix(exec, content, empty, files, db')
    requires |db.log| <= |db'.log|
    ensures db.log <= db'.log && db.history <= db'.history
  {
    hide AllStatements, ExecAll;
    assert db'.log[..|db.log|] == db.log;
    AllStatementsPrefix(content, db'.log, |db.log|);
  }

  /** The database after one clean pass over the files. */
  function CleanPass<S>(exec: Exec<S>, content: string -> seq<string>, empty: S, files: seq<string>): Db<S> {
    Db(ExecAll(exec, empty, AllStatements(content, files)), AllStatements(content, files), files)
  }

  lemma {:induction false} PrefixAt<S>(exec: Exec<S>, content: string -> seq<string>, empty: S, files: seq<string>,
                                       dbs: seq<Db<S>>, oks: seq<bool>, j: nat)
    requires IsRunSequence(exec, content, empty, files, dbs, oks) && j < |dbs|
    ensures IsPrefix(exec, content, empty, files, dbs[j])
  {
    hide IsRunSequence, IsClean;
    SequenceShape(exec, content, empty, files, dbs, oks);
    if j > 0 {
      PrefixAt(exec, content, empty, files, dbs, oks, j - 1);
      RunAt(exec, content, empty, files, dbs, oks, j - 1);
    }
  }

  lemma {:induction false} LogsGrow<S>(exec: Exec<S>, content: string -> seq<string>, empty: S, files: seq<string>,
                                       dbs: seq<Db<S>>, oks: seq<bool>, i: nat, j: nat)
    requires IsRunSequence(exec, content, empty, files, dbs, oks) && i <= j < |dbs|
    ensures |dbs[i].log| <= |dbs[j].log|
    decreases j
  {
    hide IsRunSequence, IsPrefix;
    SequenceShape(exec, content, empty, files, dbs, oks);
    if i < j {
      LogsGrow(exec, content, empty, files, dbs, oks, i, j - 1);
      PrefixAt(exec, content, empty, files, dbs, oks, j - 1);
      RunAt(exec, content, empty, files, dbs, oks, j - 1);
    }
  }

  lemma NewIsPrefix<S>(exec: Exec<S>, content: string -> seq<string>, empty: S, files: seq<string>)
    ensures IsPrefix(exec, content, empty, files, Db(empty, [], []))
  {
    assert files[..0] == [];
  }

  lemma OneMoreRun<S>(exec: Exec<S>, content: string -> seq<string>, empty: S, files: seq<string>, dbs: seq<Db<S>>,
                      oks: seq<bool>, db: Db<S>, ok: bool)
    requires IsRunSequence(exec, content, empty, files, dbs, oks)
    requires RunStep(exec, content, empty, files, dbs[|oks|], db, ok)
    ensures IsRunSequence(exec, content, empty, files, dbs + [db], oks + [ok])
  {
    hide RunStep;
    var dbs', oks' := dbs + [db], oks + [ok];
    forall i | 0 <= i < |oks'|
      ensures RunStep(exec, content, empty, files, dbs'[i], dbs'[i + 1], oks'[i])
    {
      assert i < |oks| ==> RunStep(exec, content, empty, files, dbs[i], dbs[i + 1], oks[i]);
    }
  }

  /**
   The runner started again and again on a new database, each time under a plan of its own: what it leaves is such a
   sequence, and so it is safe throughout, and clean from the first success on.
   */
  method RunAgainAndAgain<S>(db: Database<S>, names: seq<string>, locale: Collator, creates: Creates,
                             read: string -> string, ghost content: string -> seq<string>,
                             ghost empty: S, plans: seq<Plan>)
    returns (oks: seq<bool>, ghost dbs: seq<Db<S>>)
    requires IsCollator(locale) && forall x :: multiset(names)[x] <= 1
    requires db.committed == Db(empty, [], [])
    requires RunsAs(content, read)
    modifies db
    ensures |oks| == |plans|
    ensures IsRunSequence(db.exec, content, empty, SortedFiles(names, locale), dbs, oks)
    ensures dbs[|plans|] == db.committed && InMigrationOrder(db.committed.log, locale)
    ensures forall j :: 0 <= j <= |plans| ==>
              && dbs[j].log <= SortedFiles(names, locale)
              && dbs[j].history == AllStatements(content, dbs[j].log)
              && dbs[j].log <= db.committed.log && dbs[j].history <= db.committed.history
    ensures (exists i :: 0 <= i < |oks| && oks[i]) ==>
              db.committed == CleanPass(db.exec, content, empty, SortedFiles(names, locale))
  {
    hide IsCollator, IsPrefix, IsClean, AllStatements, SortedFiles, CleanPass, IsRunSequence, ListMigrationFiles,
      InMigrationOrder;
    ghost var files := SortedFiles(names, locale);
    oks, dbs := [], [db.committed];
    NewIsPrefix(db.exec, content, empty, files);
    NoRuns(db.exec, content, empty, files);
    LogInOrder(db.exec, content, empty, names, locale, db.committed);
    var n := 0;
    while n < |plans|
      invariant 0 <= n <= |plans| && |oks| == n && |dbs| == n + 1
      invariant dbs[n] == db.committed && IsPrefix(db.exec, content, empty, files, db.committed)
      invariant IsRunSequence(db.exec, content, empty, files, dbs, oks)
      invariant InMigrationOrder(db.committed.log, locale)
    {
      var ok := RunMigrations(db, names, locale, creates, read, content, empty, plans[n]);
      OneMoreRun(db.exec, content, empty, files, dbs, oks, db.committed, ok);
      oks, dbs := oks + [ok], dbs + [db.committed];
      n := n + 1;
    }
    RunsAreSafe(db.exec, content, empty, files, dbs, oks, |plans|);
    forall j | 0 <= j <= |plans|
      ensures dbs[j].log <= files && dbs[j].history == AllStatements(content, dbs[j].log)
    {
      RunsAreSafe(db.exec, content, empty, files, dbs, oks, j);
    }
  }

  lemma NoRuns<S>(exec: Exec<S>, content: string -> seq<string>, empty: S, files: seq<string>)
    ensures IsRunSequence(exec, content, empty, files, [Db(empty, [], [])], [])
  {
  }
}

/** The reconciliation workflow of schemahq/schemahq.py: temporary database
    names, the lifecycle of a temporary database, the role filter and the
    outcome of `diff`, and the exit codes of `diff_file`.

    The database server is a set of database names plus a log of the effects
    the workflow has on it. The migration engine, the SQL splitter and
    tokenizer, and statement execution are oracles bundled in an `Engine`. */
module SchemaHQ {
  import opened Wrappers
  import opened Roles

  // ---------------------------------------------------------------------
  // temporary_name

  /** The length of `string.ascii_lowercase`. */
  const AlphabetSize := 26

  /** The letter at index `k` of `string.ascii_lowercase`. */
  function Letter(k: nat): (c: char)
    requires k < AlphabetSize
    ensures 'a' <= c <= 'z'
  {
    ('a' as int + k) as char
  }

  /** The number of random letters in a temporary name. */
  const SuffixLength := 10

  const DefaultPrefix := "migra_"

  /** The indices `random.choice` picks in the alphabet, one per letter. */
  type Draws = d: seq<nat> | |d| == SuffixLength && forall i :: 0 <= i < |d| ==> d[i] < AlphabetSize
    witness [0, 0, 0, 0, 0, 0, 0, 0, 0, 0]

  /** The letters picked by the draws, joined. */
  function Letters(draws: seq<nat>): (s: string)
    requires forall i :: 0 <= i < |draws| ==> draws[i] < AlphabetSize
    ensures |s| == |draws|
    ensures forall i :: 0 <= i < |s| ==> s[i] == Letter(draws[i])
  {
    if draws == [] then []
    else Letters(draws[..|draws| - 1]) + [Letter(draws[|draws| - 1])]
  }

  /** `temporary_name(prefix)`: the prefix followed by ten lower-case
      letters. */
  function TemporaryName(prefix: string, draws: Draws): (name: string)
    ensures |name| == |prefix| + SuffixLength
    ensures name[..|prefix|] == prefix
    ensures forall i :: |prefix| <= i < |name| ==> 'a' <= name[i] <= 'z'
  {
    prefix + Letters(draws)
  }

  /** Different draws give different names: the letters determine the
      draws. */
  lemma TemporaryNameInjective(prefix: string, d1: Draws, d2: Draws)
    ensures TemporaryName(prefix, d1) == TemporaryName(prefix, d2) <==> d1 == d2
  {
    if TemporaryName(prefix, d1) == TemporaryName(prefix, d2) {
      forall i | 0 <= i < SuffixLength ensures d1[i] == d2[i] {
        var n1, n2 := TemporaryName(prefix, d1), TemporaryName(prefix, d2);
        assert n1[|prefix| + i] == Letter(d1[i]);
        assert n2[|prefix| + i] == Letter(d2[i]);
      }
    }
  }

  /** With the default prefix a temporary name is 16 characters long and
      starts with `migra_`. */
  lemma DefaultTemporaryName(draws: Draws)
    ensures |TemporaryName(DefaultPrefix, draws)| == 16
    ensures TemporaryName(DefaultPrefix, draws)[..6] == "migra_"
  {
  }

  // ---------------------------------------------------------------------
  // Effects on the database server

  datatype Effect =
    | Created(database: string)
    | RolledBack(database: string)
    | Closed(database: string)
    | Dropped(database: string)
    | Committed(database: string)
    | AppliedRoles(database: string, statements: seq<string>)
    | Executed(database: string, sql: string)
    | AppliedMigration(database: string, statements: seq<string>)

  /** The databases that exist after the effects, starting from `dbs`. */
  function Replay(dbs: set<string>, effects: seq<Effect>): set<string>
  {
    if effects == [] then dbs
    else
      var before := Replay(dbs, effects[..|effects| - 1]);
      match effects[|effects| - 1]
      case Created(d) => before + {d}
      case Dropped(d) => before - {d}
      case _ => before
    }

  /** Effects that create or drop no database. */
  predicate Neutral(effects: seq<Effect>)
  {
    forall e :: e in effects ==> !e.Created? && !e.Dropped?
  }

  lemma {:induction false} ReplayAppend(dbs: set<string>, a: seq<Effect>, b: seq<Effect>)
    ensures Replay(dbs, a + b) == Replay(Replay(dbs, a), b)
    decreases |b|
  {
    if b == [] {
      assert a + b == a;
    } else {
      assert (a + b)[..|a + b| - 1] == a + b[..|b| - 1];
      assert (a + b)[|a + b| - 1] == b[|b| - 1];
      ReplayAppend(dbs, a, b[..|b| - 1]);
    }
  }

  lemma {:induction false} ReplayNeutral(dbs: set<string>, effects: seq<Effect>)
    requires Neutral(effects)
    ensures Replay(dbs, effects) == dbs
  {
    if effects != [] {
      assert effects[|effects| - 1] in effects;
      assert Neutral(effects[..|effects| - 1]) by {
        forall e | e in effects[..|effects| - 1] ensures e in effects {
        }
      }
      ReplayNeutral(dbs, effects[..|effects| - 1]);
    }
  }

  // ---------------------------------------------------------------------
  // Failures and results

  /** Why `diff` raises: `extract_roles` raises, the role statements are
      refused as unsafe, the target does not exist, or the schema does not
      run in the sandbox. */
  datatype Failure =
    | RoleSyntax(cause: RoleError)
    | UnsafeRoleStatements
    | DatabaseDoesNotExist(database: string)
    | SQLSyntaxError(error: string, statements: string)

  /** The pair `diff` returns: the formatted SQL, if any, and whether it
      holds unsafe statements. */
  datatype Outcome = Outcome(sql: Option<string>, generatedUnsafe: bool)

  /** What a step returns or raises, and its effects in order. */
  datatype Run<T> = Run(result: Result<T, Failure>, effects: seq<Effect>)

  /** The answers of the code this model does not contain.
      - split: `sqlparse.split`;
      - tokenize: the tokens of `sqlparse.parse(statement)[0]`, as text;
      - inspectedRoles: the roles migra inspects in the fresh sandbox;
      - roleChanges: `statements_for_changes(from_roles, roles)`;
      - execute: the error `raw_execute(database, sql)` raises, if any;
      - changes: the statements of `Migration(from, sandbox)` after
        `add_all_changes`, for the from-database and the SQL run in the
        sandbox;
      - isUnsafe: whether `m.sql` raises `UnsafeMigrationException` for
        these statements when safety is on;
      - render: `pg_format(m.sql)`. */
  datatype Engine = Engine(
    split: string -> seq<string>,
    tokenize: string -> seq<string>,
    inspectedRoles: map<string, Role>,
    roleChanges: (map<string, Role>, RoleSet) -> seq<string>,
    execute: (string, string) -> Option<string>,
    changes: (string, string) -> seq<string>,
    isUnsafe: seq<string> -> bool,
    render: seq<string> -> string)

  // ---------------------------------------------------------------------
  // temporary_database

  /** The `except`/`finally` part of `temporary_database`: roll back when
      the body raised, then close the session and drop the database. */
  function Teardown(name: string, raised: bool): seq<Effect>
  {
    (if raised then [RolledBack(name)] else []) + [Closed(name), Dropped(name)]
  }

  /** `with temporary_database(...) as s: body`, for a database already
      named: create it, run the body, tear down, and pass on what the body
      returned or raised. */
  function Scoped<T>(name: string, body: Run<T>): Run<T>
  {
    Run(body.result, [Created(name)] + body.effects + Teardown(name, body.result.Failure?))
  }

  /** The lifecycle of a temporary database: created first, then the body,
      then a rollback exactly when the body raised, then close and drop last;
      what the body returned or raised is passed on. */
  lemma TemporaryDatabaseLifecycle<T>(name: string, body: Run<T>)
    ensures Scoped(name, body).result == body.result
    ensures |Scoped(name, body).effects| >= |body.effects| + 3
    ensures Scoped(name, body).effects[0] == Created(name)
    ensures Scoped(name, body).effects[1..|body.effects| + 1] == body.effects
    ensures Scoped(name, body).effects[|Scoped(name, body).effects| - 2..] == [Closed(name), Dropped(name)]
    ensures RolledBack(name) in Scoped(name, body).effects[|body.effects| + 1..] <==> body.result.Failure?
  {
    var teardown := Teardown(name, body.result.Failure?);
    var effects := Scoped(name, body).effects;
    assert effects == [Created(name)] + body.effects + teardown;
    TeardownShape(name, body.result.Failure?);
    Sandwich(Created(name), body.effects, teardown);
    assert effects[|body.effects| + 1..] == teardown;
  }

  /** A teardown ends with close and drop, and rolls back exactly when the
      body raised. */
  lemma TeardownShape(name: string, raised: bool)
    ensures |Teardown(name, raised)| >= 2
    ensures Teardown(name, raised)[|Teardown(name, raised)| - 2..] == [Closed(name), Dropped(name)]
    ensures RolledBack(name) in Teardown(name, raised) <==> raised
  {
  }

  /** The parts of `[first] + middle + last`. */
  lemma Sandwich<E>(first: E, middle: seq<E>, last: seq<E>)
    requires |last| >= 2
    ensures ([first] + middle + last)[0] == first
    ensures ([first] + middle + last)[1..|middle| + 1] == middle
    ensures ([first] + middle + last)[|middle| + 1..] == last
    ensures ([first] + middle + last)[|[first] + middle + last| - 2..] == last[|last| - 2..]
  {
    var whole := [first] + middle + last;
    assert whole[|middle| + 1..] == last;
  }

  /** A scope adds no applied statements of its own: the role and migration
      statements in its effects are exactly those of its body. */
  lemma ScopedApplies<T>(name: string, body: Run<T>)
    ensures forall e :: e in body.effects ==> e in Scoped(name, body).effects
    ensures forall e :: e in Scoped(name, body).effects && (e.AppliedRoles? || e.AppliedMigration?) ==> e in body.effects
  {
    assert Scoped(name, body).effects == [Created(name)] + body.effects + Teardown(name, body.result.Failure?);
  }

  /** The effects of the body come right after the creation. */
  lemma ScopedPrefix<T>(name: string, body: Run<T>, n: nat)
    requires n <= |body.effects|
    ensures Scoped(name, body).effects[1..n + 1] == body.effects[..n]
  {
    var effects := Scoped(name, body).effects;
    assert effects == [Created(name)] + body.effects + Teardown(name, body.result.Failure?);
    assert effects[1..n + 1] == body.effects[..n];
  }

  /** The log of a scope, step by step: creation, the body, the teardown. */
  lemma ScopedLog<T>(log0: seq<Effect>, name: string, body: Run<T>, log1: seq<Effect>, log2: seq<Effect>, log3: seq<Effect>)
    requires log1 == log0 + [Created(name)]
    requires log2 == log1 + body.effects
    requires log3 == log2 + Teardown(name, body.result.Failure?)
    ensures log3 == log0 + Scoped(name, body).effects
  {
    assert Scoped(name, body).effects == [Created(name)] + body.effects + Teardown(name, body.result.Failure?);
  }

  /** On the set of databases, a scope creates its database, runs the body
      and then removes the database, whether or not it existed before. */
  lemma ScopedReplay<T>(dbs: set<string>, name: string, body: Run<T>)
    ensures Replay(dbs, Scoped(name, body).effects) == Replay(dbs + {name}, body.effects) - {name}
  {
    var effects := Scoped(name, body).effects;
    var tail := (if body.result.Failure? then [RolledBack(name)] else []) + [Closed(name)];
    var front := [Created(name)] + body.effects + tail;
    assert effects == front + [Dropped(name)];
    assert effects[..|effects| - 1] == front;
    assert [Created(name)][..0] == [];
    ReplayAppend(dbs, [Created(name)], body.effects);
    ReplayAppend(dbs, [Created(name)] + body.effects, tail);
    ReplayNeutral(Replay(dbs + {name}, body.effects), tail);
  }

  /** The temporary database is gone afterwards, whatever existed before;
      if it did not exist and the body leaves the set of databases as it
      found it, the set is restored. */
  lemma ScopedRestores<T>(dbs: set<string>, name: string, body: Run<T>)
    ensures name !in Replay(dbs, Scoped(name, body).effects)
    ensures name !in dbs && Replay(dbs + {name}, body.effects) == dbs + {name} ==>
      Replay(dbs, Scoped(name, body).effects) == dbs
  {
    ScopedReplay(dbs, name, body);
  }

  /** A scope run step by step: creating the database, running the body and
      tearing down give the effects and the databases of `Scoped`. */
  lemma ScopeSteps<T>(name: string, body: Run<T>, log0: seq<Effect>, log1: seq<Effect>, log2: seq<Effect>,
                      dbs: set<string>, dbs1: set<string>, dbs2: set<string>)
    requires log1 == log0 + [Created(name)] + body.effects && dbs1 == Replay(dbs + {name}, body.effects)
    requires log2 == log1 + Teardown(name, body.result.Failure?) && dbs2 == dbs1 - {name}
    ensures log2 == log0 + Scoped(name, body).effects && dbs2 == Replay(dbs, Scoped(name, body).effects)
  {
    ScopedReplay(dbs, name, body);
  }

  // ---------------------------------------------------------------------
  // diff

  /** `from_roles` after the loop that deletes every role the schema does
      not declare. */
  function WithoutUndeclared(fromRoles: map<string, Role>, declared: set<string>): (kept: map<string, Role>)
    ensures kept.Keys == fromRoles.Keys * declared
    ensures forall k :: k in kept ==> kept[k] == fromRoles[k]
  {
    map k | k in fromRoles && k in declared :: fromRoles[k]
  }

  /** Before the loop nothing is deleted yet. */
  lemma NothingDeletedYet(fromRoles: map<string, Role>, declared: set<string>)
    ensures WithoutUndeclared(fromRoles, declared + (fromRoles.Keys - declared)) == fromRoles
  {
  }

  /** Deleting one doomed role from the map leaves it doomed no longer. */
  lemma DeleteOne(fromRoles: map<string, Role>, declared: set<string>, doomed: set<string>, k: string)
    requires k in doomed && doomed !! declared
    ensures WithoutUndeclared(fromRoles, declared + doomed) - {k} == WithoutUndeclared(fromRoles, declared + (doomed - {k}))
  {
    assert declared + (doomed - {k}) == (declared + doomed) - {k};
  }

  /** The loop at the top of `diff`: delete each inspected role whose name
      the schema does not declare; keep the others as they are. */
  method ExcludeUndeclared(fromRoles: map<string, Role>, declared: set<string>) returns (kept: map<string, Role>)
    ensures kept == WithoutUndeclared(fromRoles, declared)
  {
    kept := fromRoles;
    var doomed := fromRoles.Keys - declared;
    NothingDeletedYet(fromRoles, declared);
    while doomed != {}
      invariant doomed !! declared
      invariant kept == WithoutUndeclared(fromRoles, declared + doomed)
      decreases |doomed|
    {
      var k :| k in doomed;
      DeleteOne(fromRoles, declared, doomed, k);
      kept := kept - {k};
      doomed := doomed - {k};
    }
    assert declared + doomed == declared;
  }

  /** The role step of `diff`: compare the declared roles with the
      sandbox's (undeclared ones excluded); when there are statements,
      refuse unsafe ones, else apply them and commit. The value says whether
      role statements were applied. */
  function RolesRun(declared: RoleSet, sandbox: string, engine: Engine): Run<bool>
  {
    var statements := RoleStatementsFor(declared, engine);
    if statements == [] then Run(Success(false), [])
    else if engine.isUnsafe(statements) then Run(Failure(UnsafeRoleStatements), [])
    else Run(Success(true), [AppliedRoles(sandbox, statements), Committed(sandbox)])
  }

  /** The schema step of `diff`, once `from` is open: run the remaining SQL
      in the sandbox, then compare `from` with the sandbox. */
  function SchemaRun(from: string, statements: string, sandbox: string, unsafe: bool, apply: bool, engine: Engine): Run<Outcome>
  {
    var executed := [Executed(sandbox, statements)];
    match engine.execute(sandbox, statements)
    case Some(error) => Run(Failure(SQLSyntaxError(error, statements)), executed)
    case None =>
      var changes := engine.changes(from, statements);
      if changes == [] then Run(Success(Outcome(None, false)), executed)
      else if !unsafe && engine.isUnsafe(changes) then
        Run(Success(Outcome(Some(engine.render(changes)), true)), executed)
      else
        Run(Success(Outcome(Some(engine.render(changes)), false)),
            executed + (if apply then [AppliedMigration(from, changes)] else []))
  }

  /** The database the schema is compared against: the target when it
      exists, else a second temporary database standing in for it. */
  function FromDatabase(target: string, existing: set<string>, standIn: string): string
  {
    if target in existing then target else standIn
  }

  /** Everything inside the sandbox's `with` block. `existing` is the set of
      databases at that point. */
  function SandboxRun(doc: Document, unsafe: bool, apply: bool, target: string, existing: set<string>,
                      sandbox: string, standIn: string, engine: Engine): Run<Outcome>
  {
    var roles := RolesRun(doc.roles, sandbox, engine);
    match roles.result
    case Failure(f) => Run(Failure(f), roles.effects)
    case Success(_) =>
      var from := FromDatabase(target, existing, standIn);
      var body := SchemaRun(from, doc.remainder, sandbox, unsafe, apply, engine);
      var schema := if target in existing then body else Scoped(standIn, body);
      Run(schema.result, roles.effects + schema.effects)
  }

  /** `diff(sql_statements, db, unsafe, apply)` against a server holding
      `dbs`, with the letters of the two temporary names drawn in
      advance. */
  function DiffRun(sql: string, unsafe: bool, apply: bool, target: string, dbs: set<string>,
                   sandboxDraws: Draws, standInDraws: Draws, engine: Engine): Run<Outcome>
  {
    DiffOf(Extract(engine.split(sql), engine.tokenize), unsafe, apply, target, dbs, sandboxDraws, standInDraws, engine)
  }

  /** `diff` from the point where `extract_roles` has returned or raised. */
  function DiffOf(extracted: Result<Document, RoleError>, unsafe: bool, apply: bool, target: string, dbs: set<string>,
                  sandboxDraws: Draws, standInDraws: Draws, engine: Engine): Run<Outcome>
  {
    match extracted
    case Failure(e) => Run(Failure(RoleSyntax(e)), [])
    case Success(doc) =>
      var sandbox := TemporaryName(DefaultPrefix, sandboxDraws);
      var standIn := TemporaryName(DefaultPrefix, standInDraws);
      Scoped(sandbox, SandboxRun(doc, unsafe, apply, target, dbs + {sandbox}, sandbox, standIn, engine))
  }

  // ---------------------------------------------------------------------
  // diff_file

  /** `os.EX_OK`, `os.EX_USAGE`, `os.EX_DATAERR`, `os.EX_NOHOST` and
      `os.EX_OSFILE`. */
  const ExitOk := 0
  const ExitUsage := 64
  const ExitDataErr := 65
  const ExitNoHost := 68
  const ExitOsFile := 72

  /** How `diff_file` ends: with an exit status, or with an exception it
      does not catch. */
  datatype Exit = Code(status: int) | Uncaught(failure: Failure)

  /** The exit of `diff_file` once the schema file was read and `diff` ran. */
  function ExitFor(r: Result<Outcome, Failure>): (e: Exit)
    ensures e == Code(ExitDataErr) <==> r.Failure? && r.error.SQLSyntaxError?
    ensures e == Code(ExitNoHost) <==> r.Failure? && r.error.DatabaseDoesNotExist?
    ensures e == Code(ExitUsage) <==> r.Success? && r.value.generatedUnsafe
    ensures e == Code(ExitOk) <==> r.Success? && !r.value.generatedUnsafe
    ensures e.Uncaught? <==> r.Failure? && (r.error.RoleSyntax? || r.error.UnsafeRoleStatements?)
  {
    match r
    case Failure(DatabaseDoesNotExist(_)) => Code(ExitNoHost)
    case Failure(SQLSyntaxError(_, _)) => Code(ExitDataErr)
    case Failure(f) => Uncaught(f)
    case Success(outcome) => if outcome.generatedUnsafe then Code(ExitUsage) else Code(ExitOk)
  }

  // ---------------------------------------------------------------------
  // Properties of diff

  /** The effects of the role step create and drop nothing. */
  lemma RolesRunNeutral(declared: RoleSet, sandbox: string, engine: Engine)
    ensures Neutral(RolesRun(declared, sandbox, engine).effects)
  {
  }

  lemma SchemaRunNeutral(from: string, statements: string, sandbox: string, unsafe: bool, apply: bool, engine: Engine)
    ensures Neutral(SchemaRun(from, statements, sandbox, unsafe, apply, engine).effects)
  {
  }

  /** Inside the sandbox, the only database created and dropped again is
      the stand-in for a missing target. */
  lemma SandboxReplay(doc: Document, unsafe: bool, apply: bool, target: string, existing: set<string>,
                      sandbox: string, standIn: string, engine: Engine)
    ensures var roles := RolesRun(doc.roles, sandbox, engine);
            Replay(existing, SandboxRun(doc, unsafe, apply, target, existing, sandbox, standIn, engine).effects) ==
              if roles.result.Success? && target !in existing then existing - {standIn} else existing
  {
    var roles := RolesRun(doc.roles, sandbox, engine);
    RolesRunNeutral(doc.roles, sandbox, engine);
    ReplayNeutral(existing, roles.effects);
    if roles.result.Success? {
      var body := SchemaRun(FromDatabase(target, existing, standIn), doc.remainder, sandbox, unsafe, apply, engine);
      SchemaRunNeutral(FromDatabase(target, existing, standIn), doc.remainder, sandbox, unsafe, apply, engine);
      var schema := if target in existing then body else Scoped(standIn, body);
      if target in existing {
        ReplayNeutral(existing, body.effects);
      } else {
        ReplayNeutral(existing + {standIn}, body.effects);
        ScopedReplay(existing, standIn, body);
      }
      ReplayAppend(existing, roles.effects, schema.effects);
    }
  }

  /** The body of the sandbox, step by step, once the role step passed: the
      role effects, then the schema comparison, in a stand-in scope when the
      target does not exist. */
  lemma SandboxSteps(doc: Document, unsafe: bool, apply: bool, target: string, existing: set<string>,
                     sandbox: string, standIn: string, engine: Engine,
                     r: Result<Outcome, Failure>, log0: seq<Effect>, log1: seq<Effect>, log2: seq<Effect>, dbs2: set<string>)
    requires RolesRun(doc.roles, sandbox, engine).result.Success?
    requires log1 == log0 + RolesRun(doc.roles, sandbox, engine).effects
    requires var body := SchemaRun(FromDatabase(target, existing, standIn), doc.remainder, sandbox, unsafe, apply, engine);
             var schema := if target in existing then body else Scoped(standIn, body);
             r == schema.result && log2 == log1 + schema.effects
    requires dbs2 == if target in existing then existing else existing + {standIn} - {standIn}
    ensures var run := SandboxRun(doc, unsafe, apply, target, existing, sandbox, standIn, engine);
            r == run.result && log2 == log0 + run.effects && dbs2 == Replay(existing, run.effects)
  {
    var roles := RolesRun(doc.roles, sandbox, engine);
    var body := SchemaRun(FromDatabase(target, existing, standIn), doc.remainder, sandbox, unsafe, apply, engine);
    var schema := if target in existing then body else Scoped(standIn, body);
    var run := SandboxRun(doc, unsafe, apply, target, existing, sandbox, standIn, engine);
    assert run == Run(schema.result, roles.effects + schema.effects);
    assert log2 == log0 + (roles.effects + schema.effects);
    SandboxReplay(doc, unsafe, apply, target, existing, sandbox, standIn, engine);
    assert existing + {standIn} - {standIn} == existing - {standIn};
  }

  /** The sandbox is created first and dropped last whenever the role
      extraction succeeds; nothing is created otherwise. */
  lemma SandboxAlwaysDropped(extracted: Result<Document, RoleError>, unsafe: bool, apply: bool, target: string, dbs: set<string>,
                             sandboxDraws: Draws, standInDraws: Draws, engine: Engine)
    ensures var run := DiffOf(extracted, unsafe, apply, target, dbs, sandboxDraws, standInDraws, engine);
            var sandbox := TemporaryName(DefaultPrefix, sandboxDraws);
            if extracted.Success? then
              run.effects[0] == Created(sandbox) && run.effects[|run.effects| - 1] == Dropped(sandbox) &&
              sandbox !in Replay(dbs, run.effects)
            else run.effects == []
  {
    if extracted.Success? {
      var doc := extracted.value;
      var sandbox := TemporaryName(DefaultPrefix, sandboxDraws);
      var standIn := TemporaryName(DefaultPrefix, standInDraws);
      ScopedRestores(dbs, sandbox, SandboxRun(doc, unsafe, apply, target, dbs + {sandbox}, sandbox, standIn, engine));
    }
  }

  /** When both temporary names are new to the server, `diff` leaves the
      set of databases as it found it. */
  lemma DiffRestoresDatabases(extracted: Result<Document, RoleError>, unsafe: bool, apply: bool, target: string, dbs: set<string>,
                              sandboxDraws: Draws, standInDraws: Draws, engine: Engine)
    requires TemporaryName(DefaultPrefix, sandboxDraws) !in dbs
    requires TemporaryName(DefaultPrefix, standInDraws) !in dbs + {TemporaryName(DefaultPrefix, sandboxDraws)}
    ensures Replay(dbs, DiffOf(extracted, unsafe, apply, target, dbs, sandboxDraws, standInDraws, engine).effects) == dbs
  {
    if extracted.Success? {
      var doc := extracted.value;
      var sandbox := TemporaryName(DefaultPrefix, sandboxDraws);
      var standIn := TemporaryName(DefaultPrefix, standInDraws);
      SandboxReplay(doc, unsafe, apply, target, dbs + {sandbox}, sandbox, standIn, engine);
      ScopedReplay(dbs, sandbox, SandboxRun(doc, unsafe, apply, target, dbs + {sandbox}, sandbox, standIn, engine));
    }
  }

  /** Within the schema step, the migration is applied exactly when `apply`
      is set and safe SQL was produced, and only to `from`. */
  lemma SchemaRunAppliedIff(from: string, statements: string, sandbox: string, unsafe: bool, apply: bool, engine: Engine)
    ensures var body := SchemaRun(from, statements, sandbox, unsafe, apply, engine);
            (exists e :: e in body.effects && e.AppliedMigration?) <==>
              apply && body.result.Success? && body.result.value.sql.Some? && !body.result.value.generatedUnsafe
    ensures var body := SchemaRun(from, statements, sandbox, unsafe, apply, engine);
            forall e :: e in body.effects ==> !e.AppliedRoles? && (e.AppliedMigration? ==> e.database == from)
  {
    var body := SchemaRun(from, statements, sandbox, unsafe, apply, engine);
    if apply && body.result.Success? && body.result.value.sql.Some? && !body.result.value.generatedUnsafe {
      var changes := engine.changes(from, statements);
      assert body.effects[1] == AppliedMigration(from, changes);
    }
  }

  /** Within the sandbox, the migration is applied exactly when the role
      step passed, `apply` is set and safe SQL was produced; it goes to the
      target when the target exists. */
  lemma SandboxMigrationApplied(doc: Document, unsafe: bool, apply: bool, target: string, existing: set<string>,
                                sandbox: string, standIn: string, engine: Engine)
    ensures var inner := SandboxRun(doc, unsafe, apply, target, existing, sandbox, standIn, engine);
            (exists e :: e in inner.effects && e.AppliedMigration?) <==>
              apply && inner.result.Success? && inner.result.value.sql.Some? && !inner.result.value.generatedUnsafe
    ensures var inner := SandboxRun(doc, unsafe, apply, target, existing, sandbox, standIn, engine);
            target in existing ==> forall e :: e in inner.effects && e.AppliedMigration? ==> e.database == target
  {
    var inner := SandboxRun(doc, unsafe, apply, target, existing, sandbox, standIn, engine);
    var roles := RolesRun(doc.roles, sandbox, engine);
    if roles.result.Success? {
      var from := FromDatabase(target, existing, standIn);
      var body := SchemaRun(from, doc.remainder, sandbox, unsafe, apply, engine);
      SchemaRunAppliedIff(from, doc.remainder, sandbox, unsafe, apply, engine);
      var schema := if target in existing then body else Scoped(standIn, body);
      if target !in existing {
        ScopedApplies(standIn, body);
      }
      assert inner.effects == roles.effects + schema.effects;
      assert inner.result == body.result;
      if exists e :: e in body.effects && e.AppliedMigration? {
        var e :| e in body.effects && e.AppliedMigration?;
        assert e in inner.effects;
      }
    }
  }

  /** The schema migration is applied exactly when `apply` is set and
      `diff` returns SQL that it did not report as unsafe; it is applied to
      the target when the target exists. */
  lemma MigrationAppliedIff(extracted: Result<Document, RoleError>, unsafe: bool, apply: bool, target: string, dbs: set<string>,
                            sandboxDraws: Draws, standInDraws: Draws, engine: Engine)
    ensures var run := DiffOf(extracted, unsafe, apply, target, dbs, sandboxDraws, standInDraws, engine);
            (exists e :: e in run.effects && e.AppliedMigration?) <==>
              apply && run.result.Success? && run.result.value.sql.Some? && !run.result.value.generatedUnsafe
    ensures var run := DiffOf(extracted, unsafe, apply, target, dbs, sandboxDraws, standInDraws, engine);
            var sandbox := TemporaryName(DefaultPrefix, sandboxDraws);
            target in dbs + {sandbox} ==>
              forall e :: e in run.effects && e.AppliedMigration? ==> e.database == target
  {
    if extracted.Success? {
      var doc := extracted.value;
      var sandbox := TemporaryName(DefaultPrefix, sandboxDraws);
      var standIn := TemporaryName(DefaultPrefix, standInDraws);
      var inner := SandboxRun(doc, unsafe, apply, target, dbs + {sandbox}, sandbox, standIn, engine);
      SandboxMigrationApplied(doc, unsafe, apply, target, dbs + {sandbox}, sandbox, standIn, engine);
      ScopedApplies(sandbox, inner);
      if exists e :: e in inner.effects && e.AppliedMigration? {
        var e :| e in inner.effects && e.AppliedMigration?;
        assert e in Scoped(sandbox, inner).effects;
      }
    }
  }

  /** The role statements `diff` compares: the declared roles against the
      sandbox's, undeclared ones excluded. */
  function RoleStatementsFor(declared: RoleSet, engine: Engine): seq<string>
  {
    engine.roleChanges(WithoutUndeclared(engine.inspectedRoles, declared.entries.Keys), declared)
  }

  lemma SandboxRolesApplied(doc: Document, unsafe: bool, apply: bool, target: string, existing: set<string>,
                            sandbox: string, standIn: string, engine: Engine)
    ensures var inner := SandboxRun(doc, unsafe, apply, target, existing, sandbox, standIn, engine);
            var statements := RoleStatementsFor(doc.roles, engine);
            && ((exists e :: e in inner.effects && e.AppliedRoles?) <==> statements != [] && !engine.isUnsafe(statements))
            && (statements != [] && !engine.isUnsafe(statements) ==>
                  inner.effects[..2] == [AppliedRoles(sandbox, statements), Committed(sandbox)])
  {
    var inner := SandboxRun(doc, unsafe, apply, target, existing, sandbox, standIn, engine);
    var roles := RolesRun(doc.roles, sandbox, engine);
    if roles.result.Success? {
      var from := FromDatabase(target, existing, standIn);
      var body := SchemaRun(from, doc.remainder, sandbox, unsafe, apply, engine);
      SchemaRunAppliedIff(from, doc.remainder, sandbox, unsafe, apply, engine);
      var schema := if target in existing then body else Scoped(standIn, body);
      if target !in existing {
        ScopedApplies(standIn, body);
      }
      assert inner.effects == roles.effects + schema.effects;
      RolesThenSchema(roles.effects, schema.effects);
      if roles.effects != [] {
        assert roles.effects[0] in roles.effects;
      }
    }
  }

  /** Role effects in front of schema effects that apply no roles. */
  lemma RolesThenSchema(roles: seq<Effect>, schema: seq<Effect>)
    requires forall e :: e in schema ==> !e.AppliedRoles?
    ensures (exists e :: e in roles + schema && e.AppliedRoles?) <==> (exists e :: e in roles && e.AppliedRoles?)
    ensures |roles| >= 2 ==> (roles + schema)[..2] == roles[..2]
  {
    if exists e :: e in roles && e.AppliedRoles? {
      var e :| e in roles && e.AppliedRoles?;
      assert e in roles + schema;
    }
    if |roles| >= 2 {
      assert (roles + schema)[..2] == roles[..2];
    }
  }

  /** Role statements are applied to the sandbox, and committed right after,
      exactly when comparing the declared roles with the sandbox's produces
      statements and they are safe. */
  lemma RolesAppliedIff(extracted: Result<Document, RoleError>, unsafe: bool, apply: bool, target: string, dbs: set<string>,
                        sandboxDraws: Draws, standInDraws: Draws, engine: Engine)
    ensures var run := DiffOf(extracted, unsafe, apply, target, dbs, sandboxDraws, standInDraws, engine);
            (exists e :: e in run.effects && e.AppliedRoles?) <==>
              extracted.Success? &&
              var statements := RoleStatementsFor(extracted.value.roles, engine);
              statements != [] && !engine.isUnsafe(statements)
    ensures var run := DiffOf(extracted, unsafe, apply, target, dbs, sandboxDraws, standInDraws, engine);
            var sandbox := TemporaryName(DefaultPrefix, sandboxDraws);
            extracted.Success? ==>
              var statements := RoleStatementsFor(extracted.value.roles, engine);
              statements != [] && !engine.isUnsafe(statements) ==>
                run.effects[1..3] == [AppliedRoles(sandbox, statements), Committed(sandbox)]
  {
    if extracted.Success? {
      var doc := extracted.value;
      var sandbox := TemporaryName(DefaultPrefix, sandboxDraws);
      var standIn := TemporaryName(DefaultPrefix, standInDraws);
      var inner := SandboxRun(doc, unsafe, apply, target, dbs + {sandbox}, sandbox, standIn, engine);
      var statements := RoleStatementsFor(doc.roles, engine);
      SandboxRolesApplied(doc, unsafe, apply, target, dbs + {sandbox}, sandbox, standIn, engine);
      ScopedApplies(sandbox, inner);
      if exists e :: e in inner.effects && e.AppliedRoles? {
        var e :| e in inner.effects && e.AppliedRoles?;
        assert e in Scoped(sandbox, inner).effects;
      }
      if statements != [] && !engine.isUnsafe(statements) {
        ScopedPrefix(sandbox, inner, 2);
      }
    }
  }

  /** A schema that does not run in the sandbox raises SQLSyntaxError with
      the engine's error and exactly the non-role statements of the
      schema. */
  lemma SyntaxErrorCarriesStatements(extracted: Result<Document, RoleError>, unsafe: bool, apply: bool, target: string, dbs: set<string>,
                                     sandboxDraws: Draws, standInDraws: Draws, engine: Engine)
    ensures var run := DiffOf(extracted, unsafe, apply, target, dbs, sandboxDraws, standInDraws, engine);
                        run.result.Failure? && run.result.error.SQLSyntaxError? ==>
              extracted.Success? &&
              run.result.error.statements == extracted.value.remainder &&
              engine.execute(TemporaryName(DefaultPrefix, sandboxDraws), extracted.value.remainder) == Some(run.result.error.error)
  {
  }

  /** What `diff` returns or raises, case by case:
      - when extract_roles raises, that error;
      - when the declared roles need unsafe statements, UnsafeRoleStatements;
      - when the remaining SQL does not run in the sandbox, SQLSyntaxError
        with the engine's error and that SQL;
      - when the migration is empty, `(None, False)`;
      - when it holds unsafe statements and safety is on, the rendered SQL
        and `True`;
      - otherwise the rendered SQL and `False`. */
  lemma DiffOutcome(extracted: Result<Document, RoleError>, unsafe: bool, apply: bool, target: string, dbs: set<string>,
                    sandboxDraws: Draws, standInDraws: Draws, engine: Engine)
    ensures var run := DiffOf(extracted, unsafe, apply, target, dbs, sandboxDraws, standInDraws, engine);
            var sandbox := TemporaryName(DefaultPrefix, sandboxDraws);
            var standIn := TemporaryName(DefaultPrefix, standInDraws);
            match extracted
            case Failure(e) => run.result == Failure(RoleSyntax(e))
            case Success(doc) =>
              var roleStatements := RoleStatementsFor(doc.roles, engine);
              var changes := engine.changes(FromDatabase(target, dbs + {sandbox}, standIn), doc.remainder);
              run.result ==
                if roleStatements != [] && engine.isUnsafe(roleStatements) then Failure(UnsafeRoleStatements)
                else if engine.execute(sandbox, doc.remainder).Some? then
                  Failure(SQLSyntaxError(engine.execute(sandbox, doc.remainder).value, doc.remainder))
                else if changes == [] then Success(Outcome(None, false))
                else if !unsafe && engine.isUnsafe(changes) then Success(Outcome(Some(engine.render(changes)), true))
                else Success(Outcome(Some(engine.render(changes)), false))
  {
  }

  /** `diff` never raises DatabaseDoesNotExist: a missing target is replaced
      by an empty temporary database. So `diff_file` never exits with
      EX_NOHOST. */
  lemma NeverNoHost(extracted: Result<Document, RoleError>, unsafe: bool, apply: bool, target: string, dbs: set<string>,
                    sandboxDraws: Draws, standInDraws: Draws, engine: Engine)
    ensures var run := DiffOf(extracted, unsafe, apply, target, dbs, sandboxDraws, standInDraws, engine);
            !(run.result.Failure? && run.result.error.DatabaseDoesNotExist?) &&
            ExitFor(run.result) != Code(ExitNoHost)
  {
  }

  /** An unsafe report needs safety on: with `unsafe` set, `diff` never
      reports unsafe statements; and a report always carries SQL. */
  lemma UnsafeReportNeedsSafety(extracted: Result<Document, RoleError>, unsafe: bool, apply: bool, target: string, dbs: set<string>,
                                sandboxDraws: Draws, standInDraws: Draws, engine: Engine)
    ensures var run := DiffOf(extracted, unsafe, apply, target, dbs, sandboxDraws, standInDraws, engine);
            run.result.Success? && run.result.value.generatedUnsafe ==> !unsafe && run.result.value.sql.Some?
  {
  }

  // ---------------------------------------------------------------------
  // The workflow on a database server

  /** A database server: the databases it holds, and the effects the
      workflow has had on it so far. */
  class Cluster {
    var databases: set<string>
    var log: seq<Effect>

    constructor(existing: set<string>)
      ensures databases == existing && log == []
    {
      databases := existing;
      log := [];
    }

    /** An effect that creates and drops nothing. */
    method Record(e: Effect)
      requires !e.Created? && !e.Dropped?
      modifies this
      ensures log == old(log) + [e] && databases == old(databases)
    {
      log := log + [e];
    }

    /** `create_database`. */
    method CreateDatabase(name: string)
      modifies this
      ensures databases == old(databases) + {name} && log == old(log) + [Created(name)]
    {
      databases := databases + {name};
      log := log + [Created(name)];
    }

    /** `drop_database`. */
    method DropDatabase(name: string)
      modifies this
      ensures databases == old(databases) - {name} && log == old(log) + [Dropped(name)]
    {
      databases := databases - {name};
      log := log + [Dropped(name)];
    }

    /** Entering `temporary_database`: name it and create it. */
    method OpenTemporaryDatabase(draws: Draws) returns (name: string)
      modifies this
      ensures name == TemporaryName(DefaultPrefix, draws)
      ensures databases == old(databases) + {name} && log == old(log) + [Created(name)]
    {
      name := TemporaryName(DefaultPrefix, draws);
      CreateDatabase(name);
    }

    /** Leaving `temporary_database`: roll back if the body raised, then
        close and drop. */
    method CloseTemporaryDatabase(name: string, raised: bool)
      modifies this
      ensures log == old(log) + Teardown(name, raised)
      ensures databases == old(databases) - {name}
    {
      if raised {
        Record(RolledBack(name));
      }
      Record(Closed(name));
      DropDatabase(name);
    }

    /** Lines 92-114 of `diff`. */
    method ReconcileRoles(declared: RoleSet, sandbox: string, engine: Engine) returns (r: Result<bool, Failure>)
      modifies this
      ensures r == RolesRun(declared, sandbox, engine).result
      ensures log == old(log) + RolesRun(declared, sandbox, engine).effects
      ensures databases == old(databases)
    {
      var fromRoles := ExcludeUndeclared(engine.inspectedRoles, declared.entries.Keys);
      var statements := engine.roleChanges(fromRoles, declared);
      if statements == [] {
        return Success(false);
      }
      if engine.isUnsafe(statements) {
        return Failure(UnsafeRoleStatements);
      }
      Record(AppliedRoles(sandbox, statements));
      Record(Committed(sandbox));
      return Success(true);
    }

    /** Lines 120-163 of `diff`, once `from` is open. */
    method CompareSchema(from: string, statements: string, sandbox: string, unsafe: bool, apply: bool, engine: Engine)
      returns (r: Result<Outcome, Failure>)
      modifies this
      ensures r == SchemaRun(from, statements, sandbox, unsafe, apply, engine).result
      ensures log == old(log) + SchemaRun(from, statements, sandbox, unsafe, apply, engine).effects
      ensures databases == old(databases)
    {
      Record(Executed(sandbox, statements));
      var error := engine.execute(sandbox, statements);
      if error.Some? {
        return Failure(SQLSyntaxError(error.value, statements));
      }
      var safety := !unsafe;
      var changes := engine.changes(from, statements);
      if changes == [] {
        return Success(Outcome(None, false));
      }
      if safety && engine.isUnsafe(changes) {
        return Success(Outcome(Some(engine.render(changes)), true));
      }
      var formatted := engine.render(changes);
      if apply {
        Record(AppliedMigration(from, changes));
      }
      return Success(Outcome(Some(formatted), false));
    }

    /** `diff(sql_statements, db, unsafe, apply)`. */
    method Diff(sql: string, unsafe: bool, apply: bool, target: string,
                sandboxDraws: Draws, standInDraws: Draws, engine: Engine) returns (r: Result<Outcome, Failure>)
      modifies this
      ensures var run := DiffRun(sql, unsafe, apply, target, old(databases), sandboxDraws, standInDraws, engine);
              r == run.result && log == old(log) + run.effects && databases == Replay(old(databases), run.effects)
    {
      var extracted := ExtractRoles(engine.split(sql), engine.tokenize);
      if extracted.Failure? {
        return Failure(RoleSyntax(extracted.error));
      }
      r := WithSandbox(extracted.value, unsafe, apply, target, sandboxDraws, standInDraws, engine);
    }

    /** `diff` once `extract_roles` has returned: the sandbox's `with`
        block. */
    method WithSandbox(doc: Document, unsafe: bool, apply: bool, target: string,
                       sandboxDraws: Draws, standInDraws: Draws, engine: Engine) returns (r: Result<Outcome, Failure>)
      modifies this
      ensures var run := DiffOf(Success(doc), unsafe, apply, target, old(databases), sandboxDraws, standInDraws, engine);
              r == run.result && log == old(log) + run.effects && databases == Replay(old(databases), run.effects)
    {
      ghost var dbs, log0 := databases, log;
      var sandbox := OpenTemporaryDatabase(sandboxDraws);
      r := InSandbox(doc, unsafe, apply, target, sandbox, standInDraws, engine);
      ghost var log1, dbs1 := log, databases;
      CloseTemporaryDatabase(sandbox, r.Failure?);
      ghost var inner := SandboxRun(doc, unsafe, apply, target, dbs + {sandbox}, sandbox, TemporaryName(DefaultPrefix, standInDraws), engine);
      ScopeSteps(sandbox, inner, log0, log1, log, dbs, dbs1, databases);
    }

    /** The body of `with temporary_database(base_uri) as sTemp` in `diff`. */
    method InSandbox(doc: Document, unsafe: bool, apply: bool, target: string, sandbox: string,
                     standInDraws: Draws, engine: Engine) returns (r: Result<Outcome, Failure>)
      modifies this
      ensures var run := SandboxRun(doc, unsafe, apply, target, old(databases), sandbox, TemporaryName(DefaultPrefix, standInDraws), engine);
              r == run.result && log == old(log) + run.effects && databases == Replay(old(databases), run.effects)
    {
      ghost var existing, log0 := databases, log;
      var standIn := TemporaryName(DefaultPrefix, standInDraws);
      var roles := ReconcileRoles(doc.roles, sandbox, engine);
      if roles.Failure? {
        SandboxReplay(doc, unsafe, apply, target, existing, sandbox, standIn, engine);
        return Failure(roles.error);
      }
      ghost var log1 := log;
      var targetExists := target in databases;
      if targetExists {
        r := CompareSchema(target, doc.remainder, sandbox, unsafe, apply, engine);
      } else {
        standIn, r := CompareInStandIn(doc.remainder, sandbox, unsafe, apply, standInDraws, engine);
      }
      SandboxSteps(doc, unsafe, apply, target, existing, sandbox, standIn, engine, r, log0, log1, log, databases);
    }

    /** `with temporary_database(base_uri) as sFrom` in `diff`, when the
        target does not exist: compare against an empty stand-in. */
    method CompareInStandIn(statements: string, sandbox: string, unsafe: bool, apply: bool,
                            standInDraws: Draws, engine: Engine) returns (standIn: string, r: Result<Outcome, Failure>)
      modifies this
      ensures standIn == TemporaryName(DefaultPrefix, standInDraws)
      ensures var scoped := Scoped(standIn, SchemaRun(standIn, statements, sandbox, unsafe, apply, engine));
              r == scoped.result && log == old(log) + scoped.effects && databases == old(databases) + {standIn} - {standIn}
    {
      standIn := OpenTemporaryDatabase(standInDraws);
      ghost var log1 := log;
      r := CompareSchema(standIn, statements, sandbox, unsafe, apply, engine);
      ghost var log2 := log;
      CloseTemporaryDatabase(standIn, r.Failure?);
      ghost var body := SchemaRun(standIn, statements, sandbox, unsafe, apply, engine);
      ScopedLog(old(log), standIn, body, log1, log2, log);
    }

    /** `diff_file(schema, db, unsafe, apply)`; `schema` is the content of
        the schema file, or None when the file does not exist. */
    method DiffFile(schema: Option<string>, unsafe: bool, apply: bool, target: string,
                    sandboxDraws: Draws, standInDraws: Draws, engine: Engine) returns (exit: Exit)
      modifies this
      ensures schema.None? ==> exit == Code(ExitOsFile) && log == old(log) && databases == old(databases)
      ensures schema.Some? ==>
                var run := DiffRun(schema.value, unsafe, apply, target, old(databases), sandboxDraws, standInDraws, engine);
                exit == ExitFor(run.result) && log == old(log) + run.effects && databases == Replay(old(databases), run.effects)
    {
      if schema.None? {
        return Code(ExitOsFile);
      }
      var r := Diff(schema.value, unsafe, apply, target, sandboxDraws, standInDraws, engine);
      match r
      case Failure(DatabaseDoesNotExist(_)) =>
        return Code(ExitNoHost);
      case Failure(SQLSyntaxError(_, _)) =>
        return Code(ExitDataErr);
      case Failure(f) =>
        return Uncaught(f);
      case Success(outcome) =>
        if outcome.generatedUnsafe {
          return Code(ExitUsage);
        }
        return Code(ExitOk);
    }
  }
}

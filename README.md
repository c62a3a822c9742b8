# schemahq: role extraction and the diff workflow, in Dafny

This project models the core of schemahq, a tool that brings a PostgreSQL
database in line with a schema file. The model covers two parts:

- **The `CREATE ROLE` extractor** (`schemahq/roles.py`).
  - `extract_roles` splits a schema into its role statements and the
    remaining SQL. Empty statements are dropped, and every other statement
    goes to the remainder followed by one newline.
  - `roles` turns each role statement's tokens into a role record. It takes
    the name from the fifth token and starts from fixed defaults. It then
    walks the option tokens with a cursor: a token glued to `LOGIN ` is
    re-split in place, `PASSWORD` skips one token, and `VALID` and
    `CONNECTION` read the token three places after their successor. The
    records are collected into an ordered dictionary keyed by name.
- **The workflow of `diff` and `diff_file`** (`schemahq/schemahq.py`).
  - `temporary_name` gives a prefix plus ten lower-case letters.
  - `temporary_database` creates a database, runs the body, rolls back if
    the body raised, then closes the session and drops the database.
  - `diff` does the following, in order:
    - extracts the roles;
    - opens a sandbox database, and leaves the roles it inspects there that
      the schema does not declare out of the comparison;
    - applies the role statements if they are safe;
    - runs the rest of the schema in the sandbox and compares the target
      (or an empty stand-in when the target does not exist) with the
      sandbox;
    - then reports the migration as up to date, as unsafe, or as SQL that
      it applies when asked.
  - `diff_file` maps the outcome to an exit status.

Modules:

- `Wrappers`: `Option` and `Result`.
- `Text`: the Python string operations the parser uses: `startswith`,
  `split(" ")`, `strip("'")`, `int()` and `str()`.
- `Roles`: the extractor. `ParseRole`, `ParseRoles` and `ExtractRoles` are
  the loops of the source. Each is proved equal to a loop-free
  specification: `Walk`/`RoleOf`, `RolesOf` and `Extract`.
- `RoleFacts`: properties of the option walk.
- `RoleScenarios`: the expectations of the test file, proved on
  hand-written token lists shaped like sqlparse's output for those
  statements.
- `SchemaHQ`: temporary names, the scope of a temporary database, the role
  filter, the outcome of `diff`, the exit codes, and a `Cluster` class.
  - A `Cluster` holds the set of databases on the server and a log of the
    effects the workflow has had on it.
  - Its methods follow the `with`/`try`/`finally` structure of the source.
    Each method is proved to produce exactly the result and the effects of
    the specification functions `Scoped`, `RolesRun`, `SchemaRun`,
    `SandboxRun` and `DiffRun`.

Code the model does not contain is passed in as a parameter:

- the SQL splitter and tokenizer, sqlparse (`Engine.split`,
  `Engine.tokenize`, and the `tokenize` parameter of `ExtractRoles`);
- the roles migra inspects in the sandbox, and `statements_for_changes`;
- `raw_execute`, the statements of a migra `Migration`, migra's safety
  check, and `pg_format`;
- the letters `random.choice` draws (`Draws`).

Where the code and its documentation differ, the model follows the code:

- **No superuser flag and no password.** The parser keeps neither, so the
  record has neither (`schemahq/roles.py:32-42`, `schemahq/roles.py:56-58`).
- **`PASSWORD` skips the whitespace token, not the password.** The
  tokenizer yields whitespace tokens, so the token `PASSWORD` skips is the
  space after it. The quoted password value is then examined as an option.
  It changes nothing only because a quoted literal is never a keyword
  (`QuotedIsInert`, `DavideIsDefault`).
- **The `VALID` and `CONNECTION` cursor stops on the value token.** After
  `i += 1` and `i += 3`, the cursor points at the value itself, so the value
  is examined next as an option. For a quoted date or an integer this
  changes nothing (`ValidUntilStripsQuotes`, `ConnectionLimitParsed`).
  `CONNECTION` has no `continue`, so it also falls through the flag tests.
- **`DatabaseDoesNotExist` is never raised.** `diff` replaces a missing
  target with an empty temporary database, so the `EX_NOHOST` branch of
  `diff_file` is dead (`NeverNoHost`).
- **`LOGIN`/`NOLOGIN` is checked twice.** The second check repeats the first
  and changes nothing; `SetFlags` keeps both.

## Model

| member | source | states |
|---|---|---|
| Text.Split | schemahq/roles.py:30 | `str.split(" ")` never returns an empty list, and none of its pieces contains the separator |
| Text.JoinSplit | schemahq/roles.py:30 | joining the pieces of a split with the separator gives back the original token |
| Text.SplitJoin | schemahq/roles.py:52 | splitting the join of separator-free pieces gives back exactly those pieces |
| Text.SplitAfterPlain | schemahq/roles.py:30 | a leading separator-free part stays glued to the first piece of the split |
| Text.StripLeading | schemahq/roles.py:61 | `lstrip` removes a prefix made only of the character, and the result does not start with it |
| Text.StripTrailing | schemahq/roles.py:61 | `rstrip` removes a suffix made only of the character, and the result does not end with it |
| Text.StripSurrounded | schemahq/roles.py:61 | `strip("'")` of quotes around a core that neither starts nor ends with a quote gives that core |
| Text.LeadingRun | schemahq/roles.py:61 | a leading run of the character is removed entirely, whatever follows it |
| Text.TrailingRun | schemahq/roles.py:61 | a trailing run of the character is removed entirely, whatever precedes it |
| Text.ParseInt | schemahq/roles.py:66 | `int()` accepts only a non-empty string; a leading minus gives a non-positive value, no minus a non-negative one |
| Text.ShowNat | schemahq/roles.py:66 | `str(n)` of a natural number is a non-empty string of digits |
| Text.DigitsOfShowNat | schemahq/roles.py:66 | the digits `str(n)` writes have value `n` |
| Text.ParseShow | schemahq/roles.py:66 | `int(str(n)) == n` for every integer, negative ones included |
| Roles.Role.Set | schemahq/roles.py:69-85 | setting a tracked flag changes that flag and no other field |
| Roles.AttributeOf | schemahq/roles.py:69-85 | the flag an option names is one it switches; when there is none, the option switches no flag |
| Roles.SplitPiecesNotGlued | schemahq/roles.py:51-54 | the pieces of a re-split token are never re-split again, so the option loop terminates |
| Roles.WalkGlued | schemahq/roles.py:51-54 | a token starting with `LOGIN ` is replaced by its space-separated words, which are examined next |
| Roles.NotGlued | schemahq/roles.py:51 | a token shorter than `LOGIN ` or not starting with `L` is not re-split |
| Roles.WalkPassword | schemahq/roles.py:56-58 | `PASSWORD` skips exactly the next token, unexamined, and the walk goes on after it |
| Roles.WalkValid | schemahq/roles.py:60-63 | `VALID` with fewer than four following tokens raises IndexError; otherwise valid_until is the fourth following token with quotes stripped, and the walk resumes at that token |
| Roles.WalkConnection | schemahq/roles.py:65-67 | `CONNECTION` with fewer than four following tokens raises IndexError; a fourth token that is not an integer raises ValueError; otherwise connection_limit is its value and the walk resumes at that token |
| Roles.ConnectionIsNoFlag | schemahq/roles.py:65-85 | after `CONNECTION`, the flag tests it falls through change nothing |
| Roles.WalkPlain | schemahq/roles.py:69-85 | any other token goes through the flag tests and the walk moves to the next token |
| Roles.ParseRole | schemahq/roles.py:28-87 | the cursor loop with in-place splicing computes exactly `RoleOf(tokens)`: fewer than five tokens raise, the name is the fifth token's first word, and the options are walked from the defaults |
| Roles.SetFlags | schemahq/roles.py:69-85 | the six flag tests have the effect of `Apply`: a keyword or its negation sets its own flag to itself, anything else leaves the record unchanged |
| Roles.ApplyByKeyword | schemahq/roles.py:69-85 | `Apply`, keyword by keyword, for the five tracked flags |
| Roles.Put | schemahq/roles.py:89 | `d[name] = role`: the entry is replaced; a new name goes last and an existing one keeps its place |
| Roles.FromRecords | schemahq/roles.py:89 | the dictionary's keys are exactly the names of the records |
| Roles.FirstIndex | schemahq/roles.py:89 | the position of the first record with a name; every earlier record has another name |
| Roles.LastRecordWins | schemahq/roles.py:89 | for a name used more than once, the dictionary holds the last record with that name |
| Roles.NamesInFirstOccurrenceOrder | schemahq/roles.py:89 | the dictionary lists each name once, in the order of its first record |
| Roles.DistinctNamesInOrder | schemahq/roles.py:89 | with no name repeated, the dictionary lists every name in record order and holds every record |
| Roles.FirstIndexPresent | schemahq/roles.py:89 | a name has a first record exactly when some record has that name |
| Roles.FirstIndexExtends | schemahq/roles.py:87-89 | appending a record keeps every earlier first position, and gives a new name the last position |
| Roles.ParseEach | schemahq/roles.py:27-87 | one parse outcome per statement, each that statement's `RoleOf` |
| Roles.CollectRecords | schemahq/roles.py:27-89 | a run with no failure has one record per statement, in statement order |
| Roles.CollectSucceeds | schemahq/roles.py:27-89 | when every statement parses, the run returns exactly those records |
| Roles.CollectFirstError | schemahq/roles.py:27-89 | a failed run reports the error of the first statement that fails, and every earlier statement parsed |
| Roles.CollectFailureSticks | schemahq/roles.py:27-89 | once a prefix of the statements fails, the whole run fails with the same error |
| Roles.ParseRoles | schemahq/roles.py:24-89 | the loop over statements returns `RolesOf`: the first error raised, or the dictionary of all records |
| Roles.TokenizeAll | schemahq/roles.py:16-17 | one token list per role statement |
| Roles.ExtractRoles | schemahq/roles.py:6-21 | the partition loop returns `Extract`: the roles of the non-empty `CREATE ROLE` statements, and the other non-empty statements each followed by one newline |
| Roles.PartitionStep | schemahq/roles.py:11-19 | each statement is dropped when empty, goes to the role side when it starts with `CREATE ROLE`, and goes to the remainder otherwise |
| Roles.PartitionMembership | schemahq/roles.py:11-19 | a statement is on the role side exactly when it is in the input, non-empty and starts with `CREATE ROLE`; on the other side exactly when it is non-empty and does not |
| Roles.PartitionCounts | schemahq/roles.py:11-19 | the two sides together hold every non-empty statement exactly as many times as the input does |
| RoleFacts.WalkKeepsShape | schemahq/roles.py:44-85 | a successful walk keeps the name and CREATEROLE, and every tracked flag keeps one of its two keywords |
| RoleFacts.ApplyKeepsShape | schemahq/roles.py:69-85 | a flag test keeps the name and CREATEROLE, and keeps every flag one of its two keywords |
| RoleFacts.RoleName | schemahq/roles.py:29-42 | a parsed statement had at least five tokens; its name contains no space and is the fifth token or that token's text before its first space; the record is well formed |
| RoleFacts.WalkInert | schemahq/roles.py:44-85 | tokens that are neither re-split, nor a clause keyword, nor a flag keyword leave the record as it was |
| RoleFacts.NoOptionsGiveDefaults | schemahq/roles.py:32-42 | a statement with a one-word name and only ignored tokens gives the default record: NOCREATEDB, NOCREATEROLE, INHERIT, NOLOGIN, NOREPLICATION, NOBYPASSRLS, limit -1, no expiry |
| RoleFacts.LastSwitch | schemahq/roles.py:69-85 | the last keyword that switches a flag is one of the options and does switch it |
| RoleFacts.LastSwitchCons | schemahq/roles.py:69-85 | a keyword earlier in the options is overridden by any later keyword for the same flag |
| RoleFacts.LastKeywordWins | schemahq/roles.py:69-85 | over tokens that start no clause, each flag ends with the last of its keywords, or keeps its value if none appears; the name, limit and expiry do not change |
| RoleFacts.ApplyGet | schemahq/roles.py:69-85 | an option sets exactly the flag it switches, to itself |
| RoleFacts.WalkSimplePrefix | schemahq/roles.py:44-85 | tokens that start no clause are examined one at a time, so the walk can be split after them |
| RoleFacts.InertWord | schemahq/roles.py:51-85 | a token whose first character starts none of the words the walk looks for is ignored |
| RoleFacts.QuotedIsInert | schemahq/roles.py:56-85 | a quoted literal examined as an option changes nothing |
| RoleFacts.IntegerIsInert | schemahq/roles.py:65-85 | an integer token examined as an option changes nothing |
| RoleFacts.CreateRoleIsInert | schemahq/roles.py:69-85 | CREATEROLE is not tracked and changes nothing |
| RoleFacts.WalkKeyword | schemahq/roles.py:69-85 | a flag keyword sets its flag to itself and the walk moves on |
| RoleFacts.GluedSplits | schemahq/roles.py:51-53 | `LOGIN <word>` is re-split into `LOGIN` and the word |
| RoleFacts.LoginGluedToWord | schemahq/roles.py:51-54 | a token `LOGIN <word>` sets LOGIN and puts the word next in line |
| RoleFacts.WalkInertHead | schemahq/roles.py:44-85 | one ignored token is passed over |
| RoleFacts.InertPair | schemahq/roles.py:44-85 | two ignored tokens are passed over |
| RoleFacts.WalkInertPrefix | schemahq/roles.py:44-85 | a run of ignored tokens is passed over |
| RoleFacts.SpaceKeyword | schemahq/roles.py:69-85 | a space token then a flag keyword sets that flag |
| RoleFacts.PasswordSkipsValue | schemahq/roles.py:56-58 | whatever token follows `PASSWORD`, it is skipped and changes nothing |
| RoleFacts.GluedLoginPassword | schemahq/roles.py:51-58 | the glued token `LOGIN PASSWORD` sets LOGIN and then skips the next token |
| RoleFacts.QuotesStripped | schemahq/roles.py:61 | stripping quotes from a quoted value with no quote of its own at either end gives the value |
| RoleFacts.WalkValidValue | schemahq/roles.py:60-63 | `VALID` followed by four tokens stores the fourth, quotes stripped, and resumes at it |
| RoleFacts.ValidUntilStripsQuotes | schemahq/roles.py:60-63 | `VALID UNTIL '<date>'` stores the date without quotes and changes nothing else |
| RoleFacts.ConnectionLimitParsed | schemahq/roles.py:65-67 | `CONNECTION LIMIT <n>` stores `n` and changes nothing else |
| RoleScenarios.Statement | tests/test_roles.py:41 | a `CREATE ROLE` token list has the name at index 4 and the options after it |
| RoleScenarios.NameAlone | schemahq/roles.py:29-44 | a one-word name gives the walk of the options from that name's defaults |
| RoleScenarios.AdminIsDefault | tests/test_roles.py:41-44 | `CREATE ROLE admin;` gives the default record named admin |
| RoleScenarios.JonathanSplits | tests/test_roles.py:46 | the name token `jonathan LOGIN` splits into the name and LOGIN |
| RoleScenarios.JonathanLogsIn | tests/test_roles.py:46-50 | `CREATE ROLE jonathan LOGIN;` gives jonathan with LOGIN |
| RoleScenarios.DavideIsDefault | tests/test_roles.py:65-68 | `CREATE ROLE davide WITH PASSWORD 'jw8s0F4';` gives the default record: the password changes nothing |
| RoleScenarios.MiriamLogsInUntil2005 | tests/test_roles.py:85-92 | miriam's statement gives LOGIN and valid_until `2005-01-01`, quotes stripped |
| RoleScenarios.Admin2CreatesDatabases | tests/test_roles.py:11 | `CREATE ROLE admin2 WITH CREATEDB CREATEROLE;` sets CREATEDB; CREATEROLE changes nothing |
| RoleScenarios.GeorgeLimit | tests/test_roles.py:53 | `CONNECTION LIMIT 3;` after a space sets the limit to 3 |
| RoleScenarios.GeorgeHasEverything | tests/test_roles.py:52-63 | george's statement sets CREATEDB, INHERIT, LOGIN, REPLICATION, BYPASSRLS and limit 3; SUPERUSER changes nothing |
| RoleScenarios.PartitionAppend | schemahq/roles.py:11-19 | the partition of two lists of statements is the partition of each, concatenated |
| RoleScenarios.AllRoleStatements | schemahq/roles.py:11-19 | non-empty role statements all go to the role side, in order |
| RoleScenarios.NoRoleStatements | schemahq/roles.py:11-19 | non-empty other statements all go to the remainder, in order |
| RoleScenarios.ScriptRoleStatements | tests/test_roles.py:7-11 | the five role statements of the test document are non-empty role statements |
| RoleScenarios.ScriptOtherStatements | tests/test_roles.py:12-20 | the table definition and the query are non-empty and are not role statements |
| RoleScenarios.ScriptPartition | tests/test_roles.py:5-21 | the test document gives the five role statements, then the table definition and the query |
| RoleScenarios.TokenizeAllAt | schemahq/roles.py:16-17 | each role statement is tokenized on its own, in order |
| RoleScenarios.ScriptTokens | tests/test_roles.py:5-21 | the five role statements tokenize to the five token lists |
| RoleScenarios.ScriptParses | tests/test_roles.py:5-24 | the five token lists parse into the five expected records |
| RoleScenarios.ScriptRemainder | tests/test_roles.py:25-37 | the remainder is the table definition and the query, each followed by one newline |
| RoleScenarios.ScriptNames | tests/test_roles.py:24 | the dictionary holds five names, in statement order |
| RoleScenarios.MixedDocument | tests/test_roles.py:4-37 | the test document gives five roles, in order, and the remainder verbatim |
| SchemaHQ.Letter | schemahq/schemahq.py:33 | a drawn letter is between `a` and `z` |
| SchemaHQ.Letters | schemahq/schemahq.py:33-34 | one letter per draw, the letter the draw picks |
| SchemaHQ.TemporaryName | schemahq/schemahq.py:32-36 | the name is the prefix followed by exactly ten characters, all `a`-`z` |
| SchemaHQ.TemporaryNameInjective | schemahq/schemahq.py:32-36 | two names are equal exactly when the draws are |
| SchemaHQ.DefaultTemporaryName | schemahq/schemahq.py:32-42 | with the default prefix the name has 16 characters and starts with `migra_` |
| SchemaHQ.ReplayAppend | schemahq/schemahq.py:45-55 | the databases after two runs of effects are those after the first, then the second |
| SchemaHQ.ReplayNeutral | schemahq/schemahq.py:45-55 | effects that create and drop nothing leave the set of databases unchanged |
| SchemaHQ.TemporaryDatabaseLifecycle | schemahq/schemahq.py:39-55 | create first, then the body's effects, then a rollback exactly when the body raised, then close and drop last; the body's result is passed on |
| SchemaHQ.TeardownShape | schemahq/schemahq.py:48-55 | the teardown ends with close then drop, and rolls back exactly when the body raised |
| SchemaHQ.ScopedApplies | schemahq/schemahq.py:39-55 | the scope adds no applied statements: those in its effects are exactly the body's |
| SchemaHQ.ScopedReplay | schemahq/schemahq.py:45-55 | on the set of databases, a scope adds its database, runs the body, then removes it |
| SchemaHQ.ScopedRestores | schemahq/schemahq.py:45-55 | the temporary database is gone afterwards; if it was new and the body creates and drops nothing, the set is restored |
| SchemaHQ.ScopeSteps | schemahq/schemahq.py:39-55 | opening, the body and closing, step by step, have the effects and the result of the scope |
| SchemaHQ.WithoutUndeclared | schemahq/schemahq.py:95-97 | after the filter, the keys are the inspected keys that are declared, and every entry kept is unchanged |
| SchemaHQ.ExcludeUndeclared | schemahq/schemahq.py:95-97 | the deleting loop leaves exactly `WithoutUndeclared` |
| SchemaHQ.ExitFor | schemahq/schemahq.py:182-200 | SQLSyntaxError gives EX_DATAERR; DatabaseDoesNotExist gives EX_NOHOST; an unsafe result gives EX_USAGE; a safe result exits 0; a role error or unsafe role statements go uncaught; each holds in both directions |
| SchemaHQ.RolesRunNeutral | schemahq/schemahq.py:99-111 | the role step creates and drops no database |
| SchemaHQ.SchemaRunNeutral | schemahq/schemahq.py:118-163 | the schema comparison creates and drops no database |
| SchemaHQ.SandboxReplay | schemahq/schemahq.py:116-118 | inside the sandbox, the only database created and dropped again is the stand-in for a missing target |
| SchemaHQ.SandboxSteps | schemahq/schemahq.py:99-163 | the role step and then the schema comparison (in a stand-in scope when the target is missing) have the result and the effects of the sandbox body |
| SchemaHQ.SandboxAlwaysDropped | schemahq/schemahq.py:89-91 | once roles are extracted, the sandbox is created first and dropped last and is gone afterwards; when extraction raises, nothing happens |
| SchemaHQ.DiffRestoresDatabases | schemahq/schemahq.py:91-163 | when both temporary names are new, `diff` leaves the set of databases as it found it |
| SchemaHQ.SchemaRunAppliedIff | schemahq/schemahq.py:127-163 | the migration is applied exactly when `apply` is set and safe SQL was produced, only to the from-database, and no role statements are applied there |
| SchemaHQ.SandboxMigrationApplied | schemahq/schemahq.py:99-163 | in the sandbox, the migration is applied exactly when `apply` is set and safe SQL was produced; it goes to the target when the target exists |
| SchemaHQ.MigrationAppliedIff | schemahq/schemahq.py:127-163 | `diff` applies the migration exactly when `apply` is set and it returns SQL not reported unsafe; when the target exists, that is where the migration goes |
| SchemaHQ.SandboxRolesApplied | schemahq/schemahq.py:99-111 | in the sandbox, role statements are applied exactly when there are some and they are safe; they come first and are committed right after |
| SchemaHQ.RolesAppliedIff | schemahq/schemahq.py:95-111 | role statements are applied to the sandbox exactly when comparing with the declared roles yields statements that are safe; the commit follows right after |
| SchemaHQ.SyntaxErrorCarriesStatements | schemahq/schemahq.py:120-123 | SQLSyntaxError carries the engine's error and exactly the non-role statements of the schema |
| SchemaHQ.DiffOutcome | schemahq/schemahq.py:89-146 | the exact result of `diff`: the extraction error; else UnsafeRoleStatements when the role statements are unsafe; else SQLSyntaxError with the engine's error and the remaining SQL when it does not run; else `(None, False)` for an empty migration; else the rendered SQL with `True` when it is unsafe and safety is on; else the rendered SQL with `False` |
| SchemaHQ.NeverNoHost | schemahq/schemahq.py:184-190 | `diff` never raises DatabaseDoesNotExist, so `diff_file` never exits with EX_NOHOST |
| SchemaHQ.UnsafeReportNeedsSafety | schemahq/schemahq.py:126-146 | an unsafe report needs safety on (`unsafe` unset) and always carries SQL |
| SchemaHQ.Cluster.constructor | schemahq/schemahq.py:78-84 | the server `db` points at, holding the given databases, with nothing done to it yet |
| SchemaHQ.Cluster.Record | schemahq/schemahq.py:99-163 | an effect that creates and drops nothing is logged and leaves the databases alone |
| SchemaHQ.Cluster.CreateDatabase | schemahq/schemahq.py:45 | `create_database` adds the database and logs its creation |
| SchemaHQ.Cluster.DropDatabase | schemahq/schemahq.py:55 | `drop_database` removes the database and logs the drop |
| SchemaHQ.Cluster.OpenTemporaryDatabase | schemahq/schemahq.py:40-46 | entering `temporary_database` creates the database named by the draws |
| SchemaHQ.Cluster.CloseTemporaryDatabase | schemahq/schemahq.py:48-55 | leaving `temporary_database` logs the teardown and removes the database |
| SchemaHQ.Cluster.ReconcileRoles | schemahq/schemahq.py:95-111 | the role step returns the result of `RolesRun` and logs exactly its effects |
| SchemaHQ.Cluster.CompareSchema | schemahq/schemahq.py:119-163 | the schema comparison returns the result of `SchemaRun` and logs exactly its effects |
| SchemaHQ.Cluster.Diff | schemahq/schemahq.py:78-163 | `diff` returns the result of `DiffRun`, logs exactly its effects, and leaves the databases that replaying them gives |
| SchemaHQ.Cluster.WithSandbox | schemahq/schemahq.py:91-163 | the sandbox's `with` block behaves as `DiffOf` once the roles are extracted |
| SchemaHQ.Cluster.InSandbox | schemahq/schemahq.py:92-163 | the sandbox body behaves as `SandboxRun` |
| SchemaHQ.Cluster.CompareInStandIn | schemahq/schemahq.py:116-118 | with the target missing, the comparison runs in a stand-in scope |
| SchemaHQ.Cluster.DiffFile | schemahq/schemahq.py:166-200 | a missing file exits with EX_OSFILE and does nothing; otherwise the exit is `ExitFor` of what `diff` returned, with `diff`'s effects |

## Left out

- sqlparse's `split` and `parse` are not part of this model. The statement
  list and each statement's tokens, as text, are inputs.
- migra (`Migration`, `statements_for_changes`, the safety check and
  `UnsafeMigrationException`) is not part of this model. Its answers are
  functions in `Engine`.
- sqlbag's connections, sessions, `database_exists`, `raw_execute`,
  SQLAlchemy pooling and `create_admin_patch` are database I/O and
  process-wide patching. Sessions on the temporary databases appear only as
  effects in the log. The session `S(db)` opened on an existing target, and
  its commit and close, are not logged.
- Only `raw_execute` can fail in the model. The source can also raise at
  these calls, which the model treats as succeeding:
  - `roles_m.apply()` and `sTemp.commit()` (`schemahq/schemahq.py:110-111`);
  - `database_exists` (`schemahq/schemahq.py:116`);
  - opening `S(db)` (`schemahq/schemahq.py:118`);
  - `m.apply()` (`schemahq/schemahq.py:157`).

  Such an exception would pass through both teardowns, so the sandbox, and
  the stand-in if one is open, would be rolled back and dropped. The model
  does not have these failures, so `SandboxAlwaysDropped`,
  `TemporaryDatabaseLifecycle`'s rollback-iff-raised and `DiffOutcome` are
  proved only over the failures it does have.
- Roles are cluster-wide in PostgreSQL, so role statements applied through
  the sandbox session outlive the sandbox's drop. The model records them as
  an `AppliedRoles` effect on the sandbox and does not track roles on the
  server.
- `pg_format`, colorful and `print` produce console output only. The
  rendered SQL comes from `Engine.render`.
- `random.choice` becomes the `Draws` parameter.
- `apply_statements`, `init` and `schemahq_cli/schemahq.py` are file and
  database I/O around the same workflow. They are not part of this model.
- A failure of rollback, close or drop inside the teardown is not modelled.
  The model assumes the teardown succeeds.
- Creating a temporary database whose name already exists is not modelled
  as an error. The effect simply adds the name.
- Text.ParseInt: accepts only an optional sign followed by ASCII digits.
  Python's `int()` also accepts surrounding whitespace, underscores between
  digits and non-ASCII digits, and no such token comes from the tokenizer.
- SchemaHQ.WithoutUndeclared: `from_roles` is a map, so the order of its
  keys, which only `statements_for_changes` could see, is not kept.
- SchemaHQ.ExitFor: a run of `diff_file` that ends normally is given status
  0. The source just returns, and its caller exits with status 0.

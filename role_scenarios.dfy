/** The expectations of tests/test_roles.py, checked against the model.

    The token lists are a hand tokenisation in the style of the SQL
    tokenizer the source uses: keywords, whitespace runs, literals and ";"
    are separate tokens, and an identifier directly followed by a word the
    tokenizer does not treat as a keyword comes as one token ("jonathan
    LOGIN"). */
module RoleScenarios {
  import opened Wrappers
  import opened Text
  import opened Roles
  import opened RoleFacts

  // Each statement is written as its first words followed by the rest, so
  // that its prefix can be read off without unfolding a long literal.
  const Admin := RolePrefix + " admin;"
  const Jonathan := RolePrefix + " jonathan LOGIN;"
  const Davide := RolePrefix + " davide WITH PASSWORD 'jw8s0F4';"
  const Miriam := RolePrefix + " miriam WITH LOGIN PASSWORD 'jw8s0F4' VALID UNTIL '2005-01-01';"
  const Admin2 := RolePrefix + " admin2 WITH CREATEDB CREATEROLE;"
  const George := RolePrefix + " george SUPERUSER CREATEDB INHERIT LOGIN REPLICATION BYPASSRLS CONNECTION LIMIT 3;"
  const Films := "CREATE TABLE" + " films (\n    code        char(5) CONSTRAINT firstkey PRIMARY KEY,\n    title       varchar(40) NOT NULL,\n    did         integer NOT NULL,\n    date_prod   date,\n    kind        varchar(10),\n    len         interval hour to minute\n);"
  const Totals := "SELECT" + " kind, sum(len) AS total FROM films GROUP BY kind;"

  /** The tokens of `CREATE ROLE <name>` followed by the option tokens. */
  function Statement(name: string, options: seq<string>): (tokens: seq<string>)
    ensures |tokens| == 5 + |options| && tokens[4] == name && tokens[5..] == options
  {
    ["CREATE", " ", "ROLE", " ", name] + options
  }

  // The option tokens are written as short runs nested to the right, one
  // run per step of the walk.
  const AdminTokens := Statement("admin", [";"])
  const JonathanTokens := Statement("jonathan LOGIN", [";"])
  const DavideTokens := Statement("davide", [" ", "WITH", " "] + (["PASSWORD", " "] + [Quoted("jw8s0F4"), ";"]))
  // The glued token "LOGIN PASSWORD" is written as the prefix the walk
  // re-splits followed by the word glued to it.
  const MiriamTokens := Statement("miriam",
    [" ", "WITH", " "] + ([LoginGluedPrefix + "PASSWORD", " "] + ([Quoted("jw8s0F4"), " "] +
    (["VALID", " ", "UNTIL", " ", Quoted("2005-01-01")] + [";"]))))
  const Admin2Tokens := Statement("admin2", [" ", "WITH", " "] + (["CREATEDB"] + ([" ", "CREATEROLE"] + [";"])))
  const GeorgeTokens := Statement("george",
    [" ", "SUPERUSER"] + ([" ", "CREATEDB"] + ([" ", "INHERIT"] + ([" ", "LOGIN"] + ([" ", "REPLICATION"] +
    ([" ", "BYPASSRLS"] + ([" "] + (["CONNECTION", " ", "LIMIT", " ", ShowInt(3)] + [";"]))))))))

  /** The tokenizer on the statements of the scenarios. */
  function SampleTokens(statement: string): seq<string>
  {
    if statement == Admin then AdminTokens
    else if statement == Jonathan then JonathanTokens
    else if statement == Davide then DavideTokens
    else if statement == Miriam then MiriamTokens
    else if statement == Admin2 then Admin2Tokens
    else if statement == George then GeorgeTokens
    else []
  }

  /** A name token with no space in it is the whole name, and the options
      are the tokens after it. */
  lemma NameAlone(name: string, options: seq<string>)
    requires ' ' !in name
    ensures RoleOf(Statement(name, options)) == Walk(options, Defaults(name))
  {
    SplitJoin([name], ' ');
    assert Split(name, ' ') == [name];
    assert [name][1..] + options == options;
  }

  /** The separators and words of the scenarios that the walk ignores. */
  lemma CommonWordsInert()
    ensures Inert(" ") && Inert(";") && Inert("WITH") && Inert("SUPERUSER")
  {
    InertWord(" ");
    InertWord(";");
    InertWord("WITH");
    InertWord("SUPERUSER");
  }

  /** `WITH` between spaces changes nothing. */
  lemma AfterWith(rest: seq<string>, role: Role)
    ensures Walk([" ", "WITH", " "] + rest, role) == Walk(rest, role)
  {
    CommonWordsInert();
    assert [" ", "WITH", " "] + rest == [" ", "WITH"] + ([" "] + rest);
    InertPair(" ", "WITH", [" "] + rest, role);
    WalkInertHead(" ", rest, role);
  }

  /** The closing ";" ends the walk with the record as it is. */
  lemma EndOfStatement(role: Role)
    ensures Walk([";"], role) == Success(role)
  {
    CommonWordsInert();
    WalkInertHead(";", [], role);
    assert [";"] == [";"] + [];
  }

  /** `CREATE ROLE admin;` gives the default record. */
  lemma AdminIsDefault()
    ensures RoleOf(AdminTokens) == Success(Defaults("admin"))
  {
    NameAlone("admin", [";"]);
    EndOfStatement(Defaults("admin"));
  }

  /** The glued name token splits into the name and LOGIN. */
  lemma JonathanSplits()
    ensures Split("jonathan LOGIN", ' ') == ["jonathan", "LOGIN"]
  {
    SplitJoin(["jonathan", "LOGIN"], ' ');
    assert Join(["jonathan", "LOGIN"], ' ') == "jonathan LOGIN";
  }

  /** `CREATE ROLE jonathan LOGIN;`: the word glued to the name is an option. */
  lemma JonathanLogsIn()
    ensures RoleOf(JonathanTokens) == Success(Defaults("jonathan").(login := "LOGIN"))
  {
    JonathanSplits();
    var role := Defaults("jonathan");
    assert ["LOGIN"] + [";"] == [Keyword(Login)] + [";"];
    WalkKeyword(Login, [";"], role);
    EndOfStatement(role.(login := "LOGIN"));
  }

  /** `CREATE ROLE davide WITH PASSWORD 'jw8s0F4';`: the password is skipped
      and never stored. */
  lemma DavideIsDefault()
    ensures RoleOf(DavideTokens) == Success(Defaults("davide"))
  {
    var role := Defaults("davide");
    var tail := [Quoted("jw8s0F4"), ";"];
    NameAlone("davide", [" ", "WITH", " "] + (["PASSWORD", " "] + tail));
    AfterWith(["PASSWORD", " "] + tail, role);
    PasswordSkipsValue(" ", tail, role);
    QuotedIsInert("jw8s0F4");
    assert tail == [Quoted("jw8s0F4")] + [";"];
    WalkInertHead(Quoted("jw8s0F4"), [";"], role);
    EndOfStatement(role);
  }

  lemma DateHasNoQuotes()
    ensures var date := "2005-01-01"; date[0] != '\'' && date[|date| - 1] != '\''
  {
  }

  /** `CREATE ROLE miriam WITH LOGIN PASSWORD 'jw8s0F4' VALID UNTIL
      '2005-01-01';`: the glued token sets LOGIN, the password is skipped,
      and the date is stored without its quotes. */
  lemma MiriamLogsInUntil2005()
    ensures RoleOf(MiriamTokens) == Success(Defaults("miriam").(login := "LOGIN", validUntil := Some("2005-01-01")))
  {
    var role := Defaults("miriam");
    var loggedIn := role.(login := "LOGIN");
    var valid := ["VALID", " ", "UNTIL", " ", Quoted("2005-01-01")] + [";"];
    var afterLogin := [Quoted("jw8s0F4"), " "] + valid;
    NameAlone("miriam", [" ", "WITH", " "] + ([LoginGluedPrefix + "PASSWORD", " "] + afterLogin));
    AfterWith([LoginGluedPrefix + "PASSWORD", " "] + afterLogin, role);
    GluedLoginPassword(" ", afterLogin, role);
    QuotedIsInert("jw8s0F4");
    CommonWordsInert();
    InertPair(Quoted("jw8s0F4"), " ", valid, loggedIn);
    DateHasNoQuotes();
    ValidUntilStripsQuotes(" ", "UNTIL", " ", "2005-01-01", [";"], loggedIn);
    EndOfStatement(loggedIn.(validUntil := Some("2005-01-01")));
  }

  /** `CREATE ROLE admin2 WITH CREATEDB CREATEROLE;`: CREATEDB is recorded;
      CREATEROLE is not tracked and changes nothing. */
  lemma Admin2CreatesDatabases()
    ensures RoleOf(Admin2Tokens) == Success(Defaults("admin2").(createdb := "CREATEDB"))
  {
    var role := Defaults("admin2");
    var created := role.(createdb := "CREATEDB");
    var tail := [" ", "CREATEROLE"] + [";"];
    NameAlone("admin2", [" ", "WITH", " "] + (["CREATEDB"] + tail));
    AfterWith(["CREATEDB"] + tail, role);
    assert ["CREATEDB"] + tail == [Keyword(CreateDb)] + tail;
    WalkKeyword(CreateDb, tail, role);
    CommonWordsInert();
    CreateRoleIsInert();
    InertPair(" ", "CREATEROLE", [";"], created);
    EndOfStatement(created);
  }

  /** `CONNECTION LIMIT 3;` after a space. */
  lemma GeorgeLimit(role: Role)
    ensures Walk([" "] + (["CONNECTION", " ", "LIMIT", " ", ShowInt(3)] + [";"]), role) == Success(role.(connectionLimit := 3))
  {
    CommonWordsInert();
    WalkInertHead(" ", ["CONNECTION", " ", "LIMIT", " ", ShowInt(3)] + [";"], role);
    ConnectionLimitParsed(" ", "LIMIT", " ", 3, [";"], role);
    EndOfStatement(role.(connectionLimit := 3));
  }

  /** `CREATE ROLE george SUPERUSER CREATEDB INHERIT LOGIN REPLICATION
      BYPASSRLS CONNECTION LIMIT 3;`: every flag keyword is recorded,
      SUPERUSER is ignored, and the limit is the integer 3. */
  lemma GeorgeHasEverything()
    ensures RoleOf(GeorgeTokens) == Success(Role("george", "CREATEDB", "NOCREATEROLE", "INHERIT", "LOGIN", "REPLICATION", "BYPASSRLS", 3, None))
  {
    var r0 := Defaults("george");
    var limit := [" "] + (["CONNECTION", " ", "LIMIT", " ", ShowInt(3)] + [";"]);
    var x5 := [" ", "BYPASSRLS"] + limit;
    var x4 := [" ", "REPLICATION"] + x5;
    var x3 := [" ", "LOGIN"] + x4;
    var x2 := [" ", "INHERIT"] + x3;
    var x1 := [" ", "CREATEDB"] + x2;
    NameAlone("george", [" ", "SUPERUSER"] + x1);
    CommonWordsInert();
    WalkInertPrefix([" ", "SUPERUSER"], x1, r0);
    var r1 := r0.Set(CreateDb, Keyword(CreateDb));
    SpaceKeyword(CreateDb, x2, r0);
    var r2 := r1.Set(Inherit, Keyword(Inherit));
    SpaceKeyword(Inherit, x3, r1);
    var r3 := r2.Set(Login, Keyword(Login));
    SpaceKeyword(Login, x4, r2);
    var r4 := r3.Set(Replication, Keyword(Replication));
    SpaceKeyword(Replication, x5, r3);
    var r5 := r4.Set(BypassRls, Keyword(BypassRls));
    SpaceKeyword(BypassRls, limit, r4);
    GeorgeLimit(r5);
  }

  /** The statements of the mixed document, as the SQL splitter returns
      them (the trailing empty piece is skipped). */
  const Script := [Admin, Jonathan, Davide, Miriam, Admin2, Films, Totals, ""]

  lemma RolePrefixed(t: string)
    ensures IsRoleStatement(RolePrefix + t)
  {
    assert (RolePrefix + t)[..|RolePrefix|] == RolePrefix;
  }

  lemma NotRolePrefixed(s: string, i: nat)
    requires i < |RolePrefix| && i < |s| && s[i] != RolePrefix[i]
    ensures !IsRoleStatement(s)
  {
    if |RolePrefix| <= |s| {
      assert s[..|RolePrefix|][i] == s[i];
    }
  }

  /** Splitting the statements into the two sides distributes over
      concatenation. */
  lemma {:induction false} PartitionAppend(xs: seq<string>, ys: seq<string>)
    ensures RoleStatementsOf(xs + ys) == RoleStatementsOf(xs) + RoleStatementsOf(ys)
    ensures OtherStatementsOf(xs + ys) == OtherStatementsOf(xs) + OtherStatementsOf(ys)
    decreases |ys|
  {
    if ys == [] {
      assert xs + ys == xs;
    } else {
      var init, last := ys[..|ys| - 1], ys[|ys| - 1];
      assert (xs + ys)[..|xs + ys| - 1] == xs + init;
      assert (xs + ys)[|xs + ys| - 1] == last;
      PartitionAppend(xs, init);
    }
  }

  lemma InitLast(xs: seq<string>)
    requires xs != []
    ensures xs[..|xs| - 1] + [xs[|xs| - 1]] == xs
  {
  }

  /** Statements that all start with CREATE ROLE all go to the role side. */
  lemma {:induction false} AllRoleStatements(xs: seq<string>)
    requires forall i :: 0 <= i < |xs| ==> xs[i] != "" && IsRoleStatement(xs[i])
    ensures RoleStatementsOf(xs) == xs && OtherStatementsOf(xs) == []
  {
    if xs != [] {
      AllRoleStatements(xs[..|xs| - 1]);
      InitLast(xs);
    }
  }

  /** Statements that none start with CREATE ROLE all go to the remainder. */
  lemma {:induction false} NoRoleStatements(xs: seq<string>)
    requires forall i :: 0 <= i < |xs| ==> xs[i] != "" && !IsRoleStatement(xs[i])
    ensures RoleStatementsOf(xs) == [] && OtherStatementsOf(xs) == xs
  {
    if xs != [] {
      NoRoleStatements(xs[..|xs| - 1]);
      InitLast(xs);
    }
  }

  lemma ScriptRoleStatements()
    ensures forall i :: 0 <= i < 5 ==> [Admin, Jonathan, Davide, Miriam, Admin2][i] != "" && IsRoleStatement([Admin, Jonathan, Davide, Miriam, Admin2][i])
  {
    RolePrefixed(" admin;");
    RolePrefixed(" jonathan LOGIN;");
    RolePrefixed(" davide WITH PASSWORD 'jw8s0F4';");
    RolePrefixed(" miriam WITH LOGIN PASSWORD 'jw8s0F4' VALID UNTIL '2005-01-01';");
    RolePrefixed(" admin2 WITH CREATEDB CREATEROLE;");
  }

  lemma ScriptOtherStatements()
    ensures forall i :: 0 <= i < 2 ==> [Films, Totals][i] != "" && !IsRoleStatement([Films, Totals][i])
  {
    assert Films[7] == "CREATE TABLE"[7] == 'T';
    NotRolePrefixed(Films, 7);
    assert Totals[0] == "SELECT"[0];
    NotRolePrefixed(Totals, 0);
  }

  lemma ScriptPartition()
    ensures RoleStatementsOf(Script) == [Admin, Jonathan, Davide, Miriam, Admin2]
    ensures OtherStatementsOf(Script) == [Films, Totals]
  {
    var roles := [Admin, Jonathan, Davide, Miriam, Admin2];
    var others := [Films, Totals];
    assert RoleStatementsOf(roles) == roles && OtherStatementsOf(roles) == [] by {
      ScriptRoleStatements();
      AllRoleStatements(roles);
    }
    assert RoleStatementsOf(others) == [] && OtherStatementsOf(others) == others by {
      ScriptOtherStatements();
      NoRoleStatements(others);
    }
    assert RoleStatementsOf([""]) == [] && OtherStatementsOf([""]) == [] by {
      assert [""][..0] == [];
    }
    assert Script == roles + others + [""];
    PartitionAppend(roles, others);
    PartitionAppend(roles + others, [""]);
  }

  /** The tokenizer applied to each statement, index by index. */
  lemma {:induction false} TokenizeAllAt(statements: seq<string>, tokenize: string -> seq<string>)
    ensures forall i :: 0 <= i < |statements| ==> TokenizeAll(statements, tokenize)[i] == tokenize(statements[i])
  {
    if statements != [] {
      TokenizeAllAt(statements[..|statements| - 1], tokenize);
    }
  }

  lemma ScriptTokens()
    ensures TokenizeAll([Admin, Jonathan, Davide, Miriam, Admin2], SampleTokens) ==
            [AdminTokens, JonathanTokens, DavideTokens, MiriamTokens, Admin2Tokens]
  {
    var statements := [Admin, Jonathan, Davide, Miriam, Admin2];
    TokenizeAllAt(statements, SampleTokens);
    assert |Admin| < |Jonathan| && |Admin| < |Davide| && |Admin| < |Miriam| && |Admin| < |Admin2|;
    assert |Jonathan| < |Davide| && |Jonathan| < |Miriam| && |Jonathan| != |Admin2|;
    assert |Davide| < |Miriam| && |Davide| != |Admin2| && |Miriam| != |Admin2|;
  }

  /** The records of the five role statements, in order. */
  function ScriptRecords(): seq<Role>
  {
    [ Defaults("admin"),
      Defaults("jonathan").(login := "LOGIN"),
      Defaults("davide"),
      Defaults("miriam").(login := "LOGIN", validUntil := Some("2005-01-01")),
      Defaults("admin2").(createdb := "CREATEDB") ]
  }

  lemma ScriptParses()
    ensures Collect(ParseEach([AdminTokens, JonathanTokens, DavideTokens, MiriamTokens, Admin2Tokens])) == Success(ScriptRecords())
  {
    var statements := [AdminTokens, JonathanTokens, DavideTokens, MiriamTokens, Admin2Tokens];
    AdminIsDefault();
    JonathanLogsIn();
    DavideIsDefault();
    MiriamLogsInUntil2005();
    Admin2CreatesDatabases();
    CollectFive(ParseEach(statements), ScriptRecords());
  }

  /** Five successful parses collect into their five records. */
  lemma CollectFive(results: seq<Result<Role, RoleError>>, rs: seq<Role>)
    requires |results| == 5 && |rs| == 5
    requires results[0] == Success(rs[0]) && results[1] == Success(rs[1]) && results[2] == Success(rs[2])
    requires results[3] == Success(rs[3]) && results[4] == Success(rs[4])
    ensures Collect(results) == Success(rs)
  {
    CollectSucceeds(results, rs);
  }

  lemma ScriptRemainder()
    ensures Lines([Films, Totals]) == Films + "\n" + Totals + "\n"
  {
    assert [Films, Totals][..1] == [Films];
    assert [Films][..0] == [];
    assert Lines([Films]) == "" + Films + "\n";
    assert "" + Films == Films;
  }

  lemma ScriptNames()
    ensures FromRecords(ScriptRecords()).names == ["admin", "jonathan", "davide", "miriam", "admin2"]
  {
    var rs := ScriptRecords();
    var names := ["admin", "jonathan", "davide", "miriam", "admin2"];
    assert forall i :: 0 <= i < |rs| ==> rs[i].name == names[i];
    assert forall i, j :: 0 <= i < j < |names| ==> names[i] != names[j];
    DistinctNamesInOrder(rs);
  }

  /** The mixed document gives five roles, in statement order, and keeps the
      table definition and the query, each on its own line. */
  lemma MixedDocument()
    ensures Extract(Script, SampleTokens).Success?
    ensures Extract(Script, SampleTokens).value.roles.names == ["admin", "jonathan", "davide", "miriam", "admin2"]
    ensures Extract(Script, SampleTokens).value.remainder == Films + "\n" + Totals + "\n"
  {
    ScriptPartition();
    ScriptTokens();
    ScriptParses();
    ScriptRemainder();
    ScriptNames();
  }
}

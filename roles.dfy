/** The `CREATE ROLE` extractor of schemahq/roles.py.

    The SQL splitter and tokenizer are not part of this model: `ExtractRoles`
    takes the statements the splitter produced and a `tokenize` function
    standing for the tokenizer, whose tokens are given as their text. */
module Roles {
  import opened Wrappers
  import opened Text

  /** One parsed role (schemainspect's `InspectedRole` as this parser fills
      it). Each flag holds the literal keyword that set it. There is no
      superuser flag and no password: the parser keeps neither. */
  datatype Role = Role(
    name: string,
    createdb: string,
    createrole: string,
    inherit: string,
    login: string,
    replication: string,
    bypassrls: string,
    connectionLimit: int,
    validUntil: Option<string>)
  {
    /** The value of a tracked flag. */
    function Get(a: Attribute): string
    {
      match a
      case CreateDb => createdb
      case Inherit => inherit
      case Login => login
      case Replication => replication
      case BypassRls => bypassrls
    }

    /** The record with one tracked flag replaced. */
    function Set(a: Attribute, value: string): (r: Role)
      ensures r.Get(a) == value
      ensures forall b :: b != a ==> r.Get(b) == Get(b)
      ensures r.name == name && r.createrole == createrole
      ensures r.connectionLimit == connectionLimit && r.validUntil == validUntil
    {
      match a
      case CreateDb => this.(createdb := value)
      case Inherit => this.(inherit := value)
      case Login => this.(login := value)
      case Replication => this.(replication := value)
      case BypassRls => this.(bypassrls := value)
    }
  }

  /** The record every statement starts from. */
  function Defaults(name: string): Role
  {
    Role(name, "NOCREATEDB", "NOCREATEROLE", "INHERIT", "NOLOGIN", "NOREPLICATION", "NOBYPASSRLS", -1, None)
  }

  /** The flags the option walk sets; CREATEROLE is not among them. */
  datatype Attribute = CreateDb | Inherit | Login | Replication | BypassRls

  /** The keyword that turns a flag on; "NO" followed by it turns it off. */
  function Keyword(a: Attribute): string
  {
    match a
    case CreateDb => "CREATEDB"
    case Inherit => "INHERIT"
    case Login => "LOGIN"
    case Replication => "REPLICATION"
    case BypassRls => "BYPASSRLS"
  }

  /** The keyword that turns a flag off. */
  function Negation(a: Attribute): string
  {
    match a
    case CreateDb => "NOCREATEDB"
    case Inherit => "NOINHERIT"
    case Login => "NOLOGIN"
    case Replication => "NOREPLICATION"
    case BypassRls => "NOBYPASSRLS"
  }

  predicate Switches(option: string, a: Attribute)
  {
    option == Keyword(a) || option == Negation(a)
  }

  /** Every tracked flag holds one of its two keywords; CREATEROLE is never
      changed from its default. */
  predicate WellFormed(role: Role)
  {
    && Switches(role.createdb, CreateDb)
    && Switches(role.inherit, Inherit)
    && Switches(role.login, Login)
    && Switches(role.replication, Replication)
    && Switches(role.bypassrls, BypassRls)
    && role.createrole == "NOCREATEROLE"
  }

  /** The flag an option token sets, if any. */
  function AttributeOf(option: string): (a: Option<Attribute>)
    ensures a.Some? ==> Switches(option, a.value)
    ensures a.None? ==> forall b :: !Switches(option, b)
  {
    if Switches(option, CreateDb) then Some(CreateDb)
    else if Switches(option, Inherit) then Some(Inherit)
    else if Switches(option, Login) then Some(Login)
    else if Switches(option, Replication) then Some(Replication)
    else if Switches(option, BypassRls) then Some(BypassRls)
    else None
  }

  /** The effect of an option that starts no clause: a flag keyword sets its
      flag to itself, anything else leaves the record alone. */
  function Apply(role: Role, option: string): Role
  {
    match AttributeOf(option)
    case Some(a) => role.Set(a, option)
    case None => role
  }

  /** Why `roles` raises: too few tokens to unpack the name (ValueError), a
      clause keyword without a value three tokens on (IndexError), or a
      connection limit that `int()` refuses (ValueError). */
  datatype RoleError = TooFewTokens(count: nat) | MissingValue(keyword: string) | NotAnInteger(token: string)

  const LoginGluedPrefix := "LOGIN "

  /** The number of tokens that the walk re-splits. */
  function LoginGlued(options: seq<string>): nat
  {
    if options == [] then 0
    else (if StartsWith(options[0], LoginGluedPrefix) then 1 else 0) + LoginGlued(options[1..])
  }

  lemma {:induction false} LoginGluedAppend(a: seq<string>, b: seq<string>)
    ensures LoginGlued(a + b) == LoginGlued(a) + LoginGlued(b)
  {
    if a != [] {
      assert (a + b)[1..] == a[1..] + b;
      LoginGluedAppend(a[1..], b);
    } else {
      assert a + b == b;
    }
  }

  lemma {:induction false} LoginGluedSuffix(s: seq<string>, k: nat)
    requires k <= |s|
    ensures LoginGlued(s[k..]) <= LoginGlued(s)
  {
    if k > 0 {
      assert s[k..] == s[1..][k - 1..];
      LoginGluedSuffix(s[1..], k - 1);
    }
  }

  /** Pieces of a split on spaces are never re-split. */
  lemma {:induction false} SplitPiecesNotGlued(option: string)
    ensures LoginGlued(Split(option, ' ')) == 0
  {
    var pieces := Split(option, ' ');
    NoSpaceNotGlued(pieces);
  }

  lemma {:induction false} NoSpaceNotGlued(pieces: seq<string>)
    requires forall p :: p in pieces ==> ' ' !in p
    ensures LoginGlued(pieces) == 0
  {
    if pieces != [] {
      assert pieces[0] in pieces;
      assert forall p :: p in pieces[1..] ==> p in pieces;
      assert forall k :: 0 <= k < |pieces[0]| ==> pieces[0][k] != ' ';
      assert LoginGluedPrefix[5] == ' ';
      assert !StartsWith(pieces[0], LoginGluedPrefix);
      NoSpaceNotGlued(pieces[1..]);
    }
  }

  /** The option walk of `roles`, stated on the tokens still to be examined
      rather than on a cursor. */
  function Walk(options: seq<string>, role: Role): Result<Role, RoleError>
    decreases LoginGlued(options), |options|
  {
    if options == [] then Success(role)
    else
      var option, rest := options[0], options[1..];
      if StartsWith(option, LoginGluedPrefix) then
        // the glued token is split and its words are examined next
        var words := Split(option, ' ');
        LoginGluedAppend(words, rest);
        SplitPiecesNotGlued(option);
        Walk(words + rest, role)
      else if option == "PASSWORD" then
        // the one token after PASSWORD is never examined
        if rest == [] then Success(role)
        else
          LoginGluedSuffix(rest, 1);
          Walk(rest[1..], role)
      else if option == "VALID" then
        // the value is the third token after VALID's successor, and the walk
        // resumes at that value token
        if |rest| < 4 then Failure(MissingValue(option))
        else
          LoginGluedSuffix(rest, 3);
          Walk(rest[3..], role.(validUntil := Some(Strip(rest[3], '\''))))
      else if option == "CONNECTION" then
        if |rest| < 4 then Failure(MissingValue(option))
        else
          match ParseInt(rest[3])
          case None => Failure(NotAnInteger(rest[3]))
          case Some(limit) =>
            LoginGluedSuffix(rest, 3);
            Walk(rest[3..], role.(connectionLimit := limit))
      else
        Walk(rest, Apply(role, option))
  }

  /** What `roles` makes of one statement's token list: the fifth token holds
      the name, and any further space-separated words of it come before the
      remaining tokens in the option list. */
  function RoleOf(tokens: seq<string>): Result<Role, RoleError>
  {
    if |tokens| < 5 then Failure(TooFewTokens(|tokens|))
    else
      var words := Split(tokens[4], ' ');
      Walk(words[1..] + tokens[5..], Defaults(words[0]))
  }

  /** A token starting with "LOGIN " is replaced by its space-separated
      words, which are examined next. */
  lemma WalkGlued(option: string, rest: seq<string>, role: Role)
    requires StartsWith(option, LoginGluedPrefix)
    ensures Walk([option] + rest, role) == Walk(Split(option, ' ') + rest, role)
  {
    assert ([option] + rest)[1..] == rest;
  }

  /** A token whose first letter is not L, or that is shorter than "LOGIN ",
      is not re-split. */
  lemma NotGlued(option: string)
    requires |option| < |LoginGluedPrefix| || (option != [] && option[0] != 'L')
    ensures !StartsWith(option, LoginGluedPrefix)
  {
    if |option| >= |LoginGluedPrefix| {
      assert option[..6][0] != LoginGluedPrefix[0];
    }
  }

  /** PASSWORD skips exactly the token after it, whatever that token is. */
  lemma WalkPassword(rest: seq<string>, role: Role)
    ensures Walk(["PASSWORD"] + rest, role) == Walk(Tail(rest, 1), role)
  {
    var options := ["PASSWORD"] + rest;
    assert options[0] == "PASSWORD" && options[1..] == rest;
    NotGlued("PASSWORD");
  }

  /** VALID takes the token three places after its successor, with quotes
      stripped, and the walk resumes at that token. */
  lemma WalkValid(rest: seq<string>, role: Role)
    ensures |rest| < 4 ==> Walk(["VALID"] + rest, role) == Failure(MissingValue("VALID"))
    ensures |rest| >= 4 ==>
      Walk(["VALID"] + rest, role) == Walk(rest[3..], role.(validUntil := Some(Strip(rest[3], '\''))))
  {
    var options := ["VALID"] + rest;
    assert options[0] == "VALID" && options[1..] == rest;
    NotGlued("VALID");
  }

  /** CONNECTION takes the integer three places after its successor, and the
      walk resumes at that token. */
  lemma WalkConnection(rest: seq<string>, role: Role)
    ensures |rest| < 4 ==> Walk(["CONNECTION"] + rest, role) == Failure(MissingValue("CONNECTION"))
    ensures |rest| >= 4 && ParseInt(rest[3]).None? ==>
      Walk(["CONNECTION"] + rest, role) == Failure(NotAnInteger(rest[3]))
    ensures |rest| >= 4 && ParseInt(rest[3]).Some? ==>
      Walk(["CONNECTION"] + rest, role) == Walk(rest[3..], role.(connectionLimit := ParseInt(rest[3]).value))
  {
    var options := ["CONNECTION"] + rest;
    assert options[0] == "CONNECTION" && options[1..] == rest;
    NotGlued("CONNECTION");
  }

  /** CONNECTION is not one of the flag keywords. */
  lemma ConnectionIsNoFlag()
    ensures AttributeOf("CONNECTION") == None
  {
  }

  /** Any other token goes through the flag tests and the walk moves on. */
  lemma WalkPlain(option: string, rest: seq<string>, role: Role)
    requires !StartsWith(option, LoginGluedPrefix)
    requires option != "PASSWORD" && option != "VALID" && option != "CONNECTION"
    ensures Walk([option] + rest, role) == Walk(rest, Apply(role, option))
  {
    assert ([option] + rest)[1..] == rest;
  }

  /** The part of a sequence from index `i` on; empty past its end. */
  function Tail(s: seq<string>, i: nat): seq<string>
  {
    if i <= |s| then s[i..] else []
  }

  lemma TailAt(s: seq<string>, i: nat)
    requires i < |s|
    ensures Tail(s, i) == [s[i]] + s[i + 1..]
  {
  }

  lemma TailOfTail(s: seq<string>, j: nat, k: nat)
    requires j <= |s|
    ensures Tail(s, j + k) == Tail(s[j..], k)
  {
  }

  /** Splicing words in after index `i` puts them first among the tokens
      still to be examined. */
  lemma TailSplice(s: seq<string>, i: nat, words: seq<string>)
    requires i <= |s|
    ensures Tail(s[..i] + words + s[i..], i) == words + s[i..]
  {
    assert (s[..i] + words + s[i..])[i..] == words + s[i..];
  }

  /** One iteration of the loop in `roles` (the body of `for statement in
      statements`): the cursor walk over the option list, splicing re-split
      tokens into that list in place. */
  method ParseRole(tokens: seq<string>) returns (r: Result<Role, RoleError>)
    ensures r == RoleOf(tokens)
  {
    if |tokens| < 5 {
      return Failure(TooFewTokens(|tokens|));
    }
    var words := Split(tokens[4], ' ');
    var name, additional := words[0], words[1..];
    var role := Defaults(name);
    var options := additional + tokens[5..];
    var i := 0;
    ghost var todo := options;
    while i < |options|
      invariant todo == Tail(options, i)
      invariant Walk(todo, role) == RoleOf(tokens)
      decreases LoginGlued(todo), |todo|
    {
      var option := options[i];
      ghost var rest := options[i + 1..];
      TailAt(options, i);
      i := i + 1;

      if StartsWith(option, LoginGluedPrefix) {
        var newOptions := Split(option, ' ');
        TailSplice(options, i, newOptions);
        options := options[..i] + newOptions + options[i..];
        WalkGlued(option, rest, role);
        LoginGluedAppend(newOptions, rest);
        SplitPiecesNotGlued(option);
        todo := newOptions + rest;
        continue;
      }

      if option == "PASSWORD" {
        WalkPassword(rest, role);
        LoginGluedSuffix(rest, if rest == [] then 0 else 1);
        TailOfTail(options, i, 1);
        i := i + 1;
        todo := Tail(rest, 1);
        continue;
      }

      if option == "VALID" {
        WalkValid(rest, role);
        if i + 3 >= |options| {
          return Failure(MissingValue(option));
        }
        role := role.(validUntil := Some(Strip(options[i + 3], '\'')));
        LoginGluedSuffix(rest, 3);
        TailOfTail(options, i, 3);
        i := i + 3;
        todo := rest[3..];
        continue;
      }

      if option == "CONNECTION" {
        WalkConnection(rest, role);
        if i + 3 >= |options| {
          return Failure(MissingValue(option));
        }
        var limit := ParseInt(options[i + 3]);
        if limit.None? {
          return Failure(NotAnInteger(options[i + 3]));
        }
        role := role.(connectionLimit := limit.value);
        LoginGluedSuffix(rest, 3);
        TailOfTail(options, i, 3);
        i := i + 3;
        todo := rest[3..];
        ConnectionIsNoFlag();
      } else {
        WalkPlain(option, rest, role);
        todo := rest;
      }

      role := SetFlags(role, option);
    }
    return Success(role);
  }

  /** The run of flag tests that ends each iteration of the option loop. */
  method SetFlags(role: Role, option: string) returns (updated: Role)
    ensures updated == Apply(role, option)
  {
    ApplyByKeyword(role, option);
    updated := role;
    if option == "CREATEDB" || option == "NOCREATEDB" {
      updated := updated.(createdb := option);
    }
    if option == "INHERIT" || option == "NOINHERIT" {
      updated := updated.(inherit := option);
    }
    if option == "LOGIN" || option == "NOLOGIN" {
      updated := updated.(login := option);
    }
    if option == "REPLICATION" || option == "NOREPLICATION" {
      updated := updated.(replication := option);
    }
    if option == "BYPASSRLS" || option == "NOBYPASSRLS" {
      updated := updated.(bypassrls := option);
    }
    if option == "LOGIN" || option == "NOLOGIN" {
      updated := updated.(login := option);
    }
  }

  /** `Apply`, keyword by keyword. */
  lemma ApplyByKeyword(role: Role, option: string)
    ensures Apply(role, option) ==
      if option == "CREATEDB" || option == "NOCREATEDB" then role.(createdb := option)
      else if option == "INHERIT" || option == "NOINHERIT" then role.(inherit := option)
      else if option == "LOGIN" || option == "NOLOGIN" then role.(login := option)
      else if option == "REPLICATION" || option == "NOREPLICATION" then role.(replication := option)
      else if option == "BYPASSRLS" || option == "NOBYPASSRLS" then role.(bypassrls := option)
      else role
  {
  }

  /** The ordered dictionary `roles` returns: names in the order they were
      first inserted, and the record stored under each. */
  datatype OrderedRoles = OrderedRoles(names: seq<string>, entries: map<string, Role>)
  {
    /** No name twice, and the names are exactly the keys. */
    predicate Valid()
    {
      (forall i, j :: 0 <= i < j < |names| ==> names[i] != names[j]) &&
      (forall k :: k in entries ==> k in names) &&
      (forall k :: k in names ==> k in entries)
    }
  }

  /** An ordered dictionary from role name to role. */
  type RoleSet = m: OrderedRoles | m.Valid() witness OrderedRoles([], map[])

  /** `d[name] = role`: a new name goes last, an existing one keeps its
      place and gets the new record. */
  function Put(m: RoleSet, name: string, role: Role): (r: RoleSet)
    ensures r.entries == m.entries[name := role]
    ensures name in m.entries ==> r.names == m.names
    ensures name !in m.entries ==> r.names == m.names + [name]
  {
    if name in m.entries then OrderedRoles(m.names, m.entries[name := role])
    else OrderedRoles(m.names + [name], m.entries[name := role])
  }

  /** The names of a sequence of records. */
  function NamesOf(rs: seq<Role>): set<string>
  {
    set r | r in rs :: r.name
  }

  /** `OrderedDict((r.name, r) for r in rs)`. */
  function FromRecords(rs: seq<Role>): (m: RoleSet)
    ensures m.entries.Keys == NamesOf(rs)
  {
    if rs == [] then OrderedRoles([], map[])
    else
      var init, last := rs[..|rs| - 1], rs[|rs| - 1];
      assert rs == init + [last];
      Put(FromRecords(init), last.name, last)
  }

  /** The position of the first record named `name`, or `|rs|` if none is. */
  function FirstIndex(rs: seq<Role>, name: string): (k: nat)
    ensures k <= |rs|
    ensures k < |rs| ==> rs[k].name == name
    ensures forall j :: 0 <= j < k ==> rs[j].name != name
  {
    if rs == [] then 0
    else if rs[0].name == name then 0
    else 1 + FirstIndex(rs[1..], name)
  }

  /** For a name used more than once, the dictionary holds the last record
      with that name. */
  lemma {:induction false} LastRecordWins(rs: seq<Role>, j: nat)
    requires j < |rs|
    requires forall j' :: j < j' < |rs| ==> rs[j'].name != rs[j].name
    ensures FromRecords(rs).entries[rs[j].name] == rs[j]
  {
    var init, last := rs[..|rs| - 1], rs[|rs| - 1];
    assert rs == init + [last];
    if j < |rs| - 1 {
      assert init[j] == rs[j];
      LastRecordWins(init, j);
    }
  }

  /** Each listed name has a record, and the names are listed in the order
      of their first records. */
  predicate NamesInRecordOrder(rs: seq<Role>)
  {
    forall p, q :: 0 <= p < q < |FromRecords(rs).names| ==>
      FirstIndex(rs, FromRecords(rs).names[p]) < FirstIndex(rs, FromRecords(rs).names[q]) < |rs|
  }

  /** The dictionary lists each name once, in the order of its first record. */
  lemma {:induction false} NamesInFirstOccurrenceOrder(rs: seq<Role>)
    ensures NamesInRecordOrder(rs)
  {
    if rs != [] {
      NamesInFirstOccurrenceOrder(rs[..|rs| - 1]);
      NamesOrderStep(rs);
    }
  }

  lemma NamesOrderStep(rs: seq<Role>)
    requires rs != [] && NamesInRecordOrder(rs[..|rs| - 1])
    ensures NamesInRecordOrder(rs)
  {
    var init, last := rs[..|rs| - 1], rs[|rs| - 1];
    var before, after := FromRecords(init).names, FromRecords(rs).names;
    var isNew := last.name !in FromRecords(init).entries;
    assert after == if isNew then before + [last.name] else before;
    OldNamesStay(rs);
    if isNew {
      NewNameLast(rs);
    }
    forall p, q | 0 <= p < q < |after|
      ensures FirstIndex(rs, after[p]) < FirstIndex(rs, after[q]) < |rs|
    {
      if q == |before| {
        assert after[q] == last.name;
      } else {
        assert after[q] == before[q];
      }
      assert after[p] == before[p];
    }
  }

  /** A name already listed keeps the position of its first record. */
  lemma OldNamesStay(rs: seq<Role>)
    requires rs != []
    ensures var init := rs[..|rs| - 1];
      forall p :: 0 <= p < |FromRecords(init).names| ==>
        FirstIndex(rs, FromRecords(init).names[p]) == FirstIndex(init, FromRecords(init).names[p]) < |init|
  {
    var init, last := rs[..|rs| - 1], rs[|rs| - 1];
    RecordsInitLast(rs);
    var before := FromRecords(init).names;
    forall p | 0 <= p < |before|
      ensures FirstIndex(rs, before[p]) == FirstIndex(init, before[p]) < |init|
    {
      FirstIndexExtends(init, last, before[p]);
      FirstIndexPresent(init, before[p]);
    }
  }

  /** A name new with the last record has that record as its first. */
  lemma NewNameLast(rs: seq<Role>)
    requires rs != [] && rs[|rs| - 1].name !in FromRecords(rs[..|rs| - 1]).entries
    ensures FirstIndex(rs, rs[|rs| - 1].name) == |rs| - 1
  {
    var init, last := rs[..|rs| - 1], rs[|rs| - 1];
    RecordsInitLast(rs);
    FirstIndexExtends(init, last, last.name);
    FirstIndexPresent(init, last.name);
  }

  lemma RecordsInitLast(rs: seq<Role>)
    requires rs != []
    ensures rs[..|rs| - 1] + [rs[|rs| - 1]] == rs
  {
  }

  /** With no name used twice, the dictionary lists the names in record
      order and holds every record. */
  lemma {:induction false} DistinctNamesInOrder(rs: seq<Role>)
    requires forall i, j :: 0 <= i < j < |rs| ==> rs[i].name != rs[j].name
    ensures |FromRecords(rs).names| == |rs|
    ensures forall i :: 0 <= i < |rs| ==> FromRecords(rs).names[i] == rs[i].name
    ensures forall i :: 0 <= i < |rs| ==> FromRecords(rs).entries[rs[i].name] == rs[i]
  {
    if rs != [] {
      var n := |rs| - 1;
      var init := rs[..n];
      assert rs == init + [rs[n]];
      DistinctNamesInOrder(init);
      assert rs[n].name !in NamesOf(init);
      var m := FromRecords(init);
      assert FromRecords(rs) == Put(m, rs[n].name, rs[n]);
      assert FromRecords(rs).names == m.names + [rs[n].name];
    }
  }

  /** A name has a first record exactly when some record has that name. */
  lemma {:induction false} FirstIndexPresent(rs: seq<Role>, name: string)
    ensures FirstIndex(rs, name) < |rs| <==> name in NamesOf(rs)
  {
    if FirstIndex(rs, name) < |rs| {
      assert rs[FirstIndex(rs, name)] in rs;
    }
    if name in NamesOf(rs) {
      var r :| r in rs && r.name == name;
      var j :| 0 <= j < |rs| && rs[j] == r;
      assert FirstIndex(rs, name) <= j;
    }
  }

  lemma {:induction false} FirstIndexExtends(rs: seq<Role>, r: Role, name: string)
    ensures FirstIndex(rs + [r], name) ==
      if FirstIndex(rs, name) < |rs| then FirstIndex(rs, name)
      else if r.name == name then |rs| else |rs| + 1
  {
    if rs != [] {
      assert (rs + [r])[1..] == rs[1..] + [r];
      FirstIndexExtends(rs[1..], r, name);
    }
  }

  /** The outcome of parsing each statement, in order. */
  function ParseEach(statements: seq<seq<string>>): (r: seq<Result<Role, RoleError>>)
    ensures |r| == |statements|
    ensures forall i :: 0 <= i < |statements| ==> r[i] == RoleOf(statements[i])
  {
    if statements == [] then []
    else ParseEach(statements[..|statements| - 1]) + [RoleOf(statements[|statements| - 1])]
  }

  /** The records of a run of parse outcomes, or the first failure among
      them: the first statement that raises ends `roles`. */
  function Collect(results: seq<Result<Role, RoleError>>): Result<seq<Role>, RoleError>
  {
    if results == [] then Success([])
    else
      match Collect(results[..|results| - 1])
      case Failure(e) => Failure(e)
      case Success(done) =>
        match results[|results| - 1]
        case Failure(e) => Failure(e)
        case Success(role) => Success(done + [role])
  }

  /** A successful run has one record per outcome, in order. */
  lemma {:induction false} CollectRecords(results: seq<Result<Role, RoleError>>)
    requires Collect(results).Success?
    ensures |Collect(results).value| == |results|
    ensures forall i :: 0 <= i < |results| ==> results[i] == Success(Collect(results).value[i])
  {
    if results != [] {
      var init := results[..|results| - 1];
      CollectRecords(init);
      assert forall i :: 0 <= i < |init| ==> results[i] == init[i];
    }
  }

  /** Conversely, when every outcome is a record, the run succeeds with
      those records. */
  lemma {:induction false} CollectSucceeds(results: seq<Result<Role, RoleError>>, rs: seq<Role>)
    requires |rs| == |results|
    requires forall i :: 0 <= i < |results| ==> results[i] == Success(rs[i])
    ensures Collect(results) == Success(rs)
  {
    if results != [] {
      var n := |results| - 1;
      CollectSucceeds(results[..n], rs[..n]);
      assert rs == rs[..n] + [rs[n]];
    }
  }

  /** A failed run reports the error of the first outcome that fails. */
  lemma {:induction false} CollectFirstError(results: seq<Result<Role, RoleError>>)
    requires Collect(results).Failure?
    ensures exists i :: 0 <= i < |results| && results[i] == Failure(Collect(results).error) &&
                       (forall j :: 0 <= j < i ==> results[j].Success?)
  {
    var init := results[..|results| - 1];
    assert forall i :: 0 <= i < |init| ==> results[i] == init[i];
    if Collect(init).Failure? {
      CollectFirstError(init);
      var i :| 0 <= i < |init| && init[i] == Failure(Collect(init).error) &&
               (forall j :: 0 <= j < i ==> init[j].Success?);
      assert results[i] == Failure(Collect(results).error);
    } else {
      CollectRecords(init);
      var i := |results| - 1;
      assert forall j :: 0 <= j < i ==> results[j].Success?;
    }
  }

  /** Once a prefix fails, the whole run fails the same way. */
  lemma {:induction false} CollectFailureSticks(results: seq<Result<Role, RoleError>>, k: nat)
    requires k <= |results|
    requires Collect(results[..k]).Failure?
    ensures Collect(results) == Collect(results[..k])
    decreases |results| - k
  {
    if k < |results| {
      assert results[..k + 1][..k] == results[..k];
      CollectFailureSticks(results, k + 1);
    } else {
      assert results[..k] == results;
    }
  }

  lemma ParseEachPrefix(statements: seq<seq<string>>, k: nat)
    requires k <= |statements|
    ensures ParseEach(statements)[..k] == ParseEach(statements[..k])
  {
  }

  /** What `roles` returns for a list of token lists. */
  function RolesOf(statements: seq<seq<string>>): Result<RoleSet, RoleError>
  {
    match Collect(ParseEach(statements))
    case Failure(e) => Failure(e)
    case Success(rs) => Success(FromRecords(rs))
  }

  /** `roles`: parse each statement in order, then build the dictionary. */
  method ParseRoles(statements: seq<seq<string>>) returns (r: Result<RoleSet, RoleError>)
    ensures r == RolesOf(statements)
  {
    var parsed: seq<Role> := [];
    for k := 0 to |statements|
      invariant Collect(ParseEach(statements[..k])) == Success(parsed)
    {
      var role := ParseRole(statements[k]);
      ghost var before := ParseEach(statements[..k]);
      ghost var after := ParseEach(statements[..k + 1]);
      assert statements[..k + 1][..k] == statements[..k];
      assert after == before + [role];
      assert after[..k] == before;
      if role.Failure? {
        ParseEachPrefix(statements, k + 1);
        CollectFailureSticks(ParseEach(statements), k + 1);
        return Failure(role.error);
      }
      parsed := parsed + [role.value];
    }
    assert statements[..|statements|] == statements;
    return Success(FromRecords(parsed));
  }

  const RolePrefix := "CREATE ROLE"

  predicate IsRoleStatement(statement: string)
  {
    StartsWith(statement, RolePrefix)
  }

  /** The non-empty statements that start with CREATE ROLE, in order. */
  function RoleStatementsOf(statements: seq<string>): seq<string>
  {
    if statements == [] then []
    else
      var s := statements[|statements| - 1];
      RoleStatementsOf(statements[..|statements| - 1]) + (if s != "" && IsRoleStatement(s) then [s] else [])
  }

  /** The non-empty statements that do not, in order. */
  function OtherStatementsOf(statements: seq<string>): seq<string>
  {
    if statements == [] then []
    else
      var s := statements[|statements| - 1];
      OtherStatementsOf(statements[..|statements| - 1]) + (if s != "" && !IsRoleStatement(s) then [s] else [])
  }

  /** Each statement followed by one newline. */
  function Lines(statements: seq<string>): string
  {
    if statements == [] then ""
    else Lines(statements[..|statements| - 1]) + statements[|statements| - 1] + "\n"
  }

  /** The tokenizer applied to each statement. */
  function TokenizeAll(statements: seq<string>, tokenize: string -> seq<string>): (r: seq<seq<string>>)
    ensures |r| == |statements|
  {
    if statements == [] then []
    else TokenizeAll(statements[..|statements| - 1], tokenize) + [tokenize(statements[|statements| - 1])]
  }

  /** The result of `extract_roles`: the role dictionary and the remainder. */
  datatype Document = Document(roles: RoleSet, remainder: string)

  function Extract(statements: seq<string>, tokenize: string -> seq<string>): Result<Document, RoleError>
  {
    match RolesOf(TokenizeAll(RoleStatementsOf(statements), tokenize))
    case Failure(e) => Failure(e)
    case Success(roles) => Success(Document(roles, Lines(OtherStatementsOf(statements))))
  }

  /** One more statement goes to the side it belongs to, or to neither if it
      is empty. */
  lemma PartitionStep(statements: seq<string>, k: nat)
    requires k < |statements|
    ensures statements[k] == "" ==>
      RoleStatementsOf(statements[..k + 1]) == RoleStatementsOf(statements[..k]) &&
      OtherStatementsOf(statements[..k + 1]) == OtherStatementsOf(statements[..k])
    ensures statements[k] != "" && IsRoleStatement(statements[k]) ==>
      RoleStatementsOf(statements[..k + 1]) == RoleStatementsOf(statements[..k]) + [statements[k]] &&
      OtherStatementsOf(statements[..k + 1]) == OtherStatementsOf(statements[..k])
    ensures statements[k] != "" && !IsRoleStatement(statements[k]) ==>
      RoleStatementsOf(statements[..k + 1]) == RoleStatementsOf(statements[..k]) &&
      OtherStatementsOf(statements[..k + 1]) == OtherStatementsOf(statements[..k]) + [statements[k]]
  {
    var before := statements[..k];
    assert statements[..k + 1][..k] == before;
    assert RoleStatementsOf(before) + [] == RoleStatementsOf(before);
    assert OtherStatementsOf(before) + [] == OtherStatementsOf(before);
  }

  lemma TokenizeAllSnoc(statements: seq<string>, s: string, tokenize: string -> seq<string>)
    ensures TokenizeAll(statements + [s], tokenize) == TokenizeAll(statements, tokenize) + [tokenize(s)]
  {
    assert (statements + [s])[..|statements|] == statements;
  }

  lemma LinesSnoc(statements: seq<string>, s: string)
    ensures Lines(statements + [s]) == Lines(statements) + s + "\n"
  {
    assert (statements + [s])[..|statements|] == statements;
  }

  /** `extract_roles` on the statements the SQL splitter returned. */
  method ExtractRoles(statements: seq<string>, tokenize: string -> seq<string>) returns (r: Result<Document, RoleError>)
    ensures r == Extract(statements, tokenize)
  {
    var roleStatements: seq<seq<string>> := [];
    var other := "";
    for k := 0 to |statements|
      invariant roleStatements == TokenizeAll(RoleStatementsOf(statements[..k]), tokenize)
      invariant other == Lines(OtherStatementsOf(statements[..k]))
    {
      var statement := statements[k];
      PartitionStep(statements, k);
      if statement == "" {
        continue;
      }
      if StartsWith(statement, RolePrefix) {
        TokenizeAllSnoc(RoleStatementsOf(statements[..k]), statement, tokenize);
        roleStatements := roleStatements + [tokenize(statement)];
      } else {
        LinesSnoc(OtherStatementsOf(statements[..k]), statement);
        other := other + statement + "\n";
      }
    }
    assert statements[..|statements|] == statements;
    var roles := ParseRoles(roleStatements);
    match roles
    case Failure(e) =>
      return Failure(e);
    case Success(m) =>
      return Success(Document(m, other));
  }

  /** Every non-empty statement goes to exactly one side, and nothing else
      does. */
  lemma {:induction false} PartitionMembership(statements: seq<string>, s: string)
    ensures s in RoleStatementsOf(statements) <==> s in statements && s != "" && IsRoleStatement(s)
    ensures s in OtherStatementsOf(statements) <==> s in statements && s != "" && !IsRoleStatement(s)
  {
    if statements != [] {
      var init := statements[..|statements| - 1];
      PartitionMembership(init, s);
      assert statements == init + [statements[|statements| - 1]];
    }
  }

  /** No statement is duplicated or dropped: the two sides together hold every
      non-empty statement as often as the input does. */
  lemma {:induction false} PartitionCounts(statements: seq<string>)
    ensures multiset(RoleStatementsOf(statements)) + multiset(OtherStatementsOf(statements)) ==
      multiset(statements)["" := 0]
  {
    if statements != [] {
      PartitionCounts(statements[..|statements| - 1]);
      PartitionCountsStep(statements);
    }
  }

  lemma PartitionCountsStep(statements: seq<string>)
    requires statements != []
    requires var init := statements[..|statements| - 1];
      multiset(RoleStatementsOf(init)) + multiset(OtherStatementsOf(init)) == multiset(init)["" := 0]
    ensures multiset(RoleStatementsOf(statements)) + multiset(OtherStatementsOf(statements)) == multiset(statements)["" := 0]
  {
    var n := |statements| - 1;
    var init, last := statements[..n], statements[n];
    var isRole := last != "" && IsRoleStatement(last);
    var isOther := last != "" && !IsRoleStatement(last);
    SnocCount(statements);
    MaybeSnocCount(RoleStatementsOf(init), last, isRole);
    MaybeSnocCount(OtherStatementsOf(init), last, isOther);
    DropEmptyAdd(multiset(init), last);
  }

  /** The multiset of a non-empty sequence: its front and its last element. */
  lemma SnocCount(xs: seq<string>)
    requires xs != []
    ensures multiset(xs) == multiset(xs[..|xs| - 1]) + multiset{xs[|xs| - 1]}
  {
    assert xs == xs[..|xs| - 1] + [xs[|xs| - 1]];
  }

  /** The multiset of a sequence with one element appended or not. */
  lemma MaybeSnocCount(xs: seq<string>, x: string, appended: bool)
    ensures multiset(xs + (if appended then [x] else [])) == multiset(xs) + (if appended then multiset{x} else multiset{})
  {
    if !appended {
      assert xs + [] == xs;
    }
  }

  /** Adding one element, then forgetting the empty string. */
  lemma DropEmptyAdd(m: multiset<string>, x: string)
    ensures (m + multiset{x})["" := 0] == m["" := 0] + (if x == "" then multiset{} else multiset{x})
  {
  }
}

/** Properties of the role parser of schemahq/roles.py, stated on the
    specification functions of module Roles. */
module RoleFacts {
  import opened Wrappers
  import opened Text
  import opened Roles

  /** A token the walk examines and ignores: not re-split, not a clause
      keyword and not a flag keyword (for instance SUPERUSER, CREATEROLE,
      WITH, whitespace, ";" or a quoted literal). */
  predicate Inert(option: string)
  {
    !StartsWith(option, LoginGluedPrefix) &&
    option != "PASSWORD" && option != "VALID" && option != "CONNECTION" &&
    AttributeOf(option).None?
  }

  /** A token the walk examines one at a time: anything but a re-split token
      or a clause keyword. */
  predicate Simple(option: string)
  {
    !StartsWith(option, LoginGluedPrefix) &&
    option != "PASSWORD" && option != "VALID" && option != "CONNECTION"
  }

  /** The walk changes only what its options set: the name and the
      CREATEROLE value stay, and every tracked flag keeps one of its two
      keywords. */
  lemma {:induction false} WalkKeepsShape(options: seq<string>, role: Role)
    requires Walk(options, role).Success?
    ensures Walk(options, role).value.name == role.name
    ensures Walk(options, role).value.createrole == role.createrole
    ensures WellFormed(role) ==> WellFormed(Walk(options, role).value)
    decreases LoginGlued(options), |options|
  {
    if options != [] {
      var option, rest := options[0], options[1..];
      assert options == [option] + rest;
      if StartsWith(option, LoginGluedPrefix) {
        WalkGlued(option, rest, role);
        LoginGluedAppend(Split(option, ' '), rest);
        SplitPiecesNotGlued(option);
        WalkKeepsShape(Split(option, ' ') + rest, role);
      } else if option == "PASSWORD" {
        WalkPassword(rest, role);
        LoginGluedSuffix(rest, if rest == [] then 0 else 1);
        WalkKeepsShape(Tail(rest, 1), role);
      } else if option == "VALID" {
        WalkValid(rest, role);
        LoginGluedSuffix(rest, 3);
        WalkKeepsShape(rest[3..], role.(validUntil := Some(Strip(rest[3], '\''))));
      } else if option == "CONNECTION" {
        WalkConnection(rest, role);
        LoginGluedSuffix(rest, 3);
        WalkKeepsShape(rest[3..], role.(connectionLimit := ParseInt(rest[3]).value));
      } else {
        WalkPlain(option, rest, role);
        ApplyKeepsShape(role, option);
        WalkKeepsShape(rest, Apply(role, option));
      }
    }
  }

  lemma ApplyKeepsShape(role: Role, option: string)
    ensures Apply(role, option).name == role.name
    ensures Apply(role, option).createrole == role.createrole
    ensures WellFormed(role) ==> WellFormed(Apply(role, option))
  {
    match AttributeOf(option)
    case None =>
    case Some(a) =>
      assert Switches(option, a);
      match a
      case CreateDb =>
      case Inherit =>
      case Login =>
      case Replication =>
      case BypassRls =>
  }

  /** The role's name is the fifth token up to its first space, and the
      record is well formed. */
  lemma RoleName(tokens: seq<string>)
    requires RoleOf(tokens).Success?
    ensures |tokens| >= 5
    ensures ' ' !in RoleOf(tokens).value.name
    ensures tokens[4] == RoleOf(tokens).value.name || StartsWith(tokens[4], RoleOf(tokens).value.name + " ")
    ensures WellFormed(RoleOf(tokens).value)
  {
    var words := Split(tokens[4], ' ');
    var name := words[0];
    assert name in words;
    WalkKeepsShape(words[1..] + tokens[5..], Defaults(name));
    JoinSplit(tokens[4], ' ');
    if |words| > 1 {
      var tail := Join(words[1..], ' ');
      assert tokens[4] == (name + " ") + tail;
      assert (name + " " + tail)[..|name + " "|] == name + " ";
    }
  }

  /** A walk over ignored tokens leaves the record as it was. */
  lemma {:induction false} WalkInert(options: seq<string>, role: Role)
    requires forall i :: 0 <= i < |options| ==> Inert(options[i])
    ensures Walk(options, role) == Success(role)
  {
    if options != [] {
      assert options == [options[0]] + options[1..];
      WalkPlain(options[0], options[1..], role);
      WalkInert(options[1..], role);
    }
  }

  /** A statement whose name token has no space and whose other tokens are
      all ignored yields the default record for that name. */
  lemma NoOptionsGiveDefaults(tokens: seq<string>)
    requires |tokens| >= 5 && ' ' !in tokens[4]
    requires forall i :: 5 <= i < |tokens| ==> Inert(tokens[i])
    ensures RoleOf(tokens) == Success(Defaults(tokens[4]))
  {
    SplitJoin([tokens[4]], ' ');
    assert Split(tokens[4], ' ') == [tokens[4]];
    assert [tokens[4]][1..] + tokens[5..] == tokens[5..];
    WalkInert(tokens[5..], Defaults(tokens[4]));
  }

  /** The last token of `options` that switches `a`, if any. */
  function LastSwitch(options: seq<string>, a: Attribute): (r: Option<string>)
    ensures r.Some? ==> r.value in options && Switches(r.value, a)
  {
    if options == [] then None
    else if Switches(options[|options| - 1], a) then Some(options[|options| - 1])
    else LastSwitch(options[..|options| - 1], a)
  }

  lemma {:induction false} LastSwitchCons(option: string, rest: seq<string>, a: Attribute)
    ensures LastSwitch([option] + rest, a) ==
      if LastSwitch(rest, a).Some? then LastSwitch(rest, a)
      else if Switches(option, a) then Some(option) else None
  {
    var options := [option] + rest;
    if rest != [] {
      assert options[..|options| - 1] == [option] + rest[..|rest| - 1];
      assert options[|options| - 1] == rest[|rest| - 1];
      LastSwitchCons(option, rest[..|rest| - 1], a);
    } else {
      assert options[..|options| - 1] == [];
    }
  }

  /** Over tokens that start no clause, each flag ends up with the last of
      its keywords in the statement (a later keyword overrides an earlier
      one), a flag no keyword mentions keeps its value, and nothing else
      changes. */
  lemma {:induction false} LastKeywordWins(options: seq<string>, role: Role)
    requires forall i :: 0 <= i < |options| ==> Simple(options[i])
    ensures Walk(options, role).Success?
    ensures forall a :: Walk(options, role).value.Get(a) == (
                          match LastSwitch(options, a)
                          case Some(k) => k
                          case None => role.Get(a))
    ensures Walk(options, role).value.connectionLimit == role.connectionLimit
    ensures Walk(options, role).value.validUntil == role.validUntil
    ensures Walk(options, role).value.name == role.name
  {
    if options != [] {
      var option, rest := options[0], options[1..];
      assert options == [option] + rest;
      WalkPlain(option, rest, role);
      var next := Apply(role, option);
      LastKeywordWins(rest, next);
      forall a ensures Walk(options, role).value.Get(a) == (
        match LastSwitch(options, a)
        case Some(k) => k
        case None => role.Get(a))
      {
        LastSwitchCons(option, rest, a);
        ApplyGet(role, option, a);
      }
    }
  }

  /** An option sets exactly the flag it switches, to itself. */
  lemma ApplyGet(role: Role, option: string, a: Attribute)
    ensures Apply(role, option).Get(a) == if Switches(option, a) then option else role.Get(a)
  {
    if Switches(option, a) {
      assert AttributeOf(option) == Some(a) by {
        match a
        case CreateDb =>
        case Inherit =>
        case Login =>
        case Replication =>
        case BypassRls =>
      }
    }
  }

  /** Tokens that start no clause are examined one at a time, so a walk
      over them can be split at any point. */
  lemma {:induction false} WalkSimplePrefix(prefix: seq<string>, rest: seq<string>, role: Role)
    requires forall i :: 0 <= i < |prefix| ==> Simple(prefix[i])
    ensures Walk(prefix, role).Success?
    ensures Walk(prefix + rest, role) == Walk(rest, Walk(prefix, role).value)
  {
    if prefix != [] {
      var option, tail := prefix[0], prefix[1..];
      assert prefix == [option] + tail;
      assert prefix + rest == [option] + (tail + rest);
      WalkPlain(option, tail + rest, role);
      WalkPlain(option, tail, role);
      WalkSimplePrefix(tail, rest, Apply(role, option));
    } else {
      assert prefix + rest == rest;
    }
  }

  /** A token whose first character starts none of the words the walk
      looks for (for instance whitespace, ";", WITH, SUPERUSER, a quoted
      literal or a number) is ignored. */
  lemma InertWord(option: string)
    requires option != [] && option[0] !in ['C', 'N', 'I', 'L', 'R', 'B', 'P', 'V']
    ensures Inert(option)
  {
    NotGlued(option);
    forall a ensures !Switches(option, a) {
      assert Keyword(a)[0] != option[0] && Negation(a)[0] != option[0] by {
        match a
        case CreateDb =>
        case Inherit =>
        case Login =>
        case Replication =>
        case BypassRls =>
      }
    }
  }

  /** A value in single quotes, as the tokenizer delivers a string literal. */
  function Quoted(value: string): (token: string)
    ensures token != [] && token[0] == '\''
  {
    "'" + value + "'"
  }

  /** A quoted literal, such as a password or a VALID UNTIL date, is ignored. */
  lemma QuotedIsInert(value: string)
    ensures Inert(Quoted(value))
  {
    InertWord(Quoted(value));
  }

  /** An integer literal, such as a connection limit, is ignored. */
  lemma IntegerIsInert(n: int)
    ensures Inert(ShowInt(n))
  {
    var s := ShowInt(n);
    if n < 0 {
      assert s[0] == '-';
    } else {
      assert IsDigit(s[0]);
    }
    InertWord(s);
  }

  /** CREATEROLE is not one of the tracked flags. */
  lemma CreateRoleIsInert()
    ensures Inert("CREATEROLE")
  {
    var w := "CREATEROLE";
    NotGlued(w);
    assert w[6] != Keyword(CreateDb)[6] && w[0] != Negation(CreateDb)[0];
    forall a ensures !Switches(w, a) {
      assert Keyword(a) != w && Negation(a) != w by {
        match a
        case CreateDb =>
        case Inherit => assert Keyword(a)[0] != w[0] && Negation(a)[0] != w[0];
        case Login => assert Keyword(a)[0] != w[0] && Negation(a)[0] != w[0];
        case Replication => assert Keyword(a)[0] != w[0] && Negation(a)[0] != w[0];
        case BypassRls => assert Keyword(a)[0] != w[0] && Negation(a)[0] != w[0];
      }
    }
  }

  /** A flag keyword sets its flag to itself. */
  lemma WalkKeyword(a: Attribute, rest: seq<string>, role: Role)
    ensures Walk([Keyword(a)] + rest, role) == Walk(rest, role.Set(a, Keyword(a)))
  {
    NotGlued(Keyword(a));
    assert AttributeOf(Keyword(a)) == Some(a) by {
      match a
      case CreateDb =>
      case Inherit =>
      case Login =>
      case Replication =>
      case BypassRls =>
    }
    WalkPlain(Keyword(a), rest, role);
  }

  /** "LOGIN <word>" is re-split into LOGIN and the word. */
  lemma GluedSplits(word: string)
    requires ' ' !in word
    ensures StartsWith(LoginGluedPrefix + word, LoginGluedPrefix)
    ensures Split(LoginGluedPrefix + word, ' ') == [Keyword(Login), word]
  {
    var option := LoginGluedPrefix + word;
    assert option[..|LoginGluedPrefix|] == LoginGluedPrefix;
    assert "LOGIN" + [' '] == LoginGluedPrefix;
    assert Join(["LOGIN", word], ' ') == option;
    SplitJoin(["LOGIN", word], ' ');
  }

  /** A token "LOGIN <word>" sets LOGIN and puts the word next in line. */
  lemma LoginGluedToWord(word: string, rest: seq<string>, role: Role)
    requires ' ' !in word
    ensures Walk([LoginGluedPrefix + word] + rest, role) == Walk([word] + rest, role.(login := "LOGIN"))
  {
    GluedWalk(word, rest, role);
    WalkKeyword(Login, [word] + rest, role);
  }

  /** The glued token is walked as LOGIN followed by the word. */
  lemma GluedWalk(word: string, rest: seq<string>, role: Role)
    requires ' ' !in word
    ensures Walk([LoginGluedPrefix + word] + rest, role) == Walk([Keyword(Login)] + ([word] + rest), role)
  {
    GluedTokens(word, rest);
    WalkGlued(LoginGluedPrefix + word, rest, role);
  }

  /** The tokens the glued token is re-split into, in front of the rest. */
  lemma GluedTokens(word: string, rest: seq<string>)
    requires ' ' !in word
    ensures StartsWith(LoginGluedPrefix + word, LoginGluedPrefix)
    ensures Split(LoginGluedPrefix + word, ' ') + rest == [Keyword(Login)] + ([word] + rest)
  {
    GluedSplits(word);
    PairThenRest(Split(LoginGluedPrefix + word, ' '), Keyword(Login), word, rest);
  }

  lemma PairThenRest(pieces: seq<string>, a: string, b: string, rest: seq<string>)
    requires pieces == [a, b]
    ensures pieces + rest == [a] + ([b] + rest)
  {
    assert pieces + rest == [a, b] + rest;
  }

  /** An ignored token is passed over. */
  lemma WalkInertHead(option: string, rest: seq<string>, role: Role)
    requires Inert(option)
    ensures Walk([option] + rest, role) == Walk(rest, role)
  {
    WalkPlain(option, rest, role);
  }

  /** Two ignored tokens are passed over. */
  lemma InertPair(x: string, y: string, rest: seq<string>, role: Role)
    requires Inert(x) && Inert(y)
    ensures Walk([x, y] + rest, role) == Walk(rest, role)
  {
    assert [x, y] + rest == [x] + ([y] + rest);
    WalkInertHead(x, [y] + rest, role);
    WalkInertHead(y, rest, role);
  }

  /** Ignored tokens in front of the rest of the options change nothing. */
  lemma WalkInertPrefix(prefix: seq<string>, rest: seq<string>, role: Role)
    requires forall i :: 0 <= i < |prefix| ==> Inert(prefix[i])
    ensures Walk(prefix + rest, role) == Walk(rest, role)
  {
    WalkInert(prefix, role);
    WalkSimplePrefix(prefix, rest, role);
  }

  /** A flag keyword after a whitespace token sets its flag. */
  lemma SpaceKeyword(a: Attribute, rest: seq<string>, role: Role)
    ensures Walk([" ", Keyword(a)] + rest, role) == Walk(rest, role.Set(a, Keyword(a)))
  {
    InertWord(" ");
    assert [" ", Keyword(a)] + rest == [" "] + ([Keyword(a)] + rest);
    WalkInertHead(" ", [Keyword(a)] + rest, role);
    WalkKeyword(a, rest, role);
  }

  /** PASSWORD and the value after it never change the record, whatever that
      value is: the password is not kept. */
  lemma PasswordSkipsValue(value: string, rest: seq<string>, role: Role)
    ensures Walk(["PASSWORD", value] + rest, role) == Walk(rest, role)
  {
    assert ["PASSWORD", value] + rest == ["PASSWORD"] + ([value] + rest);
    WalkPassword([value] + rest, role);
    assert Tail([value] + rest, 1) == rest;
  }

  /** A glued "LOGIN PASSWORD" token sets LOGIN, and the password after it is
      skipped. */
  lemma GluedLoginPassword(value: string, rest: seq<string>, role: Role)
    ensures Walk([LoginGluedPrefix + "PASSWORD", value] + rest, role) == Walk(rest, role.(login := "LOGIN"))
  {
    assert [LoginGluedPrefix + "PASSWORD", value] + rest == [LoginGluedPrefix + "PASSWORD"] + ([value] + rest);
    LoginGluedToWord("PASSWORD", [value] + rest, role);
    WalkPassword([value] + rest, role.(login := "LOGIN"));
    assert Tail([value] + rest, 1) == rest;
  }

  /** Stripping quotes from a quoted value that has none of its own gives
      the value back. */
  lemma QuotesStripped(value: string)
    requires value != [] ==> value[0] != '\'' && value[|value| - 1] != '\''
    ensures Strip(Quoted(value), '\'') == value
  {
    StripSurrounded("'", value, "'", '\'');
  }

  /** VALID followed by four tokens: the fourth is the value, quotes
      stripped, and the walk resumes at it. */
  lemma WalkValidValue(s1: string, until: string, s2: string, value: string, rest: seq<string>, role: Role)
    ensures Walk(["VALID", s1, until, s2, value] + rest, role) ==
            Walk([value] + rest, role.(validUntil := Some(Strip(value, '\''))))
  {
    var after := [s1, until, s2, value] + rest;
    assert ["VALID", s1, until, s2, value] + rest == ["VALID"] + after;
    assert after[3] == value && after[3..] == [value] + rest;
    WalkValid(after, role);
  }

  /** `VALID UNTIL '<date>'` stores the date without its quotes, and the
      walk goes on after the date. */
  lemma ValidUntilStripsQuotes(s1: string, until: string, s2: string, date: string, rest: seq<string>, role: Role)
    requires date != [] ==> date[0] != '\'' && date[|date| - 1] != '\''
    ensures Walk(["VALID", s1, until, s2, Quoted(date)] + rest, role) == Walk(rest, role.(validUntil := Some(date)))
  {
    WalkValidValue(s1, until, s2, Quoted(date), rest, role);
    QuotesStripped(date);
    QuotedIsInert(date);
    WalkInertHead(Quoted(date), rest, role.(validUntil := Some(date)));
  }

  /** `CONNECTION LIMIT <n>` sets the limit to the integer `n`, and the walk
      goes on after it. */
  lemma ConnectionLimitParsed(s1: string, limit: string, s2: string, n: int, rest: seq<string>, role: Role)
    ensures Walk(["CONNECTION", s1, limit, s2, ShowInt(n)] + rest, role) == Walk(rest, role.(connectionLimit := n))
  {
    var after := [s1, limit, s2, ShowInt(n)] + rest;
    assert ["CONNECTION", s1, limit, s2, ShowInt(n)] + rest == ["CONNECTION"] + after;
    assert after[3] == ShowInt(n) && after[3..] == [ShowInt(n)] + rest;
    ParseShow(n);
    WalkConnection(after, role);
    IntegerIsInert(n);
    WalkInertHead(ShowInt(n), rest, role.(connectionLimit := n));
  }
}

/** The few Python string operations the role parser relies on, written out
    with the semantics of CPython's `str` methods and `int()`. */
module Text {
  import opened Wrappers

  /** `s.startswith(prefix)`. */
  predicate StartsWith(s: string, prefix: string)
  {
    |prefix| <= |s| && s[..|prefix|] == prefix
  }

  /** `s.split(sep)` for a one-character separator: never empty, keeps the
      empty pieces between adjacent separators, and no piece contains `sep`. */
  function Split(s: string, sep: char): (pieces: seq<string>)
    ensures |pieces| >= 1
    ensures forall p :: p in pieces ==> sep !in p
    decreases |s|
  {
    if s == [] then [""]
    else
      var rest := Split(s[1..], sep);
      if s[0] == sep then [""] + rest
      else [[s[0]] + rest[0]] + rest[1..]
  }

  /** `sep.join(pieces)`, the inverse of `Split`. */
  function Join(pieces: seq<string>, sep: char): string
    requires |pieces| >= 1
  {
    if |pieces| == 1 then pieces[0]
    else pieces[0] + [sep] + Join(pieces[1..], sep)
  }

  /** Joining the pieces of a split gives back the original string. */
  lemma {:induction false} JoinSplit(s: string, sep: char)
    ensures Join(Split(s, sep), sep) == s
    decreases |s|
  {
    if s != [] {
      var rest := Split(s[1..], sep);
      JoinSplit(s[1..], sep);
      if s[0] == sep {
        assert Split(s, sep) == [""] + rest;
        assert ([""] + rest)[1..] == rest;
      } else {
        var pieces := [[s[0]] + rest[0]] + rest[1..];
        assert Split(s, sep) == pieces;
        if |rest| > 1 {
          assert pieces[1..] == rest[1..];
        }
      }
    }
  }

  /** Splitting a string whose first piece has no separator. */
  lemma {:induction false} SplitAfterPlain(p: string, t: string, sep: char)
    requires sep !in p
    ensures Split(p + t, sep) == [p + Split(t, sep)[0]] + Split(t, sep)[1..]
    decreases |p|
  {
    if p != [] {
      SplitAfterPlain(p[1..], t, sep);
      assert (p + t)[1..] == p[1..] + t;
      assert (p + t)[0] == p[0];
      assert [p[0]] + (p[1..] + Split(t, sep)[0]) == p + Split(t, sep)[0];
    } else {
      assert p + t == t;
      assert p + Split(t, sep)[0] == Split(t, sep)[0];
      assert Split(t, sep) == [Split(t, sep)[0]] + Split(t, sep)[1..];
    }
  }

  /** Splitting the join of separator-free pieces gives back the pieces. */
  lemma {:induction false} SplitJoin(pieces: seq<string>, sep: char)
    requires |pieces| >= 1
    requires forall p :: p in pieces ==> sep !in p
    ensures Split(Join(pieces, sep), sep) == pieces
  {
    if |pieces| == 1 {
      SplitAfterPlain(pieces[0], "", sep);
      assert pieces[0] + "" == pieces[0];
      assert Split("", sep) == [""];
    } else {
      var t := Join(pieces[1..], sep);
      SplitJoin(pieces[1..], sep);
      SplitAfterPlain(pieces[0], [sep] + t, sep);
      assert pieces[0] + [sep] + t == pieces[0] + ([sep] + t);
      assert ([sep] + t)[1..] == t;
      assert Split([sep] + t, sep) == [""] + Split(t, sep);
      assert Join(pieces, sep) == pieces[0] + ([sep] + t);
      assert pieces[0] + "" == pieces[0];
      assert pieces == [pieces[0]] + pieces[1..];
    }
  }

  /** `s.lstrip(c)` for a single character `c`. */
  function StripLeading(s: string, c: char): (r: string)
    ensures |r| <= |s| && r == s[|s| - |r|..]
    ensures forall i :: 0 <= i < |s| - |r| ==> s[i] == c
    ensures r != [] ==> r[0] != c
  {
    if s != [] && s[0] == c then StripLeading(s[1..], c) else s
  }

  /** `s.rstrip(c)` for a single character `c`. */
  function StripTrailing(s: string, c: char): (r: string)
    ensures |r| <= |s| && r == s[..|r|]
    ensures forall i :: |r| <= i < |s| ==> s[i] == c
    ensures r != [] ==> r[|r| - 1] != c
  {
    if s != [] && s[|s| - 1] == c then StripTrailing(s[..|s| - 1], c) else s
  }

  /** `s.strip(c)` for a single character `c`: drops every leading and every
      trailing `c`, and nothing in between. */
  function Strip(s: string, c: char): (r: string)
  {
    StripTrailing(StripLeading(s, c), c)
  }

  /** Stripping removes exactly the runs of `c` around a core that neither
      begins nor ends with `c`. */
  lemma {:induction false} StripSurrounded(lead: string, core: string, trail: string, c: char)
    requires forall i :: 0 <= i < |lead| ==> lead[i] == c
    requires forall i :: 0 <= i < |trail| ==> trail[i] == c
    requires core != [] ==> core[0] != c && core[|core| - 1] != c
    ensures Strip(lead + core + trail, c) == core
  {
    var rest := core + trail;
    assert lead + core + trail == lead + rest;
    LeadingRun(lead, rest, c);
    if core == [] {
      assert rest == trail + [];
      LeadingRun(trail, [], c);
    } else {
      assert rest[0] == core[0];
      assert StripLeading(rest, c) == rest;
      TrailingRun(core, trail, c);
    }
  }

  lemma {:induction false} LeadingRun(lead: string, rest: string, c: char)
    requires forall i :: 0 <= i < |lead| ==> lead[i] == c
    ensures StripLeading(lead + rest, c) == StripLeading(rest, c)
    decreases |lead|
  {
    if lead != [] {
      assert (lead + rest)[1..] == lead[1..] + rest;
      LeadingRun(lead[1..], rest, c);
    } else {
      assert lead + rest == rest;
    }
  }

  lemma {:induction false} TrailingRun(core: string, trail: string, c: char)
    requires forall i :: 0 <= i < |trail| ==> trail[i] == c
    requires core != [] ==> core[|core| - 1] != c
    ensures StripTrailing(core + trail, c) == core
    decreases |trail|
  {
    if trail != [] {
      var shorter := trail[..|trail| - 1];
      assert (core + trail)[..|core + trail| - 1] == core + shorter;
      TrailingRun(core, shorter, c);
    } else {
      assert core + trail == core;
    }
  }

  predicate IsDigit(ch: char)
  {
    '0' <= ch <= '9'
  }

  predicate AllDigits(s: string)
  {
    forall i :: 0 <= i < |s| ==> IsDigit(s[i])
  }

  /** The value of a run of decimal digits, read most significant first. */
  function DigitsValue(s: string): nat
    requires AllDigits(s)
  {
    if s == [] then 0
    else 10 * DigitsValue(s[..|s| - 1]) + (s[|s| - 1] - '0') as nat
  }

  /** `int(s)` for a token: an optional sign followed by at least one
      decimal digit; `None` where Python raises `ValueError`. */
  function ParseInt(s: string): (r: Option<int>)
    ensures r.Some? ==> |s| > 0
    ensures r.Some? && s[0] == '-' ==> r.value <= 0
    ensures r.Some? && s[0] != '-' ==> r.value >= 0
  {
    if |s| > 1 && (s[0] == '-' || s[0] == '+') && AllDigits(s[1..]) then
      var magnitude: int := DigitsValue(s[1..]);
      Some(if s[0] == '-' then -magnitude else magnitude)
    else if |s| > 0 && AllDigits(s) then
      Some(DigitsValue(s))
    else
      None
  }

  /** Python's `str(n)` for a natural number. */
  function ShowNat(n: nat): (s: string)
    ensures |s| > 0 && AllDigits(s)
  {
    if n < 10 then ["0123456789"[n]]
    else ShowNat(n / 10) + ["0123456789"[n % 10]]
  }

  /** Python's `str(n)`. */
  function ShowInt(n: int): string
  {
    if n < 0 then "-" + ShowNat(-n) else ShowNat(n)
  }

  lemma {:induction false} DigitsOfShowNat(n: nat)
    ensures DigitsValue(ShowNat(n)) == n
  {
    var s := ShowNat(n);
    if n >= 10 {
      DigitsOfShowNat(n / 10);
      assert s[..|s| - 1] == ShowNat(n / 10);
    }
  }

  /** `int(str(n)) == n`: the integer parser reads back what `str` writes. */
  lemma ParseShow(n: int)
    ensures ParseInt(ShowInt(n)) == Some(n)
  {
    if n < 0 {
      ParseShowNegative(n);
    } else {
      ParseShowNat(n);
    }
  }

  lemma ParseShowNegative(n: int)
    requires n < 0
    ensures ParseInt(ShowInt(n)) == Some(n)
  {
    var m: nat := -n;
    DigitsOfShowNat(m);
    NegatedReadsBack(ShowNat(m), m);
    assert ShowInt(n) == "-" + ShowNat(m);
  }

  lemma NegatedReadsBack(digits: string, m: nat)
    requires |digits| > 0 && AllDigits(digits) && DigitsValue(digits) == m
    ensures ParseInt("-" + digits) == Some(-(m as int))
  {
    ParseNegative(digits);
  }

  lemma ParseShowNat(n: nat)
    ensures ParseInt(ShowInt(n)) == Some(n)
  {
    ParseUnsigned(ShowNat(n));
    DigitsOfShowNat(n);
  }

  /** A minus sign followed by digits reads as the negated digits. */
  lemma ParseNegative(digits: string)
    requires |digits| > 0 && AllDigits(digits)
    ensures ParseInt("-" + digits) == Some(-(DigitsValue(digits) as int))
  {
    var s := "-" + digits;
    assert s[1..] == digits;
  }

  /** Digits alone read as their value. */
  lemma ParseUnsigned(s: string)
    requires |s| > 0 && AllDigits(s)
    ensures ParseInt(s) == Some(DigitsValue(s) as int)
  {
    assert IsDigit(s[0]);
  }
}

/** The names of versioned migration files (backend/apply_migrations.py). */
module MigrationNames {
  import opened Wrappers
  import opened Decimals

  function DigitsAtStart(s: string): (n: nat)
    ensures n <= |s|
  {
    if s != [] && IsDigit(s[0]) then 1 + DigitsAtStart(s[1..]) else 0
  }

  /** The version of a name of the form V, digits, two underscores, at least one character, ".sql". */
  function Version(name: string): Option<nat> {
    if name == [] || name[0] != 'V' then None
    else
      var n := DigitsAtStart(name[1..]);
      var rest := name[1 + n..];
      if n >= 1 && |rest| >= 7 && rest[..2] == "__" && rest[|rest| - 4..] == ".sql" && '\n' !in rest then
        Some(DecimalValue(name[1..][..n]))
      else None
  }

  /** A name is V, digits, two underscores, a text of at least one character on one line, and .sql. */
  ghost predicate Names(name: string, digits: string, title: string) {
    && name == "V" + digits + "__" + title + ".sql"
    && digits != [] && (forall c :: c in digits ==> IsDigit(c))
    && title != [] && '\n' !in title
  }

  lemma {:induction false} DigitsStop(digits: string, rest: string)
    requires (forall c :: c in digits ==> IsDigit(c)) && (rest != [] ==> !IsDigit(rest[0]))
    ensures DigitsAtStart(digits + rest) == |digits|
  {
    if digits == [] {
      assert digits + rest == rest;
    } else {
      assert (digits + rest)[0] == digits[0] && (digits + rest)[1..] == digits[1..] + rest;
      DigitsStop(digits[1..], rest);
    }
  }

  lemma {:induction false} DigitsAreDigits(s: string)
    ensures forall c :: c in s[..DigitsAtStart(s)] ==> IsDigit(c)
  {
    if s != [] && IsDigit(s[0]) {
      DigitsAreDigits(s[1..]);
      assert s[..DigitsAtStart(s)] == [s[0]] + s[1..][..DigitsAtStart(s[1..])];
    }
  }

  /** What may follow the digits. */
  ghost predicate Continues(rest: string) {
    |rest| >= 7 && rest[..2] == "__" && rest[|rest| - 4..] == ".sql" && '\n' !in rest
  }

  lemma TitleContinues(title: string)
    requires title != [] && '\n' !in title
    ensures Continues("__" + title + ".sql") && ("__" + title + ".sql")[0] == '_'
  {
    var rest := "__" + title + ".sql";
    assert rest == "__" + (title + ".sql");
    assert '\n' !in "__" && '\n' !in ".sql";
  }

  lemma NameSplits(digits: string, title: string)
    ensures "V" + digits + "__" + title + ".sql" == "V" + (digits + ("__" + title + ".sql"))
  {
    var rest := "__" + title + ".sql";
    assert "V" + digits + "__" + title + ".sql" == "V" + digits + rest;
    assert "V" + digits + rest == "V" + (digits + rest);
  }

  lemma DigitsThenRest(digits: string, rest: string)
    ensures
      var name := "V" + (digits + rest);
      name[1..] == digits + rest && name[1..][..|digits|] == digits && name[1 + |digits|..] == rest
  {
    var name := "V" + (digits + rest);
    assert name[1..] == digits + rest;
    assert name[1 + |digits|..] == name[1..][|digits|..];
  }

  lemma VersionOfParts(digits: string, rest: string)
    requires digits != [] && (forall c :: c in digits ==> IsDigit(c))
    requires Continues(rest) && !IsDigit(rest[0])
    ensures Version("V" + (digits + rest)) == Some(DecimalValue(digits))
  {
    DigitsStop(digits, rest);
    DigitsThenRest(digits, rest);
  }

  lemma NamedVersion(name: string, digits: string, title: string)
    requires Names(name, digits, title)
    ensures Version(name) == Some(DecimalValue(digits))
  {
    TitleContinues(title);
    NameSplits(digits, title);
    VersionOfParts(digits, "__" + title + ".sql");
  }

  lemma VersionedName(name: string) returns (digits: string, title: string)
    requires Version(name).Some?
    ensures Names(name, digits, title) && Version(name) == Some(DecimalValue(digits))
  {
    var n := DigitsAtStart(name[1..]);
    var rest := name[1 + n..];
    digits, title := name[1..][..n], rest[2..|rest| - 4];
    DigitsAreDigits(name[1..]);
    assert rest == rest[..2] + title + rest[|rest| - 4..];
    assert name == [name[0]] + digits + rest;
    forall c | c in title ensures c != '\n' {
      assert c in rest;
    }
  }

  /** The names that count are exactly those of this form, and their version is that of the digits. */
  lemma VersionsAreRead(name: string, version: nat)
    ensures Version(name) == Some(version)
       <==> exists digits, title :: Names(name, digits, title) && DecimalValue(digits) == version
  {
    if Version(name).Some? {
      var digits, title := VersionedName(name);
    }
    if exists digits, title :: Names(name, digits, title) && DecimalValue(digits) == version {
      var digits, title :| Names(name, digits, title) && DecimalValue(digits) == version;
      NamedVersion(name, digits, title);
    }
  }
}

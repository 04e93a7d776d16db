/** IPv4 addresses as dotted decimal text, and the wildcard patterns matched against it. */
module DottedText {
  import opened Wrappers
  import opened Text
  import opened Decimals
  import opened Cidr

  /** Octet `k` of an address, 0 being the leftmost. */
  function Octet(x: nat, k: nat): (o: nat)
    requires k < 4
    ensures o < 256
  {
    match k
    case 0 => x / 0x100_0000 % 256
    case 1 => x / 0x1_0000 % 256
    case 2 => x / 0x100 % 256
    case 3 => x % 256
  }

  /** str(IPv4Address(x)). */
  function Dotted(x: nat): string {
    Decimal(Octet(x, 0)) + ['.'] + (Decimal(Octet(x, 1)) + ['.']
                                    + (Decimal(Octet(x, 2)) + ['.'] + Decimal(Octet(x, 3))))
  }

  function Parts(x: nat): seq<string> {
    [Decimal(Octet(x, 0)), Decimal(Octet(x, 1)), Decimal(Octet(x, 2)), Decimal(Octet(x, 3))]
  }

  lemma SplitTwo(c: string, d: string)
    requires '.' !in c && '.' !in d
    ensures Split(c + ['.'] + d, '.') == [c, d]
  {
    SplitFirst(c, '.', d);
    SplitWhole(d, '.');
  }

  lemma SplitThree(b: string, c: string, d: string)
    requires '.' !in b && '.' !in c && '.' !in d
    ensures Split(b + ['.'] + (c + ['.'] + d), '.') == [b, c, d]
  {
    SplitFirst(b, '.', c + ['.'] + d);
    SplitTwo(c, d);
  }

  lemma SplitFour(a: string, b: string, c: string, d: string)
    requires '.' !in a && '.' !in b && '.' !in c && '.' !in d
    ensures Split(a + ['.'] + (b + ['.'] + (c + ['.'] + d)), '.') == [a, b, c, d]
  {
    SplitFirst(a, '.', b + ['.'] + (c + ['.'] + d));
    SplitThree(b, c, d);
  }

  lemma DottedParts(x: nat)
    ensures Split(Dotted(x), '.') == Parts(x)
  {
    SplitFour(Decimal(Octet(x, 0)), Decimal(Octet(x, 1)), Decimal(Octet(x, 2)), Decimal(Octet(x, 3)));
  }

  // ---------------------------------------------------------------- reading dotted text

  /** An octet as the address parser takes it: one to three digits, no leading zero, at most 255. */
  function ParseOctet(s: string): Option<nat> {
    if 1 <= |s| <= 3 && (forall c :: c in s ==> IsDigit(c)) && (|s| > 1 ==> s[0] != '0') && DecimalValue(s) <= 255
    then Some(DecimalValue(s)) else None
  }

  function ParseDotted(s: string): Option<nat> {
    var parts := Split(s, '.');
    if |parts| != 4 then None
    else
      match (ParseOctet(parts[0]), ParseOctet(parts[1]), ParseOctet(parts[2]), ParseOctet(parts[3]))
      case (Some(a), Some(b), Some(c), Some(d)) => Some(a * 0x100_0000 + b * 0x1_0000 + c * 0x100 + d)
      case _ => None
  }

  lemma OctetReadsBack(n: nat)
    requires n < 256
    ensures ParseOctet(Decimal(n)) == Some(n)
  {
    DecimalReadsBack(n);
    if n >= 10 {
      DecimalReadsBack(n / 10);
    }
  }

  lemma OctetsCompose(x: nat)
    requires IsAddress(x)
    ensures x == Octet(x, 0) * 0x100_0000 + Octet(x, 1) * 0x1_0000 + Octet(x, 2) * 0x100 + Octet(x, 3)
    ensures x / 0x100_0000 == Octet(x, 0)
    ensures x / 0x1_0000 == Octet(x, 0) * 256 + Octet(x, 1)
    ensures x / 0x100 == Octet(x, 0) * 0x1_0000 + Octet(x, 1) * 256 + Octet(x, 2)
  {
    var q1 := x / 0x100;
    var q2 := x / 0x1_0000;
    var q3 := x / 0x100_0000;
    assert q1 / 256 == q2 && q2 / 256 == q3;
  }

  /** The text of an address reads back as the address. */
  lemma DottedReadsBack(x: nat)
    requires IsAddress(x)
    ensures ParseDotted(Dotted(x)) == Some(x)
  {
    DottedParts(x);
    OctetReadsBack(Octet(x, 0));
    OctetReadsBack(Octet(x, 1));
    OctetReadsBack(Octet(x, 2));
    OctetReadsBack(Octet(x, 3));
    OctetsCompose(x);
  }

  lemma OctetIsCanonical(s: string)
    requires ParseOctet(s).Some?
    ensures Decimal(ParseOctet(s).value) == s && '.' !in s
  {
    DecimalIsCanonical(s);
  }

  lemma OctetsOf(a: nat, b: nat, c: nat, d: nat)
    requires a < 256 && b < 256 && c < 256 && d < 256
    ensures
      var x := a * 0x100_0000 + b * 0x1_0000 + c * 0x100 + d;
      IsAddress(x) && Octet(x, 0) == a && Octet(x, 1) == b && Octet(x, 2) == c && Octet(x, 3) == d
  {
    var x := a * 0x100_0000 + b * 0x1_0000 + c * 0x100 + d;
    assert x / 0x100 == a * 0x1_0000 + b * 0x100 + c;
    assert x / 0x1_0000 == a * 0x100 + b;
    assert x / 0x100_0000 == a;
  }

  lemma JoinFour(parts: seq<string>)
    requires |parts| == 4
    ensures Join(parts, '.') == parts[0] + ['.'] + (parts[1] + ['.'] + (parts[2] + ['.'] + parts[3]))
  {
    assert Join(parts[2..], '.') == parts[2] + ['.'] + parts[3];
    assert parts[1..][1..] == parts[2..];
    assert Join(parts[1..], '.') == parts[1] + ['.'] + Join(parts[2..], '.');
  }

  lemma FourOctetsAreCanonical(a: string, b: string, c: string, d: string)
    requires ParseOctet(a).Some? && ParseOctet(b).Some? && ParseOctet(c).Some? && ParseOctet(d).Some?
    ensures
      var x := ParseOctet(a).value * 0x100_0000 + ParseOctet(b).value * 0x1_0000 + ParseOctet(c).value * 0x100
               + ParseOctet(d).value;
      IsAddress(x) && Dotted(x) == a + ['.'] + (b + ['.'] + (c + ['.'] + d))
  {
    OctetIsCanonical(a);
    OctetIsCanonical(b);
    OctetIsCanonical(c);
    OctetIsCanonical(d);
    OctetsOf(ParseOctet(a).value, ParseOctet(b).value, ParseOctet(c).value, ParseOctet(d).value);
  }

  /** Only the dotted text of an address reads as that address. */
  lemma DottedIsCanonical(s: string)
    requires ParseDotted(s).Some?
    ensures IsAddress(ParseDotted(s).value) && Dotted(ParseDotted(s).value) == s
  {
    var parts := Split(s, '.');
    SplitThenJoin(s, '.');
    JoinFour(parts);
    FourOctetsAreCanonical(parts[0], parts[1], parts[2], parts[3]);
  }

  // ---------------------------------------------------------------- wildcard patterns

  /** OpenSearch wildcard matching: '*' stands for any text, '?' for any one character. */
  predicate Matches(pattern: string, text: string)
    decreases |pattern| + |text|
  {
    if pattern == [] then text == []
    else if pattern[0] == '*' then Matches(pattern[1..], text) || (text != [] && Matches(pattern, text[1..]))
    else text != [] && (pattern[0] == '?' || pattern[0] == text[0]) && Matches(pattern[1..], text[1..])
  }

  ghost predicate Literal(s: string) {
    '*' !in s && '?' !in s
  }

  /** A literal beginning must be the beginning of the text. */
  lemma {:induction false} LiteralPrefix(lit: string, pattern: string, text: string)
    requires Literal(lit)
    ensures Matches(lit + pattern, text) <==> lit <= text && Matches(pattern, text[|lit|..])
  {
    if lit == [] {
      assert lit + pattern == pattern;
    } else {
      assert (lit + pattern)[1..] == lit[1..] + pattern;
      if text != [] {
        LiteralPrefix(lit[1..], pattern, text[1..]);
        assert lit <= text <==> lit[0] == text[0] && lit[1..] <= text[1..] by {
          if lit[0] == text[0] && lit[1..] <= text[1..] {
            assert lit == [lit[0]] + lit[1..] && text == [text[0]] + text[1..];
          }
        }
      }
    }
  }

  lemma {:induction false} StarMatches(skipped: string, pattern: string, text: string)
    requires Matches(pattern, text)
    ensures Matches(['*'] + pattern, skipped + text)
  {
    assert (['*'] + pattern)[1..] == pattern;
    if skipped == [] {
      assert skipped + text == text;
    } else {
      StarMatches(skipped[1..], pattern, text);
      assert (skipped + text)[1..] == skipped[1..] + text;
    }
  }

  /** A dot-free text and the dot after it are a beginning of another such text only when equal. */
  lemma {:induction false} DottedPrefix(a: string, b: string, rest: string)
    requires '.' !in a && '.' !in b
    ensures a + ['.'] <= b + ['.'] + rest <==> a == b
  {
    var s, t := a + ['.'], b + ['.'] + rest;
    if a != [] && b != [] {
      DottedPrefix(a[1..], b[1..], rest);
      assert s[0] == a[0] && s[1..] == a[1..] + ['.'];
      assert t[0] == b[0] && t[1..] == b[1..] + ['.'] + rest;
      assert a == b <==> a[0] == b[0] && a[1..] == b[1..] by {
        assert a == [a[0]] + a[1..] && b == [b[0]] + b[1..];
      }
    } else if a == [] {
      assert t[0] == if b == [] then '.' else b[0];
    } else {
      assert s[0] == a[0];
    }
  }

  /** Matching one octet and its dot, then the rest. */
  lemma OctetStep(n: nat, m: nat, pattern: string, rest: string)
    ensures Matches(Decimal(n) + ['.'] + pattern, Decimal(m) + ['.'] + rest) <==> n == m && Matches(pattern, rest)
  {
    var a, b := Decimal(n), Decimal(m);
    LiteralPrefix(a + ['.'], pattern, b + ['.'] + rest);
    DottedPrefix(a, b, rest);
    DecimalReadsBack(n);
    DecimalReadsBack(m);
    if a == b {
      assert (b + ['.'] + rest)[|a + ['.']|..] == rest;
    }
  }

  lemma StarAndDot(skipped: string, pattern: string, text: string)
    requires Matches(pattern, text)
    ensures Matches("*." + pattern, skipped + ['.'] + text)
  {
    LiteralPrefix(['.'], pattern, ['.'] + text);
    assert (['.'] + text)[1..] == text;
    StarMatches(skipped, ['.'] + pattern, ['.'] + text);
    assert "*." + pattern == ['*'] + (['.'] + pattern);
    assert skipped + ['.'] + text == skipped + (['.'] + text);
  }

  // ---------------------------------------------------------------- CIDR to pattern and range

  /** cidr_to_wildcard: a pattern for /8, /16 and /24, the empty text otherwise. */
  function CidrToWildcard(n: Network): string
    requires n.prefixLength <= 32
  {
    var parts := Split(Dotted(NetworkAddress(n)), '.');
    if |parts| < 3 then ""
    else if n.prefixLength == 8 then parts[0] + ".*.*.*"
    else if n.prefixLength == 16 then parts[0] + "." + parts[1] + ".*.*"
    else if n.prefixLength == 24 then parts[0] + "." + parts[1] + "." + parts[2] + ".*"
    else ""
  }

  /** cidr_to_range: the texts of the first and the last address. */
  function CidrToRange(n: Network): (string, string)
    requires n.prefixLength <= 32
  {
    (Dotted(NetworkAddress(n)), Dotted(BroadcastAddress(n)))
  }

  lemma StarsMatch(b: string, c: string, d: string)
    ensures Matches("*", d)
    ensures Matches("*.*", c + ['.'] + d)
    ensures Matches("*.*.*", b + ['.'] + (c + ['.'] + d))
  {
    StarMatches(d, [], []);
    assert d + [] == d && ['*'] + [] == "*";
    StarAndDot(c, "*", d);
    assert "*." + "*" == "*.*";
    StarAndDot(b, "*.*", c + ['.'] + d);
    assert "*." + "*.*" == "*.*.*";
  }

  lemma MatchOneOctet(n0: nat, m0: nat, b: string, c: string, d: string)
    ensures Matches(Decimal(n0) + ".*.*.*", Decimal(m0) + ['.'] + (b + ['.'] + (c + ['.'] + d))) <==> n0 == m0
  {
    StarsMatch(b, c, d);
    assert Decimal(n0) + ".*.*.*" == Decimal(n0) + ['.'] + "*.*.*";
    OctetStep(n0, m0, "*.*.*", b + ['.'] + (c + ['.'] + d));
  }

  lemma MatchTwoOctets(n0: nat, n1: nat, m0: nat, m1: nat, c: string, d: string)
    ensures Matches(Decimal(n0) + "." + Decimal(n1) + ".*.*",
                    Decimal(m0) + ['.'] + (Decimal(m1) + ['.'] + (c + ['.'] + d)))
       <==> n0 == m0 && n1 == m1
  {
    StarsMatch([], c, d);
    assert Decimal(n0) + "." + Decimal(n1) + ".*.*" == Decimal(n0) + ['.'] + (Decimal(n1) + ['.'] + "*.*");
    OctetStep(n0, m0, Decimal(n1) + ['.'] + "*.*", Decimal(m1) + ['.'] + (c + ['.'] + d));
    OctetStep(n1, m1, "*.*", c + ['.'] + d);
  }

  lemma TwoOctetSteps(n0: nat, n1: nat, m0: nat, m1: nat, pattern: string, rest: string)
    ensures Matches(Decimal(n0) + ['.'] + (Decimal(n1) + ['.'] + pattern),
                    Decimal(m0) + ['.'] + (Decimal(m1) + ['.'] + rest))
       <==> n0 == m0 && n1 == m1 && Matches(pattern, rest)
  {
    OctetStep(n0, m0, Decimal(n1) + ['.'] + pattern, Decimal(m1) + ['.'] + rest);
    OctetStep(n1, m1, pattern, rest);
  }

  lemma PatternOfThree(a: string, b: string, c: string)
    ensures a + "." + b + "." + c + ".*" == a + ['.'] + (b + ['.'] + (c + ['.'] + "*"))
  {
    assert a + "." + b + "." + c + ".*" == a + "." + b + "." + (c + ".*");
    assert a + "." + b + "." + (c + ".*") == a + "." + (b + "." + (c + ".*"));
    assert c + ".*" == c + ['.'] + "*";
  }

  lemma MatchThreeOctets(n0: nat, n1: nat, n2: nat, m0: nat, m1: nat, m2: nat, d: string)
    ensures Matches(Decimal(n0) + "." + Decimal(n1) + "." + Decimal(n2) + ".*",
                    Decimal(m0) + ['.'] + (Decimal(m1) + ['.'] + (Decimal(m2) + ['.'] + d)))
       <==> n0 == m0 && n1 == m1 && n2 == m2
  {
    StarsMatch([], [], d);
    PatternOfThree(Decimal(n0), Decimal(n1), Decimal(n2));
    TwoOctetSteps(n0, n1, m0, m1, Decimal(n2) + ['.'] + "*", Decimal(m2) + ['.'] + d);
    OctetStep(n2, m2, "*", d);
  }

  /** The pattern matches an address's text exactly when the leading octets agree. */
  lemma WildcardMatchesOctets(n: Network, net: nat, x: nat)
    requires ValidNetwork(n) && n.prefixLength in {8, 16, 24} && net == NetworkAddress(n)
    ensures Matches(CidrToWildcard(n), Dotted(x))
       <==> (Octet(net, 0) == Octet(x, 0)
             && (n.prefixLength >= 16 ==> Octet(net, 1) == Octet(x, 1))
             && (n.prefixLength >= 24 ==> Octet(net, 2) == Octet(x, 2)))
  {
    DottedParts(net);
    if n.prefixLength == 8 {
      MatchOneOctet(Octet(net, 0), Octet(x, 0), Decimal(Octet(x, 1)), Decimal(Octet(x, 2)), Decimal(Octet(x, 3)));
    } else if n.prefixLength == 16 {
      MatchTwoOctets(Octet(net, 0), Octet(net, 1), Octet(x, 0), Octet(x, 1), Decimal(Octet(x, 2)),
                     Decimal(Octet(x, 3)));
    } else {
      MatchThreeOctets(Octet(net, 0), Octet(net, 1), Octet(net, 2), Octet(x, 0), Octet(x, 1), Octet(x, 2),
                       Decimal(Octet(x, 3)));
    }
  }

  lemma NetworkAddressKeepsQuotient(n: Network)
    requires ValidNetwork(n)
    ensures NetworkAddress(n) / BlockSize(n) == n.address / BlockSize(n)
    ensures IsAddress(NetworkAddress(n))
  {
    var size := BlockSize(n);
    ClearHostBitsIsFloor(n.address, size);
    DivisionIsUnique(NetworkAddress(n), size, n.address / size, 0);
  }

  lemma MembersShareQuotient(n: Network, x: nat)
    requires ValidNetwork(n) && IsAddress(x)
    ensures IsAddress(NetworkAddress(n))
    ensures InNetwork(x, n) <==> x / BlockSize(n) == NetworkAddress(n) / BlockSize(n)
  {
    NetworkAddressKeepsQuotient(n);
    Pow2Of32();
    QuotientIsLeadingBits(x, n.address, 32 - n.prefixLength);
  }

  lemma LeadingOctets(x: nat, y: nat)
    requires IsAddress(x) && IsAddress(y)
    ensures x / 0x100_0000 == y / 0x100_0000 <==> Octet(x, 0) == Octet(y, 0)
    ensures x / 0x1_0000 == y / 0x1_0000 <==> Octet(x, 0) == Octet(y, 0) && Octet(x, 1) == Octet(y, 1)
    ensures x / 0x100 == y / 0x100
        <==> Octet(x, 0) == Octet(y, 0) && Octet(x, 1) == Octet(y, 1) && Octet(x, 2) == Octet(y, 2)
  {
    OctetsCompose(x);
    OctetsCompose(y);
  }

  /** For /8, /16 and /24 the wildcard pattern matches the text of an address exactly when the
      address lies in the network. */
  lemma WildcardMeansMembership(n: Network, x: nat)
    requires ValidNetwork(n) && n.prefixLength in {8, 16, 24} && IsAddress(x)
    ensures Matches(CidrToWildcard(n), Dotted(x)) <==> InNetwork(x, n)
  {
    WildcardMatchesOctets(n, NetworkAddress(n), x);
    MembersShareQuotient(n, x);
    LeadingOctets(NetworkAddress(n), x);
    Pow2Of32();
  }

  /** For every prefix length the two bounds of the range form, read as addresses, enclose
      exactly the network. */
  lemma RangeMeansMembership(n: Network, x: nat)
    requires ValidNetwork(n) && IsAddress(x)
    ensures
      match (ParseDotted(CidrToRange(n).0), ParseDotted(CidrToRange(n).1))
      case (Some(gte), Some(lte)) => gte <= x <= lte <==> InNetwork(x, n)
      case _ => false
  {
    BlockIsLeadingBits(x, n);
    DottedReadsBack(NetworkAddress(n));
    DottedReadsBack(BroadcastAddress(n));
  }
}

/** Ranges over addresses kept as text: keyword fields compare the bounds of
    cidr_to_range (backend/app/utils/cidr.py) as texts, not as addresses. */
module TextRanges {
  import opened Text
  import opened Decimals
  import opened Cidr
  import opened DottedText

  ghost predicate InTextRange(n: Network, text: string)
    requires n.prefixLength <= 32
  {
    AtMost(CidrToRange(n).0, text) && AtMost(text, CidrToRange(n).1)
  }

  // ---------------------------------------------------------------- the order of octets as texts

  function Place(k: nat): nat {
    if k == 0 then 1 else if k == 1 then 11 else if k == 2 then 121 else 1331
  }

  /** A short text of digits as a number that orders like the text: a missing digit counts least. */
  function Weight(s: string, places: nat): nat {
    if s == [] || places == 0 then 0
    else (DigitValue(s[0]) + 1) * Place(places - 1) + Weight(s[1..], places - 1)
  }

  predicate AllDigits(s: string) {
    forall c :: c in s ==> IsDigit(c)
  }

  lemma LessCons(x: char, s: string, y: char, t: string)
    ensures Less([x] + s, [y] + t) <==> x < y || (x == y && Less(s, t))
  {
    assert ([x] + s)[1..] == s && ([y] + t)[1..] == t;
  }

  lemma LeadingWeight(a: nat, w: nat, b: nat, v: nat, place: nat)
    requires place in {1, 11, 121} && a <= 10 && b <= 10 && w < place && v < place
    ensures a * place + w < 11 * place
    ensures a * place + w < b * place + v <==> a < b || (a == b && w < v)
    ensures a * place + w == b * place + v <==> a == b && w == v
  {
  }

  lemma {:induction false} WeightOrders(s: string, t: string, places: nat)
    requires places <= 3 && |s| <= places && |t| <= places && AllDigits(s) && AllDigits(t)
    ensures Weight(s, places) < Place(places) && Weight(t, places) < Place(places)
    ensures Less(s, t) <==> Weight(s, places) < Weight(t, places)
    ensures s == t <==> Weight(s, places) == Weight(t, places)
  {
    if s == [] || t == [] || places == 0 {
      if s != [] {
        assert IsDigit(s[0]);
        WeightOrders(s[1..], [], places - 1);
        LeadingWeight(DigitValue(s[0]) + 1, Weight(s[1..], places - 1), 0, 0, Place(places - 1));
      }
      if t != [] {
        assert IsDigit(t[0]);
        WeightOrders([], t[1..], places - 1);
        LeadingWeight(DigitValue(t[0]) + 1, Weight(t[1..], places - 1), 0, 0, Place(places - 1));
      }
    } else {
      assert IsDigit(s[0]) && IsDigit(t[0]);
      assert s == [s[0]] + s[1..] && t == [t[0]] + t[1..];
      WeightOrders(s[1..], t[1..], places - 1);
      LessCons(s[0], s[1..], t[0], t[1..]);
      LeadingWeight(DigitValue(s[0]) + 1, Weight(s[1..], places - 1), DigitValue(t[0]) + 1, Weight(t[1..], places - 1),
                    Place(places - 1));
    }
  }

  /** The weight of an octet's text. */
  function Rank(o: nat): nat {
    if o < 10 then (o + 1) * 121
    else if o < 100 then (o / 10 + 1) * 121 + (o % 10 + 1) * 11
    else (o / 100 + 1) * 121 + (o / 10 % 10 + 1) * 11 + o % 10 + 1
  }

  lemma WeightOfThree(a: char, b: char, c: char)
    requires IsDigit(a) && IsDigit(b) && IsDigit(c)
    ensures Weight([a], 3) == (DigitValue(a) + 1) * 121
    ensures Weight([a, b], 3) == (DigitValue(a) + 1) * 121 + (DigitValue(b) + 1) * 11
    ensures Weight([a, b, c], 3) == (DigitValue(a) + 1) * 121 + (DigitValue(b) + 1) * 11 + DigitValue(c) + 1
  {
    assert [a, b][1..] == [b] && [a, b, c][1..] == [b, c] && [b, c][1..] == [c];
    assert Weight([c], 1) == DigitValue(c) + 1;
    assert Weight([b], 2) == (DigitValue(b) + 1) * 11;
    assert Weight([b, c], 2) == (DigitValue(b) + 1) * 11 + Weight([c], 1);
  }

  lemma RankIsWeight(o: nat)
    requires o < 256
    ensures Weight(Decimal(o), 3) == Rank(o) && |Decimal(o)| <= 3
  {
    var last := DigitChar(o % 10);
    if o < 10 {
      WeightOfThree(last, last, last);
    } else if o < 100 {
      assert Decimal(o) == [DigitChar(o / 10), last];
      WeightOfThree(DigitChar(o / 10), last, last);
    } else {
      var tens := o / 10;
      assert Decimal(tens) == [DigitChar(tens / 10), DigitChar(tens % 10)];
      assert Decimal(o) == [DigitChar(tens / 10), DigitChar(tens % 10), last];
      assert o / 100 == tens / 10;
      WeightOfThree(DigitChar(tens / 10), DigitChar(tens % 10), last);
    }
  }

  lemma OctetsOrderByRank(a: nat, b: nat)
    requires a < 256 && b < 256
    ensures AtMost(Decimal(a), Decimal(b)) <==> Rank(a) <= Rank(b)
  {
    RankIsWeight(a);
    RankIsWeight(b);
    WeightOrders(Decimal(a), Decimal(b), 3);
  }

  // ---------------------------------------------------------------- when the last octets are safe

  /** One octet; the octets 0 and 1; or octets from 26 on that share all digits but the last. */
  predicate SafeOctets(first: nat, last: nat) {
    first == last || (first == 0 && last == 1) || (first >= 26 && first / 10 == last / 10)
  }

  function Triple(a: nat, b: nat, c: nat): nat {
    121 * a + 11 * b + c
  }

  lemma TripleOrder(a: nat, b: nat, c: nat, a': nat, b': nat, c': nat)
    requires a <= 10 && b <= 10 && c <= 10 && a' <= 10 && b' <= 10 && c' <= 10
    ensures Triple(a, b, c) <= Triple(a', b', c') <==> a < a' || (a == a' && (b < b' || (b == b' && c <= c')))
  {
  }

  /** Rank, by the decimal digits. */
  function RankOfDigits(hundreds: nat, tens: nat, units: nat): nat {
    if hundreds == 0 && tens == 0 then Triple(units + 1, 0, 0)
    else if hundreds == 0 then Triple(tens + 1, units + 1, 0)
    else Triple(hundreds + 1, tens + 1, units + 1)
  }

  lemma Digits(o: nat) returns (hundreds: nat, tens: nat, units: nat)
    requires o < 256
    ensures tens <= 9 && units <= 9 && o == 100 * hundreds + 10 * tens + units && o / 10 == 10 * hundreds + tens
    ensures Rank(o) == RankOfDigits(hundreds, tens, units)
  {
    hundreds, tens, units := o / 100, o / 10 % 10, o % 10;
    assert o / 10 == 10 * hundreds + tens;
  }

  /** The order of two octets' texts, by their digits. */
  predicate DigitsAtMost(h: nat, t: nat, u: nat, h': nat, t': nat, u': nat) {
    if h > 0 then
      if h' > 0 then h < h' || (h == h' && (t < t' || (t == t' && u <= u')))
      else if t' > 0 then h < t' || (h == t' && t < u')
      else h < u'
    else if t > 0 then
      if h' > 0 then t < h' || (t == h' && u <= t')
      else if t' > 0 then t < t' || (t == t' && u <= u')
      else t < u'
    else if h' > 0 then u <= h'
    else if t' > 0 then u <= t'
    else u <= u'
  }

  lemma DigitsOrderByRank(h: nat, t: nat, u: nat, h': nat, t': nat, u': nat)
    requires h <= 9 && t <= 9 && u <= 9 && h' <= 9 && t' <= 9 && u' <= 9
    ensures RankOfDigits(h, t, u) <= RankOfDigits(h', t', u') <==> DigitsAtMost(h, t, u, h', t', u')
  {
    if h > 0 {
      TripleOrder(h + 1, t + 1, u + 1, h' + 1, t' + 1, u' + 1);
      TripleOrder(h + 1, t + 1, u + 1, t' + 1, u' + 1, 0);
      TripleOrder(h + 1, t + 1, u + 1, u' + 1, 0, 0);
    } else if t > 0 {
      TripleOrder(t + 1, u + 1, 0, h' + 1, t' + 1, u' + 1);
      TripleOrder(t + 1, u + 1, 0, t' + 1, u' + 1, 0);
      TripleOrder(t + 1, u + 1, 0, u' + 1, 0, 0);
    } else {
      TripleOrder(u + 1, 0, 0, h' + 1, t' + 1, u' + 1);
      TripleOrder(u + 1, 0, 0, t' + 1, u' + 1, 0);
      TripleOrder(u + 1, 0, 0, u' + 1, 0, 0);
    }
  }

  lemma SafeDigits(h: nat, t: nat, first: nat, last: nat, h': nat, t': nat, u': nat)
    requires 10 * h + t >= 2 && t <= 9 && first <= last <= 9 && t' <= 9 && u' <= 9 && 100 * h' + 10 * t' + u' < 256
    requires 100 * h + 10 * t + first >= 26
    ensures DigitsAtMost(h, t, first, h', t', u') && DigitsAtMost(h', t', u', h, t, last)
       <==> h == h' && t == t' && first <= u' <= last
  {
  }

  lemma SameDigits(h: nat, t: nat, h': nat, t': nat)
    requires t <= 9 && t' <= 9 && 10 * h + t == 10 * h' + t'
    ensures h == h' && t == t'
  {
  }

  lemma SafeOctetsSuffice(first: nat, last: nat, o: nat)
    requires first <= last < 256 && o < 256 && SafeOctets(first, last)
    ensures Rank(first) <= Rank(o) <= Rank(last) <==> first <= o <= last
  {
    var h, t, u := Digits(first);
    var h', t', u' := Digits(last);
    var h'', t'', u'' := Digits(o);
    DigitsOrderByRank(h, t, u, h'', t'', u'');
    DigitsOrderByRank(h'', t'', u'', h', t', u');
    if first >= 26 {
      SameDigits(h, t, h', t');
      SafeDigits(h, t, u, u', h'', t'', u'');
    } else if first == last {
      SameDigits(h, t, h', t');
    } else {
      assert h == t == u == h' == t' == 0 && u' == 1;
    }
  }

  /** The octet is between the numbers and not between the texts, or the other way round. */
  ghost predicate Misplaced(first: nat, last: nat, o: nat) {
    o < 256 && !(Rank(first) <= Rank(o) <= Rank(last) <==> first <= o <= last)
  }

  /** From 1 to 25: ten times the first octet continues its text. */
  lemma ContinuedOctet(first: nat, last: nat)
    requires 1 <= first <= 25 && first < last < 2 * first
    ensures Misplaced(first, last, if Rank(last) < Rank(first) then first else 10 * first)
  {
    var h, t, u := Digits(first);
    var h', t', u' := Digits(last);
    var h'', t'', u'' := Digits(10 * first);
    assert 10 * h'' + t'' == first && u'' == 0;
    if first >= 10 {
      assert h'' == t && t'' == u;
    }
  }

  lemma ShortenedDigits(h: nat, t: nat, u: nat, h': nat, t': nat, u': nat)
    requires t <= 9 && u <= 9 && t' <= 9 && u' <= 9
    requires 26 <= 100 * h + 10 * t + u && 100 * h' + 10 * t' + u' < 256 && 10 * h + t < 10 * h' + t'
    ensures h == 0 < h' ==> !DigitsAtMost(h, t, u, h', t', u')
    ensures (h == 0 < h') || (DigitsAtMost(h, t, u, 0, h', t') && DigitsAtMost(0, h', t', h', t', u'))
  {
  }

  lemma FewerDigits(first: nat, last: nat)
    requires 26 <= first < 100 <= last < 256
    ensures Rank(last) < Rank(first)
  {
    var h, t, u := Digits(first);
    var h', t', u' := Digits(last);
    ShortenedDigits(h, t, u, h', t', u');
    DigitsOrderByRank(h, t, u, h', t', u');
  }

  lemma OctetOfTens(last: nat, h: nat, t: nat, u: nat)
    requires last < 256 && last == 100 * h + 10 * t + u && t <= 9 && u <= 9
    ensures Rank(last / 10) == RankOfDigits(0, h, t)
  {
    var h', t', u' := Digits(last / 10);
    assert h' == 0;
    SameDigits(t', u', h, t);
  }

  lemma OctetIsContinued(first: nat, last: nat)
    requires 26 <= first < last < 256 && first / 10 != last / 10 && !(first < 100 <= last)
    ensures Rank(first) <= Rank(last / 10) <= Rank(last)
  {
    var h, t, u := Digits(first);
    var h', t', u' := Digits(last);
    OctetOfTens(last, h', t', u');
    ShortenedDigits(h, t, u, h', t', u');
    DigitsOrderByRank(h, t, u, 0, h', t');
    DigitsOrderByRank(0, h', t', h', t', u');
  }

  /** From 26 on, with different tens: the text of the last octet without its last digit. */
  lemma ShortenedOctet(first: nat, last: nat)
    requires 26 <= first < last < 256 && first / 10 != last / 10
    ensures Misplaced(first, last, if first < 100 <= last then first else last / 10)
  {
    if first < 100 <= last {
      FewerDigits(first, last);
    } else {
      OctetIsContinued(first, last);
    }
  }

  /** Any other block has an octet that is misplaced. */
  lemma UnsafeOctet(first: nat, last: nat, size: nat) returns (o: nat)
    requires size in {1, 2, 4, 8, 16, 32, 64, 128}
    requires first % size == 0 && last == first + size - 1 < 256 && !SafeOctets(first, last)
    ensures Misplaced(first, last, o)
  {
    if first == 0 {
      o := if last <= 7 then 10 else if last == 31 then 4 else if last == 63 then 7 else 2;
    } else if first <= 25 {
      o := if Rank(last) < Rank(first) then first else 10 * first;
      AtLeastOneBlock(first, size);
      ContinuedOctet(first, last);
    } else {
      o := if first < 100 <= last then first else last / 10;
      ShortenedOctet(first, last);
    }
  }

  lemma AtLeastOneBlock(first: nat, size: nat)
    requires size > 0 && first % size == 0 && first > 0
    ensures first >= size
  {
    if first < size {
      DivisionIsUnique(first, size, 0, first);
    }
  }

  // ---------------------------------------------------------------- the first three octets

  /** The text of the first three octets, with their dots. */
  function Stem(x: nat): string {
    Decimal(Octet(x, 0)) + ['.'] + (Decimal(Octet(x, 1)) + ['.'] + (Decimal(Octet(x, 2)) + ['.']))
  }

  lemma StemAndLast(x: nat)
    ensures Dotted(x) == Stem(x) + Decimal(Octet(x, 3))
  {
    var a, b, c, d := Decimal(Octet(x, 0)), Decimal(Octet(x, 1)), Decimal(Octet(x, 2)), Decimal(Octet(x, 3));
    assert b + ['.'] + (c + ['.'] + d) == b + ['.'] + (c + ['.']) + d;
  }

  lemma SameBeginning(p: string, a: string, b: string)
    ensures p + a <= p + b <==> a <= b
  {
    if p + a <= p + b {
      assert forall i :: 0 <= i < |a| ==> a[i] == (p + a)[|p| + i] == (p + b)[|p| + i] == b[i];
    }
  }

  lemma OctetPrefix(n: nat, m: nat, a: string, b: string)
    ensures Decimal(n) + ['.'] + a <= Decimal(m) + ['.'] + b <==> n == m && a <= b
  {
    var p, q := Decimal(n) + ['.'], Decimal(m) + ['.'];
    DottedPrefix(Decimal(n), Decimal(m), b);
    DecimalReadsBack(n);
    DecimalReadsBack(m);
    if p + a <= q + b {
      assert p <= q + b;
    }
    SameBeginning(p, a, b);
  }

  lemma StemTellsOctets(x: nat, y: nat)
    requires IsAddress(x) && IsAddress(y)
    ensures Stem(x) <= Dotted(y) <==> x / 0x100 == y / 0x100
    ensures x / 0x100 == y / 0x100 ==> Stem(x) == Stem(y)
  {
    var c, d := Decimal(Octet(y, 2)), Decimal(Octet(y, 3));
    OctetPrefix(Octet(x, 0), Octet(y, 0), Decimal(Octet(x, 1)) + ['.'] + (Decimal(Octet(x, 2)) + ['.']),
                Decimal(Octet(y, 1)) + ['.'] + (c + ['.'] + d));
    OctetPrefix(Octet(x, 1), Octet(y, 1), Decimal(Octet(x, 2)) + ['.'], c + ['.'] + d);
    OctetPrefix(Octet(x, 2), Octet(y, 2), [], d);
    assert Decimal(Octet(x, 2)) + ['.'] + [] == Decimal(Octet(x, 2)) + ['.'];
    LeadingOctets(x, y);
  }

  /** Between two addresses of one /24 the texts are those of the same /24 with a last octet between. */
  lemma BetweenInLastOctet(low: nat, high: nat, x: nat)
    requires IsAddress(low) && IsAddress(high) && IsAddress(x) && low / 0x100 == high / 0x100
    ensures AtMost(Dotted(low), Dotted(x)) && AtMost(Dotted(x), Dotted(high))
       <==> x / 0x100 == low / 0x100 && Rank(Octet(low, 3)) <= Rank(Octet(x, 3)) <= Rank(Octet(high, 3))
  {
    StemTellsOctets(low, high);
    StemTellsOctets(low, x);
    StemAndLast(low);
    StemAndLast(high);
    StemAndLast(x);
    if AtMost(Dotted(low), Dotted(x)) && AtMost(Dotted(x), Dotted(high)) {
      SqueezedPrefix(Stem(low), Decimal(Octet(low, 3)), Decimal(Octet(high, 3)), Dotted(x));
    }
    if x / 0x100 == low / 0x100 {
      LessBehindPrefix(Stem(low), Decimal(Octet(low, 3)), Decimal(Octet(x, 3)));
      LessBehindPrefix(Stem(low), Decimal(Octet(x, 3)), Decimal(Octet(high, 3)));
      OctetsOrderByRank(Octet(low, 3), Octet(x, 3));
      OctetsOrderByRank(Octet(x, 3), Octet(high, 3));
    }
  }

  // ---------------------------------------------------------------- when the range is right

  /** Prefixes from /25 on whose last octets are safe. */
  predicate TextRangeIsSafe(n: Network)
    requires n.prefixLength <= 32
  {
    n.prefixLength >= 25 && SafeOctets(Octet(NetworkAddress(n), 3), Octet(BroadcastAddress(n), 3))
  }

  lemma AlignedBlock(low: nat, size: nat)
    requires size in {1, 2, 4, 8, 16, 32, 64, 128} && low % size == 0
    ensures low % 0x100 % size == 0 && low % 0x100 + size <= 0x100
  {
    RemainderIsMultiple(low, size, 0x100 / size);
  }

  lemma RemainderIsMultiple(low: nat, size: nat, count: nat)
    requires size > 0 && count > 0 && low % size == 0
    ensures count * size > 0
    ensures low % (count * size) % size == 0 && low % (count * size) + size <= count * size
  {
    var q, whole := low / size, count * size;
    MulAtLeast(count, size);
    var a, r := q / count, q % count;
    assert low == a * whole + r * size by {
      assert low == q * size && q == a * count + r;
      assert (a * count + r) * size == a * (count * size) + r * size;
    }
    Distribute(count, r, size);
    MulAtLeast(count - r, size);
    MulNonNegative(r, size);
    DivisionIsUnique(low, whole, a, r * size);
    DivisionIsUnique(r * size, size, r, 0);
  }

  lemma SmallBlock(n: Network)
    requires ValidNetwork(n) && n.prefixLength >= 25
    ensures BlockSize(n) in {1, 2, 4, 8, 16, 32, 64, 128}
    ensures
      var low, high := NetworkAddress(n), BroadcastAddress(n);
      && low <= high < ADDRESS_COUNT && low / 0x100 == high / 0x100
      && Octet(low, 3) % BlockSize(n) == 0 && Octet(high, 3) == Octet(low, 3) + BlockSize(n) - 1
  {
    var low, size := NetworkAddress(n), BlockSize(n);
    ClearHostBitsIsFloor(n.address, size);
    DivisionIsUnique(low, size, n.address / size, 0);
    SmallPowers(32 - n.prefixLength);
    AlignedBlock(low, size);
    LastOctetAfter(low, size - 1);
    BlockIsLeadingBits(0, n);
  }

  lemma LastOctetAfter(low: nat, k: nat)
    requires low % 0x100 + k < 0x100
    ensures (low + k) / 0x100 == low / 0x100 && Octet(low + k, 3) == Octet(low, 3) + k
  {
  }

  lemma SmallPowers(k: nat)
    requires k <= 7
    ensures Pow2(k) == if k == 0 then 1 else if k == 1 then 2 else if k == 2 then 4 else if k == 3 then 8
                       else if k == 4 then 16 else if k == 5 then 32 else if k == 6 then 64 else 128
  {
    if k > 0 {
      SmallPowers(k - 1);
    }
  }

  /** From /25 on, both forms of membership are decided by the last octet. */
  lemma LastOctetDecides(n: Network, x: nat)
    requires ValidNetwork(n) && n.prefixLength >= 25 && IsAddress(x)
    ensures
      var low, high := NetworkAddress(n), BroadcastAddress(n);
      && (InTextRange(n, Dotted(x))
          <==> x / 0x100 == low / 0x100 && Rank(Octet(low, 3)) <= Rank(Octet(x, 3)) <= Rank(Octet(high, 3)))
      && (InNetwork(x, n) <==> x / 0x100 == low / 0x100 && Octet(low, 3) <= Octet(x, 3) <= Octet(high, 3))
  {
    SmallBlock(n);
    BlockIsLeadingBits(x, n);
    BetweenInLastOctet(NetworkAddress(n), BroadcastAddress(n), x);
  }

  lemma MultipleLessOne(k: nat)
    requires k > 0
    ensures (0x100 * k - 1) % 0x100 == 0xff
  {
    DivisionIsUnique(0x100 * k - 1, 0x100, k - 1, 0xff);
  }

  lemma LargeBlock(n: Network)
    requires ValidNetwork(n) && n.prefixLength <= 24
    ensures BlockSize(n) >= 0x100 && BroadcastAddress(n) % 0x100 == 0xff && BroadcastAddress(n) < ADDRESS_COUNT
  {
    var p := Pow2(24 - n.prefixLength);
    var size := BlockSize(n);
    var q := n.address / size;
    Pow2Splits(8, 24 - n.prefixLength);
    Pow2Of32();
    ClearHostBitsIsFloor(n.address, size);
    BlockIsLeadingBits(0, n);
    BlockEnd(q, p, size);
    MultipleLessOne((q + 1) * p);
  }

  lemma BlockEnd(q: nat, p: nat, size: nat)
    requires size == 0x100 * p && p > 0
    ensures q * size + size == 0x100 * ((q + 1) * p) && (q + 1) * p > 0
  {
    MulNonNegative(q, p);
    assert (q + 1) * p == q * p + p;
    assert q * (0x100 * p) == 0x100 * (q * p);
  }

  /** Up to /24 the member that ends in .3 sorts behind the last one, which ends in .255. */
  lemma LargeBlockMisses(n: Network) returns (x: nat)
    requires ValidNetwork(n) && n.prefixLength <= 24
    ensures IsAddress(x) && InNetwork(x, n) && !InTextRange(n, Dotted(x))
  {
    LargeBlock(n);
    var high := BroadcastAddress(n);
    x := high - 252;
    BlockIsLeadingBits(x, n);
    StemTellsOctets(high, x);
    StemAndLast(high);
    StemAndLast(x);
    LessBehindPrefix(Stem(high), Decimal(3), Decimal(255));
    OctetsOrderByRank(3, 255);
  }

  lemma WithLastOctet(low: nat, o: nat) returns (x: nat)
    requires IsAddress(low) && o < 256
    ensures IsAddress(x) && x / 0x100 == low / 0x100 && Octet(x, 3) == o
  {
    x := low / 0x100 * 0x100 + o;
  }

  lemma UnsafeRangeMisleads(n: Network) returns (x: nat)
    requires ValidNetwork(n) && !TextRangeIsSafe(n)
    ensures IsAddress(x) && !(InTextRange(n, Dotted(x)) <==> InNetwork(x, n))
  {
    if n.prefixLength <= 24 {
      x := LargeBlockMisses(n);
    } else {
      SmallBlock(n);
      var low := NetworkAddress(n);
      var o := UnsafeOctet(Octet(low, 3), Octet(BroadcastAddress(n), 3), BlockSize(n));
      x := WithLastOctet(low, o);
      LastOctetDecides(n, x);
    }
  }

  /** A range over texts is membership in the network, for all addresses, exactly when it is safe. */
  lemma TextRangeMeansMembershipExactlyWhen(n: Network)
    requires ValidNetwork(n)
    ensures (forall x :: IsAddress(x) ==> (InTextRange(n, Dotted(x)) <==> InNetwork(x, n))) <==> TextRangeIsSafe(n)
  {
    if TextRangeIsSafe(n) {
      forall x | IsAddress(x) ensures InTextRange(n, Dotted(x)) <==> InNetwork(x, n) {
        SmallBlock(n);
        LastOctetDecides(n, x);
        SafeOctetsSuffice(Octet(NetworkAddress(n), 3), Octet(BroadcastAddress(n), 3), Octet(x, 3));
      }
    } else {
      var x := UnsafeRangeMisleads(n);
    }
  }
}

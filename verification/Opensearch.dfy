/** OpenSearch filters for IP log queries (backend/app/integrations/opensearch/query.py and the
    filter builder of backend/app/utils/cidr.py) as query trees with a meaning on documents. */
module Opensearch {
  import opened Wrappers
  import opened Text
  import opened Cidr
  import opened Decimals
  import opened DottedText
  import opened TextRanges

  /** What a field holds: an address (fields of type ip), its or any other text (keyword fields), a
      number or a time. */
  datatype Value = Address(ip: nat) | Keyword(text: string) | Number(n: int) | Instant(at: int)

  type Document = map<string, seq<Value>>

  datatype TermValue = TextTerm(text: string) | NumberTerm(number: int)

  datatype Clause =
    | Term(field: string, value: TermValue)
    | Wildcard(wildcardField: string, pattern: string)
    | Range(rangeField: string, gte: string, lte: string)
    | Bool(filter: seq<Clause>, should: seq<Clause>, minimumShouldMatch: nat)

  /** An IP search value: plain text, or a network when the text holds a slash. */
  datatype IpValue = PlainIp(text: string) | CidrIp(network: Network)

  function Values(doc: Document, field: string): seq<Value> {
    if field in doc then doc[field] else []
  }

  /** str(n). */
  function IntegerText(n: int): string {
    if n < 0 then "-" + Decimal(-n) else Decimal(n)
  }

  ghost predicate TermHolds(value: Value, term: TermValue) {
    match (value, term)
    case (Address(ip), TextTerm(text)) => ParseDotted(text) == Some(ip)
    case (Keyword(own), TextTerm(text)) => own == text
    case (Keyword(own), NumberTerm(number)) => own == IntegerText(number)
    case (Number(n), NumberTerm(number)) => n == number
    case _ => false
  }

  /** The text a wildcard pattern is matched with. */
  function TextOf(value: Value): Option<string> {
    match value
    case Address(ip) => Some(Dotted(ip))
    case Keyword(text) => Some(text)
    case _ => None
  }

  /** Range bounds are read as addresses on address values, as times by `clock` on instants, and
      compared as texts with keywords. */
  ghost predicate RangeHolds(value: Value, gte: string, lte: string, clock: string -> int) {
    match value
    case Address(ip) =>
      ParseDotted(gte).Some? && ParseDotted(lte).Some? && ParseDotted(gte).value <= ip <= ParseDotted(lte).value
    case Keyword(text) => AtMost(gte, text) && AtMost(text, lte)
    case Instant(at) => clock(gte) <= at <= clock(lte)
    case Number(_) => false
  }

  predicate WildcardHolds(value: Value, pattern: string) {
    TextOf(value).Some? && Matches(pattern, TextOf(value).value)
  }

  ghost predicate Satisfies(doc: Document, q: Clause, clock: string -> int)
    decreases q
  {
    match q
    case Term(field, term) => exists v :: v in Values(doc, field) && TermHolds(v, term)
    case Wildcard(field, pattern) => exists v :: v in Values(doc, field) && WildcardHolds(v, pattern)
    case Range(field, gte, lte) => exists v :: v in Values(doc, field) && RangeHolds(v, gte, lte, clock)
    case Bool(filter, should, minimum) =>
      (forall c :: c in filter ==> Satisfies(doc, c, clock)) && CountSatisfied(doc, should, clock) >= minimum
  }

  ghost function CountSatisfied(doc: Document, clauses: seq<Clause>, clock: string -> int): nat
    decreases clauses
  {
    if clauses == [] then 0
    else (if Satisfies(doc, clauses[0], clock) then 1 else 0) + CountSatisfied(doc, clauses[1..], clock)
  }

  /** A bool clause asking for at least one of its alternatives holds when some alternative does. */
  lemma {:induction false} SomeSatisfied(doc: Document, clauses: seq<Clause>, clock: string -> int)
    ensures CountSatisfied(doc, clauses, clock) >= 1 <==> exists c :: c in clauses && Satisfies(doc, c, clock)
  {
    if clauses != [] {
      SomeSatisfied(doc, clauses[1..], clock);
      if Satisfies(doc, clauses[0], clock) {
        assert clauses[0] in clauses;
      } else if exists c :: c in clauses[1..] && Satisfies(doc, c, clock) {
        var c :| c in clauses[1..] && Satisfies(doc, c, clock);
        assert c in clauses;
      } else {
        forall c | c in clauses ensures !Satisfies(doc, c, clock) {
          assert c == clauses[0] || c in clauses[1..];
        }
      }
    }
  }

  function AnyOf(clauses: seq<Clause>): Clause {
    Bool([], clauses, 1)
  }

  // ---------------------------------------------------------------- building the filters

  function FieldTerms(fields: seq<string>, value: TermValue): seq<Clause> {
    seq(|fields|, i requires 0 <= i < |fields| => Term(fields[i], value))
  }

  /** cidr_to_opensearch_filter. */
  function CidrFilter(n: Network, fields: seq<string>): Clause
    requires n.prefixLength <= 32
  {
    if n.prefixLength in {8, 16, 24} then
      var wildcard := CidrToWildcard(n);
      AnyOf(seq(|fields|, i requires 0 <= i < |fields| => Wildcard(fields[i], wildcard)))
    else
      var (gte, lte) := CidrToRange(n);
      AnyOf(seq(|fields|, i requires 0 <= i < |fields| => Range(fields[i], gte, lte)))
  }

  /** ip_filter. */
  function IpFilter(value: IpValue, fields: seq<string>): Clause
    requires value.CidrIp? ==> value.network.prefixLength <= 32
  {
    match value
    case CidrIp(network) => CidrFilter(network, fields)
    case PlainIp(text) => AnyOf(FieldTerms(fields, TextTerm(text)))
  }

  // ---------------------------------------------------------------- what they mean

  /** The address a value stands for, in either form. */
  function IpOf(value: Value): Option<nat> {
    match value
    case Address(ip) => if ip < ADDRESS_COUNT then Some(ip) else None
    case Keyword(text) => ParseDotted(text)
    case _ => None
  }

  /** Documents whose IP fields hold IPv4 addresses, as such or as their text. */
  ghost predicate WellTyped(doc: Document, fields: seq<string>) {
    forall f, v :: f in fields && v in Values(doc, f) ==> IpOf(v).Some?
  }

  ghost predicate ValueIn(value: Value, n: Network)
    requires n.prefixLength <= 32
  {
    IpOf(value).Some? && InNetwork(IpOf(value).value, n)
  }

  /** Some field of the document holds an address of the network. */
  ghost predicate SomeAddressIn(doc: Document, fields: seq<string>, n: Network)
    requires n.prefixLength <= 32
  {
    exists f, v :: f in fields && v in Values(doc, f) && ValueIn(v, n)
  }

  /** The filter has the wildcard form, or a range that is right as a range of texts too. */
  predicate SafeOnText(n: Network)
    requires n.prefixLength <= 32
  {
    n.prefixLength in {8, 16, 24} || TextRangeIsSafe(n)
  }

  ghost predicate NoKeywords(doc: Document, fields: seq<string>) {
    forall f, v :: f in fields && v in Values(doc, f) ==> !v.Keyword?
  }

  /** The fields and the network go together: no range is taken over texts where it is wrong. */
  ghost predicate Suits(doc: Document, fields: seq<string>, n: Network)
    requires n.prefixLength <= 32
  {
    SafeOnText(n) || NoKeywords(doc, fields)
  }

  ghost predicate ValidIp(value: IpValue) {
    value.CidrIp? ==> ValidNetwork(value.network)
  }

  /** What an IP search value asks of a document, without reference to any query. */
  ghost predicate Asks(doc: Document, fields: seq<string>, value: IpValue)
    requires ValidIp(value)
  {
    match value
    case CidrIp(network) => SomeAddressIn(doc, fields, network)
    case PlainIp(text) => exists f, v :: f in fields && v in Values(doc, f) && IsIp(v, text)
  }

  /** The value is the address that the text names. */
  predicate IsIp(value: Value, text: string) {
    IpOf(value).Some? && ParseDotted(text) == IpOf(value)
  }

  ghost predicate SuitsIp(doc: Document, fields: seq<string>, value: IpValue)
    requires ValidIp(value)
  {
    value.CidrIp? ==> Suits(doc, fields, value.network)
  }

  /** The clause the CIDR filter holds for one field. */
  ghost function FieldClause(n: Network, field: string): Clause
    requires n.prefixLength <= 32
  {
    if n.prefixLength in {8, 16, 24} then Wildcard(field, CidrToWildcard(n))
    else Range(field, CidrToRange(n).0, CidrToRange(n).1)
  }

  ghost predicate FieldIn(doc: Document, field: string, n: Network)
    requires n.prefixLength <= 32
  {
    exists v :: v in Values(doc, field) && ValueIn(v, n)
  }

  /** What the clause of one field asks of one value. */
  ghost predicate ClauseHolds(n: Network, v: Value, clock: string -> int)
    requires n.prefixLength <= 32
  {
    if n.prefixLength in {8, 16, 24} then WildcardHolds(v, CidrToWildcard(n))
    else RangeHolds(v, CidrToRange(n).0, CidrToRange(n).1, clock)
  }

  lemma ClauseMeansMembership(n: Network, v: Value, clock: string -> int)
    requires ValidNetwork(n) && IpOf(v).Some? && (v.Keyword? ==> SafeOnText(n))
    ensures ClauseHolds(n, v, clock) <==> ValueIn(v, n)
  {
    var ip := IpOf(v).value;
    if v.Keyword? {
      DottedIsCanonical(v.text);
    }
    if n.prefixLength in {8, 16, 24} {
      WildcardMeansMembership(n, ip);
    } else if v.Keyword? {
      TextRangeMeansMembershipExactlyWhen(n);
      assert InTextRange(n, Dotted(ip)) <==> InNetwork(ip, n);
    } else {
      RangeMeansMembership(n, ip);
    }
  }

  lemma FieldHolds(n: Network, fields: seq<string>, doc: Document, clock: string -> int, f: string)
    requires ValidNetwork(n) && WellTyped(doc, fields) && Suits(doc, fields, n) && f in fields
    ensures Satisfies(doc, FieldClause(n, f), clock) <==> FieldIn(doc, f, n)
  {
    forall v | v in Values(doc, f) ensures ClauseHolds(n, v, clock) <==> ValueIn(v, n) {
      ClauseMeansMembership(n, v, clock);
    }
    assert Satisfies(doc, FieldClause(n, f), clock) <==> exists v :: v in Values(doc, f) && ClauseHolds(n, v, clock);
  }

  lemma SomeClauseHolds(n: Network, fields: seq<string>, clauses: seq<Clause>, doc: Document, clock: string -> int)
    requires ValidNetwork(n) && WellTyped(doc, fields) && Suits(doc, fields, n)
    requires |clauses| == |fields| && forall i :: 0 <= i < |fields| ==> clauses[i] == FieldClause(n, fields[i])
    ensures (exists c :: c in clauses && Satisfies(doc, c, clock)) <==> (exists f :: f in fields && FieldIn(doc, f, n))
  {
    if exists c :: c in clauses && Satisfies(doc, c, clock) {
      var c :| c in clauses && Satisfies(doc, c, clock);
      var i :| 0 <= i < |clauses| && clauses[i] == c;
      FieldHolds(n, fields, doc, clock, fields[i]);
    }
    if exists f :: f in fields && FieldIn(doc, f, n) {
      var f :| f in fields && FieldIn(doc, f, n);
      var i :| 0 <= i < |fields| && fields[i] == f;
      FieldHolds(n, fields, doc, clock, f);
      assert clauses[i] in clauses;
    }
  }

  /** The CIDR filter selects exactly the documents with an address of the subnet in some field, if
      fields and network go together. */
  lemma CidrFilterMeansMembership(n: Network, fields: seq<string>, doc: Document, clock: string -> int)
    requires ValidNetwork(n) && WellTyped(doc, fields) && Suits(doc, fields, n)
    ensures Satisfies(doc, CidrFilter(n, fields), clock) <==> SomeAddressIn(doc, fields, n)
  {
    var clauses := CidrFilter(n, fields).should;
    SomeSatisfied(doc, clauses, clock);
    SomeClauseHolds(n, fields, clauses, doc, clock);
  }

  ghost predicate FilterIsRight(n: Network, fields: seq<string>, doc: Document, clock: string -> int)
    requires n.prefixLength <= 32
  {
    Satisfies(doc, CidrFilter(n, fields), clock) <==> SomeAddressIn(doc, fields, n)
  }

  /** The filter is right for every document with addresses, as such or as text, exactly when it has
      the wildcard form or a safe range. */
  lemma CidrFilterIsRightExactlyWhen(n: Network, fields: seq<string>, clock: string -> int)
    requires ValidNetwork(n) && fields != []
    ensures (forall doc: Document :: WellTyped(doc, fields) ==> FilterIsRight(n, fields, doc, clock)) <==> SafeOnText(n)
  {
    if SafeOnText(n) {
      forall doc: Document | WellTyped(doc, fields) ensures FilterIsRight(n, fields, doc, clock) {
        CidrFilterMeansMembership(n, fields, doc, clock);
      }
    } else {
      var doc := RangeMisleads(n, fields, clock);
    }
  }

  /** A document with one value in one field. */
  function Only(field: string, v: Value): Document {
    map[field := [v]]
  }

  lemma OneValueDecides(n: Network, fields: seq<string>, v: Value, clock: string -> int)
    requires n.prefixLength <= 32 && fields != []
    ensures SomeAddressIn(Only(fields[0], v), fields, n) <==> ValueIn(v, n)
    ensures Satisfies(Only(fields[0], v), FieldClause(n, fields[0]), clock) <==> ClauseHolds(n, v, clock)
    ensures forall f :: Satisfies(Only(fields[0], v), FieldClause(n, f), clock) ==> ClauseHolds(n, v, clock)
  {
    var doc := Only(fields[0], v);
    assert v in Values(doc, fields[0]);
    forall f ensures Satisfies(doc, FieldClause(n, f), clock) ==> ClauseHolds(n, v, clock) {
      assert Satisfies(doc, FieldClause(n, f), clock) <==> exists w :: w in Values(doc, f) && ClauseHolds(n, w, clock);
    }
  }

  lemma FilterOfOneValue(n: Network, fields: seq<string>, v: Value, clock: string -> int)
    requires n.prefixLength <= 32 && fields != []
    ensures FilterIsRight(n, fields, Only(fields[0], v), clock) <==> (ClauseHolds(n, v, clock) <==> ValueIn(v, n))
  {
    var doc := Only(fields[0], v);
    var clauses := CidrFilter(n, fields).should;
    SomeSatisfied(doc, clauses, clock);
    OneValueDecides(n, fields, v, clock);
    assert clauses[0] == FieldClause(n, fields[0]) && clauses[0] in clauses;
    if exists c :: c in clauses && Satisfies(doc, c, clock) {
      var c :| c in clauses && Satisfies(doc, c, clock);
      var i :| 0 <= i < |clauses| && clauses[i] == c;
      assert c == FieldClause(n, fields[i]);
    }
  }

  /** One keyword with an address that the texts of the bounds misplace. */
  lemma RangeMisleads(n: Network, fields: seq<string>, clock: string -> int) returns (doc: Document)
    requires ValidNetwork(n) && fields != [] && !SafeOnText(n)
    ensures WellTyped(doc, fields) && !FilterIsRight(n, fields, doc, clock)
  {
    var x := UnsafeRangeMisleads(n);
    DottedReadsBack(x);
    doc := Only(fields[0], Keyword(Dotted(x)));
    FilterOfOneValue(n, fields, Keyword(Dotted(x)), clock);
  }

  // ---------------------------------------------------------------- a range that is wrong on keywords

  const TWENTY_SECOND := Network(0x0a00_0000, 22)

  lemma LowText()
    ensures Dotted(0x0a00_0000) == "10.0." + "0.0"
  {
    assert Decimal(0) == "0";
    DottedTail(0x0a00_0000, "0", "0");
  }

  lemma HighText()
    ensures Dotted(0x0a00_03ff) == "10.0." + "3.255"
  {
    assert Decimal(2) == "2" && Decimal(25) == "25" && Decimal(255) == "255" && Decimal(3) == "3";
    DottedTail(0x0a00_03ff, "3", "255");
  }

  lemma NeighbourText()
    ensures Dotted(0x0a00_1405) == "10.0." + "20.5"
  {
    assert Decimal(2) == "2" && Decimal(20) == "20" && Decimal(5) == "5";
    DottedTail(0x0a00_1405, "20", "5");
  }

  lemma DottedTail(x: nat, c: string, d: string)
    requires Octet(x, 0) == 10 && Octet(x, 1) == 0 && Decimal(Octet(x, 2)) == c && Decimal(Octet(x, 3)) == d
    ensures Dotted(x) == "10.0." + (c + "." + d)
  {
    assert Decimal(1) == "1" && Decimal(10) == "10" && Decimal(0) == "0";
    assert "10" + ['.'] + ("0" + ['.'] + (c + ['.'] + d)) == "10.0." + (c + "." + d);
  }

  lemma TwentySecondBounds()
    ensures NetworkAddress(TWENTY_SECOND) == 0x0a00_0000 && BroadcastAddress(TWENTY_SECOND) == 0x0a00_03ff
  {
    assert Pow2(8) == 0x100 && Pow2(10) == 1024 by {
      Pow2Of32();
    }
  }

  /** 10.0.20.5 is no address of 10.0.0.0/22, and its text is between those of the bounds. */
  lemma NeighbourIsSelected(clock: string -> int)
    ensures IpOf(Keyword("10.0." + "20.5")) == Some(0x0a00_1405)
    ensures !ValueIn(Keyword("10.0." + "20.5"), TWENTY_SECOND)
    ensures ClauseHolds(TWENTY_SECOND, Keyword("10.0." + "20.5"), clock)
  {
    LowText();
    HighText();
    NeighbourText();
    TwentySecondBounds();
    DottedReadsBack(0x0a00_1405);
    BlockIsLeadingBits(0x0a00_1405, TWENTY_SECOND);
    LessBehindPrefix("10.0.", "0.0", "20.5");
    LessBehindPrefix("10.0.", "20.5", "3.255");
  }

  /** ip_filter selects exactly the documents with a field in the subnet, or with the address. */
  lemma IpFilterMeaning(value: IpValue, fields: seq<string>, doc: Document, clock: string -> int)
    requires ValidIp(value) && WellTyped(doc, fields) && SuitsIp(doc, fields, value)
    ensures Satisfies(doc, IpFilter(value, fields), clock) <==> Asks(doc, fields, value)
  {
    match value {
      case CidrIp(network) => CidrFilterMeansMembership(network, fields, doc, clock);
      case PlainIp(text) => PlainIpMeaning(fields, text, doc, clock);
    }
  }

  /** For an address in either form, equality of a term is equality of addresses. */
  lemma TermMeansAddress(v: Value, text: string)
    requires IpOf(v).Some?
    ensures TermHolds(v, TextTerm(text)) <==> IsIp(v, text)
  {
    if v.Keyword? {
      DottedIsCanonical(v.text);
      if ParseDotted(text).Some? {
        DottedIsCanonical(text);
      }
    }
  }

  lemma PlainIpMeaning(fields: seq<string>, text: string, doc: Document, clock: string -> int)
    requires WellTyped(doc, fields)
    ensures Satisfies(doc, AnyOf(FieldTerms(fields, TextTerm(text))), clock) <==> Asks(doc, fields, PlainIp(text))
  {
    TermsMeaning(fields, TextTerm(text), doc, clock);
    forall f, v | f in fields && v in Values(doc, f) ensures TermHolds(v, TextTerm(text)) <==> IsIp(v, text) {
      TermMeansAddress(v, text);
    }
  }

  lemma PortMeaning(fields: seq<string>, port: int, doc: Document, clock: string -> int)
    ensures Satisfies(doc, AnyOf(FieldTerms(fields, NumberTerm(port))), clock) <==> PortAsked(doc, fields, port)
  {
    TermsMeaning(fields, NumberTerm(port), doc, clock);
    forall v: Value ensures TermHolds(v, NumberTerm(port)) <==> IsPort(v, port) {
    }
  }

  lemma TermsMeaning(fields: seq<string>, term: TermValue, doc: Document, clock: string -> int)
    ensures Satisfies(doc, AnyOf(FieldTerms(fields, term)), clock)
       <==> exists f, v :: f in fields && v in Values(doc, f) && TermHolds(v, term)
  {
    var clauses := FieldTerms(fields, term);
    SomeSatisfied(doc, clauses, clock);
    if exists f, v :: f in fields && v in Values(doc, f) && TermHolds(v, term) {
      var f, v :| f in fields && v in Values(doc, f) && TermHolds(v, term);
      var i :| 0 <= i < |fields| && fields[i] == f;
      assert clauses[i] in clauses && Satisfies(doc, clauses[i], clock);
    }
    if exists c :: c in clauses && Satisfies(doc, c, clock) {
      var c :| c in clauses && Satisfies(doc, c, clock);
      var i :| 0 <= i < |clauses| && clauses[i] == c;
      assert fields[i] in fields;
    }
  }

  // ---------------------------------------------------------------- the log query

  datatype Mapping = Mapping(timestampField: string, sourceIps: seq<string>, destinationIps: seq<string>,
                             destinationPorts: seq<string>)

  function TimeRange(field: string, window: string, start: Option<string>, end: Option<string>): Clause {
    match start
    case Some(from) => Range(field, from, match end case Some(to) => to case None => "now")
    case None => Range(field, "now-" + window, "now")
  }

  /** What the directional parameters ask of a document. */
  ghost predicate DirectionsAsk(doc: Document, m: Mapping, src: Option<IpValue>, dst: Option<IpValue>,
                                dstPort: Option<int>)
    requires (src.Some? ==> ValidIp(src.value)) && (dst.Some? ==> ValidIp(dst.value))
  {
    && (src.Some? ==> Asks(doc, m.sourceIps, src.value))
    && (dst.Some? ==> Asks(doc, m.destinationIps, dst.value))
    && (dstPort.Some? ==> PortAsked(doc, m.destinationPorts, dstPort.value))
  }

  /** Addresses in the IP fields, networks that go with them, and instants in the timestamp field. */
  ghost predicate Fitting(doc: Document, m: Mapping, src: Option<IpValue>, dst: Option<IpValue>)
    requires (src.Some? ==> ValidIp(src.value)) && (dst.Some? ==> ValidIp(dst.value))
  {
    && WellTyped(doc, m.sourceIps + m.destinationIps)
    && (forall v :: v in Values(doc, m.timestampField) ==> v.Instant?)
    && (src.Some? ==> SuitsIp(doc, m.sourceIps, src.value))
    && (dst.Some? ==> SuitsIp(doc, m.destinationIps, dst.value))
  }

  ghost predicate PortAsked(doc: Document, fields: seq<string>, port: int) {
    exists f, v :: f in fields && v in Values(doc, f) && IsPort(v, port)
  }

  /** The port as a number, or as its decimal text. */
  predicate IsPort(value: Value, port: int) {
    value == Number(port) || (value.Keyword? && value.text == IntegerText(port))
  }

  /** The field holds an instant from `lo` to `hi`. */
  ghost predicate InPeriod(doc: Document, field: string, lo: int, hi: int) {
    exists v :: v in Values(doc, field) && v.Instant? && lo <= v.at <= hi
  }

  lemma TimeRangeMeaning(field: string, window: string, start: Option<string>, end: Option<string>, doc: Document,
                         clock: string -> int)
    requires forall v :: v in Values(doc, field) ==> v.Instant?
    ensures Satisfies(doc, TimeRange(field, window, start, end), clock)
       <==> InPeriod(doc, field, clock(if start.Some? then start.value else "now-" + window),
                     clock(if start.Some? && end.Some? then end.value else "now"))
  {
  }

  /** build_ip_logs_query, its query part. It asks for an instant from the start to the end, where a
      missing end is now, and without a start for one from a window ago until now, whatever the end.
      With any directional parameter the plain address is ignored; without one, it is looked for in
      every source and destination field. */
  method BuildIpLogsQuery(m: Mapping, ip: string, window: string, start: Option<string>, end: Option<string>,
                          src: Option<IpValue>, dst: Option<IpValue>, dstPort: Option<int>)
    returns (query: Clause)
    requires (src.Some? ==> ValidIp(src.value)) && (dst.Some? ==> ValidIp(dst.value))
    ensures forall doc: Document, clock: string -> int :: Fitting(doc, m, src, dst) ==>
      (Satisfies(doc, query, clock) <==>
         && InPeriod(doc, m.timestampField, clock(if start.Some? then start.value else "now-" + window),
                     clock(if start.Some? && end.Some? then end.value else "now"))
         && (if src.None? && dst.None? && dstPort.None? then Asks(doc, m.sourceIps + m.destinationIps, PlainIp(ip))
             else DirectionsAsk(doc, m, src, dst, dstPort)))
  {
    var timeRange := TimeRange(m.timestampField, window, start, end);
    var directionalFilters: seq<Clause> := [];
    var ipShould := FieldTerms(m.sourceIps + m.destinationIps, TextTerm(ip));
    if src.Some? {
      directionalFilters := directionalFilters + [IpFilter(src.value, m.sourceIps)];
    }
    if dst.Some? {
      directionalFilters := directionalFilters + [IpFilter(dst.value, m.destinationIps)];
    }
    if dstPort.Some? {
      directionalFilters := directionalFilters + [AnyOf(FieldTerms(m.destinationPorts, NumberTerm(dstPort.value)))];
    }
    query := if directionalFilters == [] then Bool([timeRange], ipShould, 1)
        else Bool([timeRange] + directionalFilters, [], 0);
    forall doc: Document, clock: string -> int | Fitting(doc, m, src, dst)
      ensures Satisfies(doc, query, clock) <==>
         && InPeriod(doc, m.timestampField, clock(if start.Some? then start.value else "now-" + window),
                     clock(if start.Some? && end.Some? then end.value else "now"))
         && (if src.None? && dst.None? && dstPort.None? then Asks(doc, m.sourceIps + m.destinationIps, PlainIp(ip))
             else DirectionsAsk(doc, m, src, dst, dstPort))
    {
      TimeRangeMeaning(m.timestampField, window, start, end, doc, clock);
      QueryMeaning(m, ip, timeRange, src, dst, dstPort, directionalFilters, query, doc, clock);
    }
  }

  ghost predicate AllSatisfied(doc: Document, clauses: seq<Clause>, clock: string -> int) {
    forall c :: c in clauses ==> Satisfies(doc, c, clock)
  }

  lemma AllSatisfiedConcat(doc: Document, a: seq<Clause>, b: seq<Clause>, clock: string -> int)
    ensures AllSatisfied(doc, a + b, clock) <==> AllSatisfied(doc, a, clock) && AllSatisfied(doc, b, clock)
  {
    if AllSatisfied(doc, a + b, clock) {
      forall c | c in a ensures Satisfies(doc, c, clock) {
        assert c in a + b;
      }
      forall c | c in b ensures Satisfies(doc, c, clock) {
        assert c in a + b;
      }
    }
  }

  lemma DirectionalMeaning(m: Mapping, src: Option<IpValue>, dst: Option<IpValue>, dstPort: Option<int>,
                           a: seq<Clause>, b: seq<Clause>, c: seq<Clause>, doc: Document, clock: string -> int)
    requires (src.Some? ==> ValidIp(src.value)) && (dst.Some? ==> ValidIp(dst.value))
    requires Fitting(doc, m, src, dst)
    requires a == if src.Some? then [IpFilter(src.value, m.sourceIps)] else []
    requires b == if dst.Some? then [IpFilter(dst.value, m.destinationIps)] else []
    requires c == if dstPort.Some? then [AnyOf(FieldTerms(m.destinationPorts, NumberTerm(dstPort.value)))] else []
    ensures AllSatisfied(doc, a + b + c, clock) <==> DirectionsAsk(doc, m, src, dst, dstPort)
  {
    AllSatisfiedConcat(doc, a + b, c, clock);
    AllSatisfiedConcat(doc, a, b, clock);
    if src.Some? {
      IpFilterMeaning(src.value, m.sourceIps, doc, clock);
      assert AllSatisfied(doc, a, clock) <==> Satisfies(doc, a[0], clock);
    }
    if dst.Some? {
      IpFilterMeaning(dst.value, m.destinationIps, doc, clock);
      assert AllSatisfied(doc, b, clock) <==> Satisfies(doc, b[0], clock);
    }
    if dstPort.Some? {
      PortMeaning(m.destinationPorts, dstPort.value, doc, clock);
      assert AllSatisfied(doc, c, clock) <==> Satisfies(doc, c[0], clock);
    }
  }

  lemma OneOfMeaning(first: Clause, should: seq<Clause>, doc: Document, clock: string -> int)
    ensures Satisfies(doc, Bool([first], should, 1), clock)
       <==> Satisfies(doc, first, clock) && Satisfies(doc, AnyOf(should), clock)
  {
    assert AllSatisfied(doc, [first], clock) <==> Satisfies(doc, first, clock);
  }

  lemma AllOfMeaning(first: Clause, filters: seq<Clause>, doc: Document, clock: string -> int)
    ensures Satisfies(doc, Bool([first] + filters, [], 0), clock)
       <==> Satisfies(doc, first, clock) && AllSatisfied(doc, filters, clock)
  {
    AllSatisfiedConcat(doc, [first], filters, clock);
    assert AllSatisfied(doc, [first], clock) <==> Satisfies(doc, first, clock);
    assert Satisfies(doc, Bool([first] + filters, [], 0), clock) <==> AllSatisfied(doc, [first] + filters, clock);
  }

  lemma QueryMeaning(m: Mapping, ip: string, timeRange: Clause, src: Option<IpValue>, dst: Option<IpValue>,
                     dstPort: Option<int>,
                     directional: seq<Clause>, query: Clause, doc: Document, clock: string -> int)
    requires (src.Some? ==> ValidIp(src.value)) && (dst.Some? ==> ValidIp(dst.value))
    requires Fitting(doc, m, src, dst)
    requires directional
          == (if src.Some? then [IpFilter(src.value, m.sourceIps)] else [])
             + (if dst.Some? then [IpFilter(dst.value, m.destinationIps)] else [])
             + (if dstPort.Some? then [AnyOf(FieldTerms(m.destinationPorts, NumberTerm(dstPort.value)))] else [])
    requires query
          == if directional == [] then Bool([timeRange], FieldTerms(m.sourceIps + m.destinationIps, TextTerm(ip)), 1)
             else Bool([timeRange] + directional, [], 0)
    ensures Satisfies(doc, query, clock) <==>
         && Satisfies(doc, timeRange, clock)
         && (if src.None? && dst.None? && dstPort.None? then Asks(doc, m.sourceIps + m.destinationIps, PlainIp(ip))
             else DirectionsAsk(doc, m, src, dst, dstPort))
  {
    if directional == [] {
      PlainIpMeaning(m.sourceIps + m.destinationIps, ip, doc, clock);
      OneOfMeaning(timeRange, FieldTerms(m.sourceIps + m.destinationIps, TextTerm(ip)), doc, clock);
    } else {
      DirectionalMeaning(m, src, dst, dstPort,
                         if src.Some? then [IpFilter(src.value, m.sourceIps)] else [],
                         if dst.Some? then [IpFilter(dst.value, m.destinationIps)] else [],
                         if dstPort.Some? then [AnyOf(FieldTerms(m.destinationPorts, NumberTerm(dstPort.value)))]
                             else [],
                         doc, clock);
      AllOfMeaning(timeRange, directional, doc, clock);
    }
  }
}

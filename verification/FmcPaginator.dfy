/** The offset paginator of the FMC client (get_all of backend/app/integrations/fmc/client.py). */
module FmcPaginator {
  import opened Wrappers

  /** A page entry: an object with the text of its id, or anything else. */
  datatype Item = Record(id: string, body: int) | Other

  /** A successful answer of `get`; `items` is None when the field is not an array, and `count` is
      the integer of its paging section, if there is one. */
  datatype Page = Page(items: Option<seq<Item>>, count: Option<int>)

  datatype Error = RequestFailed(message: string) | NotAnArray | RepeatedPage | SafetyLimit

  /** What the server answers to the n-th request of the call, made at an offset: it may fail, change
      its data between requests and contradict itself. */
  type Server = (nat, nat) -> Result<Page, Error>

  const MAX_PAGES := 10_000

  function Records(items: seq<Item>): seq<Item> {
    if items == [] then []
    else Records(items[..|items| - 1]) + if items[|items| - 1].Record? then [items[|items| - 1]] else []
  }

  function Signature(items: seq<Item>): seq<Option<string>> {
    seq(|items|, i requires 0 <= i < |items| => match items[i] case Record(id, _) => Some(id) case Other => None)
  }

  // ---------------------------------------------------------------- the requests a call makes

  function ItemsOf(answer: Result<Page, Error>): seq<Item> {
    if answer.Ok? && answer.value.items.Some? then answer.value.items.value else []
  }

  /** The offset of the n-th request: the entries of all earlier pages, objects or not. */
  function Offset(server: Server, n: nat): nat {
    if n == 0 then 0 else Offset(server, n - 1) + |ItemsOf(server(n - 1, Offset(server, n - 1)))|
  }

  function PageItems(server: Server, n: nat): seq<Item> {
    ItemsOf(server(n, Offset(server, n)))
  }

  /** The objects of the first n pages. */
  ghost function Collected(server: Server, n: nat): seq<Item> {
    if n == 0 then [] else Collected(server, n - 1) + Records(PageItems(server, n - 1))
  }

  /** One of the first n pages has the signature. */
  ghost predicate IsSignature(server: Server, n: nat, signature: seq<Option<string>>) {
    exists k :: 0 <= k < n && signature == Signature(PageItems(server, k))
  }

  ghost predicate SeenBefore(server: Server, n: nat) {
    IsSignature(server, n, Signature(PageItems(server, n)))
  }

  datatype Verdict = Continue | Complete | Fail(error: Error)

  /** What the n-th page means for the call. */
  ghost function Judge(server: Server, limit: int, n: nat): Verdict {
    match server(n, Offset(server, n))
    case Err(e) => Fail(e)
    case Ok(page) =>
      if page.items.None? then Fail(NotAnArray)
      else
        var items := page.items.value;
        if items != [] && SeenBefore(server, n) then Fail(RepeatedPage)
        else if items == [] then Complete
        else if page.count.Some? && page.count.value > 0 && |Collected(server, n + 1)| >= page.count.value then Complete
        else if |items| < limit then Complete
        else Continue
  }

  /** How a call that has already gone on past n pages ends. */
  ghost function Outcome(server: Server, limit: int, n: nat): Result<seq<Item>, Error>
    requires n <= MAX_PAGES
    decreases MAX_PAGES - n
  {
    if n == MAX_PAGES then Err(SafetyLimit)
    else match Judge(server, limit, n)
      case Fail(e) => Err(e)
      case Complete => Ok(Collected(server, n + 1))
      case Continue => Outcome(server, limit, n + 1)
  }

  ghost predicate AreSignatures(server: Server, n: nat, seen: set<seq<Option<string>>>) {
    forall s :: s in seen <==> IsSignature(server, n, s)
  }

  lemma OneMoreSignature(server: Server, n: nat, seen: set<seq<Option<string>>>)
    requires AreSignatures(server, n, seen)
    ensures AreSignatures(server, n + 1, seen + {Signature(PageItems(server, n))})
  {
    var last := Signature(PageItems(server, n));
    forall s ensures s in seen + {last} <==> IsSignature(server, n + 1, s) {
      if IsSignature(server, n, s) {
        var k :| 0 <= k < n && s == Signature(PageItems(server, k));
        assert 0 <= k < n + 1;
      }
    }
  }

  /** get_all. */
  method GetAll(server: Server, limit: int) returns (r: Result<seq<Item>, Error>)
    ensures r == Outcome(server, limit, 0)
  {
    var items: seq<Item> := [];
    var offset: nat := 0;
    var seenPages: set<seq<Option<string>>> := {};
    var pageNumber: nat := 0;
    while pageNumber < MAX_PAGES
      invariant pageNumber <= MAX_PAGES
      invariant offset == Offset(server, pageNumber)
      invariant items == Collected(server, pageNumber)
      invariant AreSignatures(server, pageNumber, seenPages)
      invariant Outcome(server, limit, 0) == Outcome(server, limit, pageNumber)
    {
      var answer := server(pageNumber, offset);
      if answer.Err? {
        return Err(answer.error);
      }
      var page := answer.value;
      if page.items.None? {
        return Err(NotAnArray);
      }
      var pageItems := page.items.value;
      var signature := Signature(pageItems);
      assert pageItems == PageItems(server, pageNumber);
      assert signature in seenPages <==> SeenBefore(server, pageNumber);
      OneMoreSignature(server, pageNumber, seenPages);
      if signature != [] && signature in seenPages {
        return Err(RepeatedPage);
      }
      seenPages := seenPages + {signature};
      items := items + Records(pageItems);
      if pageItems == [] {
        return Ok(items);
      }
      if page.count.Some? && page.count.value > 0 && |items| >= page.count.value {
        return Ok(items);
      }
      if |pageItems| < limit {
        return Ok(items);
      }
      offset := offset + |pageItems|;
      pageNumber := pageNumber + 1;
    }
    return Err(SafetyLimit);
  }

  // ---------------------------------------------------------------- any server

  ghost predicate AllContinue(server: Server, limit: int, n: nat) {
    forall k :: 0 <= k < n ==> Judge(server, limit, k) == Continue
  }

  /** After n further pages the outcome is what the judgement of the next page says. */
  lemma {:induction false} OutcomeSkips(server: Server, limit: int, n: nat)
    requires n <= MAX_PAGES && AllContinue(server, limit, n)
    ensures Outcome(server, limit, 0) == Outcome(server, limit, n)
  {
    if n > 0 {
      assert AllContinue(server, limit, n - 1);
      OutcomeSkips(server, limit, n - 1);
      assert Judge(server, limit, n - 1) == Continue;
    }
  }

  /** Where a call ends: after `last` pages that go on, with a final page or at the limit. */
  lemma {:induction false} CallEnds(server: Server, limit: int, n: nat) returns (last: nat)
    requires n <= MAX_PAGES && AllContinue(server, limit, n)
    ensures n <= last <= MAX_PAGES && AllContinue(server, limit, last)
    ensures last == MAX_PAGES || Judge(server, limit, last) != Continue
    decreases MAX_PAGES - n
  {
    if n == MAX_PAGES || Judge(server, limit, n) != Continue {
      last := n;
    } else {
      last := CallEnds(server, limit, n + 1);
    }
  }

  /** Two pages with the same ids in the same places. */
  predicate SameIds(a: seq<Item>, b: seq<Item>) {
    |a| == |b| && forall i :: 0 <= i < |a| ==> (a[i] == Other && b[i] == Other)
                                               || (a[i].Record? && b[i].Record? && a[i].id == b[i].id)
  }

  /** The page repeats the ids of an earlier one. */
  ghost predicate Repeats(server: Server, n: nat) {
    exists k :: 0 <= k < n && SameIds(PageItems(server, k), PageItems(server, n))
  }

  lemma SignaturesTellIds(a: seq<Item>, b: seq<Item>)
    ensures Signature(a) == Signature(b) <==> SameIds(a, b)
  {
    if Signature(a) == Signature(b) {
      assert |a| == |Signature(a)| == |b|;
      forall i | 0 <= i < |a|
        ensures (a[i] == Other && b[i] == Other) || (a[i].Record? && b[i].Record? && a[i].id == b[i].id)
      {
        assert Signature(a)[i] == Signature(b)[i];
      }
    }
  }

  lemma SeenMeansRepeats(server: Server, n: nat)
    ensures SeenBefore(server, n) <==> Repeats(server, n)
  {
    forall k | 0 <= k < n
      ensures Signature(PageItems(server, k)) == Signature(PageItems(server, n))
          <==> SameIds(PageItems(server, k), PageItems(server, n))
    {
      SignaturesTellIds(PageItems(server, k), PageItems(server, n));
    }
  }

  /** The n-th request was answered with an array. */
  ghost predicate Arrived(server: Server, n: nat) {
    var answer := server(n, Offset(server, n));
    answer.Ok? && answer.value.items.Some?
  }

  /** The total that the n-th answer states is reached by the objects up to it. */
  ghost predicate TotalReached(server: Server, n: nat) {
    var answer := server(n, Offset(server, n));
    answer.Ok? && answer.value.count.Some? && 0 < answer.value.count.value <= |Collected(server, n + 1)|
  }

  /** The n-th page is one after which the call goes on: a full one with new ids and no total reached. */
  ghost predicate GoesOn(server: Server, limit: int, n: nat) {
    && Arrived(server, n) && PageItems(server, n) != [] && |PageItems(server, n)| >= limit
    && !Repeats(server, n) && !TotalReached(server, n)
  }

  /** The page is empty, or new and either not full or such that the total is reached. */
  ghost predicate EndsList(server: Server, limit: int, n: nat) {
    && Arrived(server, n)
    && (|| PageItems(server, n) == []
        || (!Repeats(server, n) && (|PageItems(server, n)| < limit || TotalReached(server, n))))
  }

  /** The request fails, or brings no list, or brings an earlier page again. */
  ghost predicate EndsCall(server: Server, n: nat, error: Error) {
    var answer := server(n, Offset(server, n));
    || answer == Err(error)
    || (answer.Ok? && answer.value.items.None? && error == NotAnArray)
    || (Arrived(server, n) && PageItems(server, n) != [] && Repeats(server, n) && error == RepeatedPage)
  }

  /** The pages a list was put together from: at most 10,000, the last one empty, short, or reaching
      the total, and all before it such that the call goes on. */
  ghost predicate BuiltFrom(server: Server, limit: int, items: seq<Item>, pages: nat) {
    && 1 <= pages <= 10_000
    && items == Collected(server, pages)
    && (forall k :: 0 <= k < pages - 1 ==> GoesOn(server, limit, k))
    && EndsList(server, limit, pages - 1)
  }

  /** Why a call fails after `pages` pages: the limit, a failed request, no array, or a repeated page. */
  ghost predicate FailsAfter(server: Server, limit: int, error: Error, pages: nat) {
    && pages <= 10_000 && (forall k :: 0 <= k < pages ==> GoesOn(server, limit, k))
    && if pages == 10_000 then error == SafetyLimit else EndsCall(server, pages, error)
  }

  lemma JudgementsMean(server: Server, limit: int, n: nat)
    ensures match Judge(server, limit, n)
            case Continue => GoesOn(server, limit, n)
            case Complete => EndsList(server, limit, n)
            case Fail(error) => EndsCall(server, n, error)
  {
    SeenMeansRepeats(server, n);
  }

  /** Whatever the server does: a returned list is made of the pages up to the first that ends it, no
      nonempty one of them with the ids of an earlier one, and a failure has one of four causes. */
  lemma CallsEndForAReason(server: Server, limit: int)
    ensures
      match Outcome(server, limit, 0)
      case Ok(items) => exists pages :: BuiltFrom(server, limit, items, pages)
      case Err(error) => exists pages :: FailsAfter(server, limit, error, pages)
  {
    var last := CallEnds(server, limit, 0);
    OutcomeSkips(server, limit, last);
    forall k | 0 <= k < last ensures GoesOn(server, limit, k) {
      assert Judge(server, limit, k) == Continue;
      JudgementsMean(server, limit, k);
    }
    if last < MAX_PAGES {
      JudgementsMean(server, limit, last);
    }
    match Outcome(server, limit, 0) {
      case Ok(items) =>
        assert BuiltFrom(server, limit, items, last + 1);
      case Err(error) =>
        assert FailsAfter(server, limit, error, last);
    }
  }

  lemma OneRecord(item: Item)
    ensures Records([item]) == if item == Other then [] else [item]
  {
    assert [item][..0] == [];
  }

  lemma {:induction false} RecordsJoin(a: seq<Item>, b: seq<Item>)
    ensures Records(a + b) == Records(a) + Records(b)
  {
    if b == [] {
      assert a + b == a;
    } else {
      RecordsJoin(a, b[..|b| - 1]);
      assert (a + b)[..|a + b| - 1] == a + b[..|b| - 1];
      var kept := if b[|b| - 1].Record? then [b[|b| - 1]] else [];
      assert Records(a) + Records(b[..|b| - 1]) + kept == Records(a) + (Records(b[..|b| - 1]) + kept);
    }
  }

  /** What is kept of pages: their objects, in order. */
  lemma RecordsAreTheObjects(a: seq<Item>, item: Item)
    ensures Records(a + [item]) == Records(a) + if item == Other then [] else [item]
    ensures Records([]) == []
  {
    RecordsJoin(a, [item]);
    OneRecord(item);
  }

  // ---------------------------------------------------------------- an honest server

  ghost predicate DistinctRecords(data: seq<Item>) {
    && (forall i :: 0 <= i < |data| ==> data[i].Record?)
    && (forall i, j :: 0 <= i < j < |data| ==> data[i].id != data[j].id)
  }

  /** The stretch of the data a page holds. */
  function Stretch(data: seq<Item>, offset: nat, limit: nat): seq<Item> {
    if offset >= |data| then [] else data[offset..Min(offset + limit, |data|)]
  }

  /** A server that pages through fixed data, and states its size in every answer or in none. */
  ghost predicate Honest(server: Server, data: seq<Item>, limit: nat, counted: bool) {
    forall n: nat, offset: nat ::
      server(n, offset) == Ok(Page(Some(Stretch(data, offset, limit)), if counted then Some(|data|) else None))
  }

  lemma {:induction false} RecordsOfRecords(items: seq<Item>)
    requires forall i :: 0 <= i < |items| ==> items[i].Record?
    ensures Records(items) == items
  {
    if items != [] {
      RecordsOfRecords(items[..|items| - 1]);
    }
  }

  /** How far n pages reach. */
  function Reach(data: seq<Item>, limit: nat, n: nat): nat {
    Min(n * limit, |data|)
  }

  lemma ReachStep(data: seq<Item>, limit: nat, n: nat)
    requires limit > 0
    ensures Reach(data, limit, n) <= Reach(data, limit, n + 1) == Min(Reach(data, limit, n) + limit, |data|)
    ensures Stretch(data, Reach(data, limit, n), limit) == data[Reach(data, limit, n)..Reach(data, limit, n + 1)]
  {
    assert (n + 1) * limit == n * limit + limit;
  }

  lemma HonestPage(server: Server, data: seq<Item>, limit: nat, counted: bool, n: nat)
    requires Honest(server, data, limit, counted) && limit > 0
    requires Offset(server, n) == Reach(data, limit, n)
    ensures PageItems(server, n) == data[Reach(data, limit, n)..Reach(data, limit, n + 1)]
  {
    ReachStep(data, limit, n);
  }

  lemma {:induction false} HonestOffset(server: Server, data: seq<Item>, limit: nat, counted: bool, n: nat)
    requires Honest(server, data, limit, counted) && limit > 0
    ensures Offset(server, n) == Reach(data, limit, n)
    ensures PageItems(server, n) == data[Reach(data, limit, n)..Reach(data, limit, n + 1)]
  {
    if n > 0 {
      var k: nat := n - 1;
      HonestOffset(server, data, limit, counted, k);
      ReachStep(data, limit, k);
      assert Offset(server, k + 1) == Offset(server, k) + |PageItems(server, k)|;
    }
    HonestPage(server, data, limit, counted, n);
  }

  lemma JoinedStretches(data: seq<Item>, a: nat, b: nat)
    requires a <= b <= |data| && DistinctRecords(data)
    ensures data[..a] + Records(data[a..b]) == data[..b]
  {
    RecordsOfRecords(data[a..b]);
  }

  lemma CollectedStep(server: Server, data: seq<Item>, limit: nat, counted: bool, k: nat)
    requires Honest(server, data, limit, counted) && DistinctRecords(data) && limit > 0
    requires Collected(server, k) == data[..Reach(data, limit, k)]
    ensures Collected(server, k + 1) == data[..Reach(data, limit, k + 1)]
  {
    assert Collected(server, k + 1) == Collected(server, k) + Records(PageItems(server, k));
    HonestOffset(server, data, limit, counted, k);
    ReachStep(data, limit, k);
    JoinedStretches(data, Reach(data, limit, k), Reach(data, limit, k + 1));
  }

  lemma {:induction false} HonestCollected(server: Server, data: seq<Item>, limit: nat, counted: bool, n: nat)
    requires Honest(server, data, limit, counted) && DistinctRecords(data) && limit > 0
    ensures Collected(server, n) == data[..Reach(data, limit, n)]
  {
    if n > 0 {
      var k: nat := n - 1;
      HonestCollected(server, data, limit, counted, k);
      CollectedStep(server, data, limit, counted, k);
    }
  }

  lemma StretchesDiffer(data: seq<Item>, a: nat, b: nat, c: nat, d: nat)
    requires DistinctRecords(data) && a <= b <= c < d <= |data|
    ensures Signature(data[a..b]) != Signature(data[c..d])
  {
    var second := Signature(data[c..d]);
    assert second[0] == Some(data[c].id);
    if a < b {
      assert Signature(data[a..b])[0] == Some(data[a].id);
    } else {
      assert |Signature(data[a..b])| == 0;
    }
  }

  /** Pages of distinct data never look alike. */
  lemma HonestPagesDiffer(server: Server, data: seq<Item>, limit: nat, counted: bool, n: nat)
    requires Honest(server, data, limit, counted) && DistinctRecords(data) && limit > 0
    requires Reach(data, limit, n) < Reach(data, limit, n + 1)
    ensures !SeenBefore(server, n)
  {
    forall k | 0 <= k < n ensures Signature(PageItems(server, k)) != Signature(PageItems(server, n)) {
      TwoPagesDiffer(server, data, limit, counted, k, n);
    }
  }

  lemma TwoPagesDiffer(server: Server, data: seq<Item>, limit: nat, counted: bool, k: nat, n: nat)
    requires Honest(server, data, limit, counted) && DistinctRecords(data) && limit > 0
    requires k < n && Reach(data, limit, n) < Reach(data, limit, n + 1)
    ensures Signature(PageItems(server, k)) != Signature(PageItems(server, n))
  {
    HonestOffset(server, data, limit, counted, n);
    HonestOffset(server, data, limit, counted, k);
    ReachIsMonotone(data, limit, k, k + 1);
    ReachIsMonotone(data, limit, k + 1, n);
    StretchesDiffer(data, Reach(data, limit, k), Reach(data, limit, k + 1), Reach(data, limit, n),
                    Reach(data, limit, n + 1));
  }

  lemma ReachIsMonotone(data: seq<Item>, limit: nat, a: nat, b: nat)
    requires a <= b
    ensures Reach(data, limit, a) <= Reach(data, limit, b)
  {
    TimesGrows(a, b, limit);
  }

  lemma HonestAnswer(server: Server, data: seq<Item>, limit: nat, counted: bool, n: nat)
    requires Honest(server, data, limit, counted) && limit > 0
    ensures var a, b := Reach(data, limit, n), Reach(data, limit, n + 1);
            && a <= b <= |data| && b - a <= limit && (a == b ==> b == |data|)
            && server(n, Offset(server, n)) == Ok(Page(Some(data[a..b]), if counted then Some(|data|) else None))
  {
    HonestOffset(server, data, limit, counted, n);
    ReachStep(data, limit, n);
  }

  /** A call goes on exactly while a full page has been read and, with counts, some data is left. */
  lemma HonestJudgement(server: Server, data: seq<Item>, limit: nat, counted: bool, n: nat)
    requires Honest(server, data, limit, counted) && DistinctRecords(data) && limit > 0
    ensures var reach := (n + 1) * limit;
            Judge(server, limit, n) == if reach < |data| || (reach == |data| && !counted) then Continue else Complete
  {
    HonestVerdict(server, data, limit, counted, n);
  }

  lemma HonestVerdict(server: Server, data: seq<Item>, limit: nat, counted: bool, n: nat)
    requires Honest(server, data, limit, counted) && DistinctRecords(data) && limit > 0
    ensures var a, b := Reach(data, limit, n), Reach(data, limit, n + 1);
            Judge(server, limit, n) == if b - a == limit && (b < |data| || !counted) then Continue else Complete
  {
    HonestAnswer(server, data, limit, counted, n);
    HonestCollected(server, data, limit, counted, n + 1);
    if Reach(data, limit, n) < Reach(data, limit, n + 1) {
      HonestPagesDiffer(server, data, limit, counted, n);
    }
  }

  /** The sizes a call can read to the end: with counts up to 10,000 full pages, without counts one
      record less, since then only a page that is not full tells that nothing is left. */
  predicate Fits(size: nat, limit: nat, counted: bool) {
    size < 10_000 * limit || (counted && size == 10_000 * limit)
  }

  lemma TimesGrows(a: nat, b: nat, c: nat)
    requires a <= b
    ensures a * c <= b * c
  {
    assert b * c == a * c + (b - a) * c;
  }

  lemma ReadWithinLimit(size: nat, limit: nat, counted: bool, last: nat)
    requires last < MAX_PAGES
    requires size < (last + 1) * limit || (counted && size == (last + 1) * limit)
    ensures Fits(size, limit, counted)
  {
    TimesGrows(last + 1, MAX_PAGES, limit);
  }

  lemma AllCollected(server: Server, data: seq<Item>, limit: nat, counted: bool, n: nat)
    requires Honest(server, data, limit, counted) && DistinctRecords(data) && limit > 0
    requires n * limit >= |data|
    ensures Collected(server, n) == data
  {
    HonestCollected(server, data, limit, counted, n);
    assert data[..|data|] == data;
  }

  lemma LastPageHoldsTheRest(server: Server, data: seq<Item>, limit: nat, counted: bool, last: nat)
    requires Honest(server, data, limit, counted) && DistinctRecords(data) && limit > 0
    requires last < MAX_PAGES && Judge(server, limit, last) != Continue
    ensures Fits(|data|, limit, counted)
    ensures Judge(server, limit, last) == Complete && Collected(server, last + 1) == data
  {
    HonestJudgement(server, data, limit, counted, last);
    AllCollected(server, data, limit, counted, last + 1);
    ReadWithinLimit(|data|, limit, counted, last);
  }

  /** Against an honest server get_all returns exactly the data in order, or fails at the safety
      limit; it does the first exactly when the data fits. */
  lemma HonestServerIsReadExactly(server: Server, data: seq<Item>, limit: nat, counted: bool)
    requires Honest(server, data, limit, counted) && DistinctRecords(data) && limit > 0
    ensures Outcome(server, limit, 0) == if Fits(|data|, limit, counted) then Ok(data) else Err(SafetyLimit)
  {
    var last := CallEnds(server, limit, 0);
    OutcomeSkips(server, limit, last);
    if last < MAX_PAGES {
      LastPageHoldsTheRest(server, data, limit, counted, last);
    } else {
      assert Judge(server, limit, MAX_PAGES - 1) == Continue;
      HonestJudgement(server, data, limit, counted, MAX_PAGES - 1);
    }
  }
}

/** The key-value supplier's scan loop (`Dynamo.read`): pages are fetched
    while the store returns a continuation token, the loop stops early once
    the items gathered so far outnumber the limit, and the result is cut to
    the limit afterwards. */
module Pagination {
  import opened Values
  import opened Effects

  /** One scan response: its items and, when more remain, the continuation
      token (`LastEvaluatedKey`). */
  datatype Page = Page(items: seq<Record>, next: Option<Record>)

  /** The `limit` keyword argument: not passed, passed as `None`, or an int. */
  datatype Limit = NoLimit | NullLimit | Limit(n: int)

  /** `sys.maxsize` on a 64-bit build. */
  const MaxSize: int := 0x7fff_ffff_ffff_ffff

  /** The pages a table returns to successive scans: every page but the last
      carries a continuation token. */
  predicate WellFormed(pages: seq<Page>) {
    && |pages| >= 1
    && forall i :: 0 <= i < |pages| ==> (pages[i].next.Some? <==> i < |pages| - 1)
  }

  /** The items of the pages, in page order. */
  function Concat(pages: seq<Page>): seq<Record>
    decreases |pages|
  {
    if pages == [] then [] else Concat(pages[..|pages| - 1]) + pages[|pages| - 1].items
  }

  /** Whether the items gathered outnumber the limit (`sys.maxsize` when no
      limit is passed) under Python 2 rules,
      where `None` compares below every integer. */
  predicate Exceeds(count: nat, limit: Limit) {
    match limit
    case NoLimit => count > MaxSize
    case NullLimit => true
    case Limit(n) => count > n
  }

  /** Whether a limit is given and non-zero, so that the result is cut. */
  predicate Truncates(limit: Limit) {
    limit.Limit? && limit.n != 0
  }

  /** The first `n` items, where a negative `n` counts from the end. */
  function Take(items: seq<Record>, n: int): seq<Record> {
    if n >= 0 then (if n <= |items| then items[..n] else items)
    else if |items| + n >= 0 then items[..|items| + n]
    else []
  }

  /** The number of pages fetched, given that `k` have been and the loop is
      about to test for another. */
  function FetchedFrom(pages: seq<Page>, k: nat, limit: Limit): (r: nat)
    requires WellFormed(pages) && 1 <= k <= |pages|
    ensures k <= r <= |pages|
    decreases |pages| - k
  {
    if k == |pages| || Exceeds(|Concat(pages[..k])|, limit) then k
    else FetchedFrom(pages, k + 1, limit)
  }

  /** The number of pages a scan fetches. */
  function Fetched(pages: seq<Page>, limit: Limit): nat
    requires WellFormed(pages)
  {
    FetchedFrom(pages, 1, limit)
  }

  /** The items a scan returns. */
  function ScanResult(pages: seq<Page>, limit: Limit): seq<Record>
    requires WellFormed(pages)
  {
    var items := Concat(pages[..Fetched(pages, limit)]);
    if Truncates(limit) then Take(items, limit.n) else items
  }

  /** The scans that fetch the first `m + 1` pages: the first scan, then one
      per further page, starting at the previous page's token. */
  function Scans(pages: seq<Page>, m: nat, projection: Option<string>): seq<Call>
    requires m < |pages|
  {
    [Scan(None, projection)] + seq(m, j requires 0 <= j < m => Scan(pages[j].next, projection))
  }

  /** The calls a scan makes: the scans of the pages it fetches, and a
      critical log line when the limit stopped the loop with a token left. */
  function ScanCalls(pages: seq<Page>, limit: Limit, projection: Option<string>): seq<Call>
    requires WellFormed(pages)
  {
    var k := Fetched(pages, limit);
    Scans(pages, k - 1, projection) + (if k < |pages| then [Logged(Critical)] else [])
  }

  lemma ScansSnoc(pages: seq<Page>, m: nat, projection: Option<string>)
    requires m + 1 < |pages|
    ensures Scans(pages, m + 1, projection) == Scans(pages, m, projection) + [Scan(pages[m].next, projection)]
  {
    assert seq(m + 1, j requires 0 <= j < m + 1 => Scan(pages[j].next, projection))
        == seq(m, j requires 0 <= j < m => Scan(pages[j].next, projection)) + [Scan(pages[m].next, projection)];
  }

  lemma ConcatSnoc(pages: seq<Page>, m: nat)
    requires m < |pages|
    ensures Concat(pages[..m + 1]) == Concat(pages[..m]) + pages[m].items
  {
    assert pages[..m + 1][..m] == pages[..m];
  }

  lemma {:induction false} ConcatPrefix(pages: seq<Page>, k: nat)
    requires k <= |pages|
    ensures Concat(pages[..k]) <= Concat(pages)
    decreases |pages|
  {
    if k < |pages| {
      var init := pages[..|pages| - 1];
      ConcatPrefix(init, k);
      assert init[..k] == pages[..k];
    } else {
      assert pages[..k] == pages;
    }
  }

  lemma TakeIsPrefix(items: seq<Record>, n: int)
    ensures Take(items, n) <= items
  {
  }

  /** What a scan returns is a prefix of all the items of the table's pages. */
  lemma ScanIsPrefix(pages: seq<Page>, limit: Limit)
    requires WellFormed(pages)
    ensures ScanResult(pages, limit) <= Concat(pages)
  {
    var k := Fetched(pages, limit);
    ConcatPrefix(pages, k);
    TakeIsPrefix(Concat(pages[..k]), if limit.Limit? then limit.n else 0);
  }

  /** A page beyond the first is requested only while the items gathered are
      within the limit, and the loop stops early only once they exceed it. */
  lemma {:induction false} ScanStopsOnlyWhenExceeded(pages: seq<Page>, limit: Limit)
    requires WellFormed(pages)
    ensures forall j :: 1 <= j < Fetched(pages, limit) ==> !Exceeds(|Concat(pages[..j])|, limit)
    ensures Fetched(pages, limit) < |pages| ==>
              Exceeds(|Concat(pages[..Fetched(pages, limit)])|, limit)
  {
    FetchedFromSpec(pages, 1, limit);
  }

  lemma {:induction false} FetchedFromSpec(pages: seq<Page>, k: nat, limit: Limit)
    requires WellFormed(pages) && 1 <= k <= |pages|
    ensures forall j :: k <= j < FetchedFrom(pages, k, limit) ==> !Exceeds(|Concat(pages[..j])|, limit)
    ensures FetchedFrom(pages, k, limit) < |pages| ==>
              Exceeds(|Concat(pages[..FetchedFrom(pages, k, limit)])|, limit)
    decreases |pages| - k
  {
    if !(k == |pages| || Exceeds(|Concat(pages[..k])|, limit)) {
      FetchedFromSpec(pages, k + 1, limit);
    }
  }

  /** Without a limit every page is read (a Python list never holds more
      than `sys.maxsize` items) and the scan returns all items in order. */
  lemma ScanReadsAllWithoutLimit(pages: seq<Page>)
    requires WellFormed(pages)
    requires |Concat(pages)| <= MaxSize
    ensures Fetched(pages, NoLimit) == |pages|
    ensures ScanResult(pages, NoLimit) == Concat(pages)
  {
    var k := Fetched(pages, NoLimit);
    ScanStopsOnlyWhenExceeded(pages, NoLimit);
    if k < |pages| {
      ConcatPrefix(pages, k);
      assert false;
    }
    assert pages[..k] == pages;
  }

  /** With a positive limit the early stop loses nothing: the scan returns
      exactly the first min(total, limit) items of the table, as reading
      every page and then cutting would. */
  lemma ScanWithPositiveLimit(pages: seq<Page>, n: int)
    requires WellFormed(pages) && n > 0
    ensures ScanResult(pages, Limit(n)) == Take(Concat(pages), n)
    ensures |ScanResult(pages, Limit(n))| == if |Concat(pages)| <= n then |Concat(pages)| else n
  {
    var k := Fetched(pages, Limit(n));
    var got := Concat(pages[..k]);
    ScanStopsOnlyWhenExceeded(pages, Limit(n));
    ConcatPrefix(pages, k);
    if k == |pages| {
      assert pages[..k] == pages;
    } else {
      assert |got| > n;
      assert got[..n] == Concat(pages)[..n];
    }
  }

  /** A limit passed as `None` stops the loop before the second page and
      does not cut the result: the scan returns the first page as it is. */
  lemma ScanWithNullLimit(pages: seq<Page>)
    requires WellFormed(pages)
    ensures Fetched(pages, NullLimit) == 1
    ensures ScanResult(pages, NullLimit) == pages[0].items
  {
    assert pages[..1] == [pages[0]];
    assert Concat([pages[0]]) == Concat([]) + pages[0].items;
  }

  /** Three pages of 100, 100 and 50 items: without a limit the scan reads
      all three and returns 250 items; with limit 120 it does not request
      the third page, logs the early stop, and returns 120 items. */
  lemma ThreePagesExample(pages: seq<Page>, projection: Option<string>)
    requires WellFormed(pages) && |pages| == 3
    requires |pages[0].items| == 100 && |pages[1].items| == 100 && |pages[2].items| == 50
    ensures Fetched(pages, NoLimit) == 3 && |ScanResult(pages, NoLimit)| == 250
    ensures Fetched(pages, Limit(120)) == 2 && |ScanResult(pages, Limit(120))| == 120
    ensures ScanCalls(pages, Limit(120), projection)
              == [Scan(None, projection), Scan(pages[0].next, projection), Logged(Critical)]
  {
    assert pages[..1] == [pages[0]];
    assert pages[..2] == [pages[0], pages[1]];
    assert pages[..3] == pages;
    assert [pages[0], pages[1]][..1] == [pages[0]];
    assert pages[..3][..2] == [pages[0], pages[1]];
    assert |Concat(pages[..1])| == 100;
    assert |Concat(pages[..2])| == 200;
    assert |Concat(pages)| == 250;
    assert FetchedFrom(pages, 2, Limit(120)) == 2;
    assert FetchedFrom(pages, 1, Limit(120)) == 2;
    ScanReadsAllWithoutLimit(pages);
    ScanWithPositiveLimit(pages, 120);
  }
}

/** Paged reading of an external table (eval/external_corpus_probe.py). */
module Fetch {
  import opened Rubric

  type Row = int

  /** A table behind a paging endpoint. Request k returns at most `cap(k)` rows whatever was
      asked for, and may carry a total count. */
  datatype Server = Server(rows: seq<Row>, cap: int -> nat, count: int -> Option<nat>)

  function Min(a: int, b: int): int { if a <= b then a else b }

  /** The reply to request k for `limit` rows at `offset`. */
  function Page(s: Server, k: nat, limit: nat, offset: nat): (page: seq<Row>)
    ensures |page| <= limit
    ensures offset <= |s.rows| ==> offset + |page| <= |s.rows| && s.rows[..offset] + page == s.rows[..offset + |page|]
    ensures |page| == limit || |page| == s.cap(k) < limit || offset + |page| >= |s.rows|
    ensures |page| <= s.cap(k)
  {
    if offset >= |s.rows| then []
    else s.rows[offset..Min(offset + Min(limit, s.cap(k)), |s.rows|)]
  }

  datatype Summary = Summary(fetched: nat, reported: Option<nat>, fetchedAll: bool, pages: nat)

  /** Rows wanted in all. */
  function Wanted(s: Server, limit: int): nat { if limit <= 0 then 0 else Min(limit, |s.rows|) }

  /** Where request k starts. */
  function Start(k: int, pageSize: int): int { k * pageSize }

  lemma Starts(pageSize: int)
    ensures Start(0, pageSize) == 0
    ensures forall k: nat {:trigger Start(k + 1, pageSize)} :: Start(k + 1, pageSize) == Start(k, pageSize) + pageSize
  {
  }

  // ----- When a read is complete -----

  /** The count known after request k: the latest one reported. */
  function LastCount(s: Server, k: nat): Option<nat> {
    if s.count(k).Some? || k == 0 then s.count(k) else LastCount(s, k - 1)
  }

  /** Request k may return every row wanted of it, and no count says that the rows end where the
      next wanted row starts, or before. */
  predicate RequestGood(s: Server, limit: int, pageSize: int, k: nat) {
    var wanted, next := Wanted(s, limit), Start(k + 1, pageSize);
    && (Start(k, pageSize) < wanted ==> s.cap(k) >= Min(pageSize, wanted - Start(k, pageSize)))
    && (next < wanted && LastCount(s, k).Some? ==> LastCount(s, k).value > next)
  }

  ghost predicate Delivers(s: Server, limit: int, pageSize: int) { forall k: nat :: RequestGood(s, limit, pageSize, k) }

  ghost predicate GoodThrough(s: Server, limit: int, pageSize: int, n: nat) {
    forall k: nat | k < n :: RequestGood(s, limit, pageSize, k)
  }

  /** Counts, where given, are the true number of rows. */
  ghost predicate Truthful(s: Server) { forall k :: s.count(k).Some? ==> s.count(k).value == |s.rows| }

  lemma {:induction false} TruthfulCount(s: Server, k: nat)
    requires Truthful(s)
    ensures LastCount(s, k).Some? ==> LastCount(s, k).value == |s.rows|
  {
    if !s.count(k).Some? && k > 0 { TruthfulCount(s, k - 1); }
  }

  lemma {:induction false} StartsGrow(j: nat, k: nat, pageSize: int)
    requires j <= k && pageSize >= 1
    ensures Start(j, pageSize) <= Start(k, pageSize)
    decreases k - j
  {
    hide Start;
    Starts(pageSize);
    if j < k {
      var i := k - 1;
      StartsGrow(j, i, pageSize);
      assert Start(i + 1, pageSize) == Start(i, pageSize) + pageSize;
    }
  }

  /** Nothing is wanted from a request that starts behind the wanted rows. */
  lemma GoodFromHere(s: Server, limit: int, pageSize: int, n: nat)
    requires pageSize >= 1 && GoodThrough(s, limit, pageSize, n) && Start(n, pageSize) >= Wanted(s, limit)
    ensures Delivers(s, limit, pageSize)
  {
    hide Start;
    forall k: nat ensures RequestGood(s, limit, pageSize, k) {
      if k >= n {
        StartsGrow(n, k, pageSize);
        StartsGrow(n, k + 1, pageSize);
      }
    }
  }

  lemma RequestCases(s: Server, limit: int, pageSize: int, k: nat, n: nat)
    requires pageSize >= 1 && 0 <= Start(k, pageSize) < limit && Start(k, pageSize) + n <= |s.rows|
    requires Start(k + 1, pageSize) == Start(k, pageSize) + pageSize
    requires var asked := Min(pageSize, limit - Start(k, pageSize));
      n <= asked && n <= s.cap(k) && (n == asked || n == s.cap(k) < asked || Start(k, pageSize) + n >= |s.rows|)
    ensures var asked, reached := Min(pageSize, limit - Start(k, pageSize)), Start(k, pageSize) + n;
      && reached <= Wanted(s, limit)
      && (n < asked ==> (RequestGood(s, limit, pageSize, k) <==> reached == Wanted(s, limit)))
      && (n == asked ==>
            (RequestGood(s, limit, pageSize, k) <==>
              reached == Wanted(s, limit) || LastCount(s, k) == None || LastCount(s, k).value > reached))
      && (n == asked && reached < limit ==> reached == Start(k + 1, pageSize))
  {
    hide Start;
    hide LastCount;
  }

  /** The requests made. */
  ghost predicate Requested(s: Server, limit: int, pageSize: int, fetched: nat, pages: nat) {
    && (pages == 0 <==> limit <= 0 || pageSize <= 0)
    && (pages > 0 ==> Start(pages - 1, pageSize) <= fetched)
    && (pages > 1 ==> Start(pages - 1, pageSize) < limit)
    // No request starts where the count known by then says the rows end.
    && (pages > 1 && LastCount(s, pages - 2).Some? ==> Start(pages - 1, pageSize) < LastCount(s, pages - 2).value)
  }

  method FetchRecords(s: Server, limit: int, pageSize: int) returns (records: seq<Row>, summary: Summary)
    // Whatever the server does, the records are a prefix of the table within the limit.
    ensures |records| <= Wanted(s, limit) && records == s.rows[..|records|]
    // Nothing within the limit is missed exactly when no page is cut short and no count ends the rows early.
    ensures pageSize >= 1 ==> (records == s.rows[..Wanted(s, limit)] <==> Delivers(s, limit, pageSize))
    ensures summary.fetched == |records| && Requested(s, limit, pageSize, |records|, summary.pages)
    ensures summary.reported == if summary.pages == 0 then None else LastCount(s, summary.pages - 1)
    ensures summary.fetchedAll <==> summary.reported.Some? && |records| >= summary.reported.value
    // On a truthful table the flag means that all rows were fetched; with a count it is set exactly when the
    // limit admits all rows and the server delivers them; and no page behind the wanted rows is asked for.
    ensures Truthful(s) ==> TruthTold(s, limit, pageSize, summary)
  {
    hide *;
    var reported, pages;
    records, reported, pages := ReadPages(s, limit, pageSize);
    summary := Summary(|records|, reported, reported.Some? && |records| >= reported.value, pages);
    if Truthful(s) { TruthfulSummary(s, limit, pageSize, summary); }
  }

  /** The loop over the pages. */
  method ReadPages(s: Server, limit: int, pageSize: int) returns (records: seq<Row>, reported: Option<nat>, pages: nat)
    ensures |records| <= Wanted(s, limit) <= |s.rows| && records == s.rows[..|records|]
    ensures pageSize >= 1 ==> (|records| == Wanted(s, limit) <==> Delivers(s, limit, pageSize))
    ensures Requested(s, limit, pageSize, |records|, pages)
    ensures reported == if pages == 0 then None else LastCount(s, pages - 1)
  {
    hide Start, Page, Wanted, LastCount, Delivers, Requested, Reading;
    records, reported, pages := [], None, 0;
    var offset := 0;
    ReadingStarts(s, limit, pageSize);
    while offset < limit
      invariant offset == |records| && offset <= Wanted(s, limit) <= |s.rows| && records == s.rows[..offset]
      invariant Reading(s, limit, pageSize, offset, pages, reported)
      decreases limit - offset
    {
      var currentLimit := Min(pageSize, limit - offset);
      if currentLimit <= 0 { break; }
      var page := Page(s, pages, currentLimit, offset);
      ReadingStep(s, limit, pageSize, offset, pages, reported, |page|);
      records := records + page;
      if s.count(pages).Some? { reported := s.count(pages); }
      offset := offset + |page|;
      pages := pages + 1;
      if |page| < currentLimit { return; }
      if reported.Some? && |records| >= Min(limit, reported.value) { return; }
    }
    ReadingDone(s, limit, pageSize, offset, pages, reported);
  }

  /** What holds before each request. */
  ghost predicate Reading(s: Server, limit: int, pageSize: int, offset: nat, pages: nat, reported: Option<nat>) {
    && reported == (if pages == 0 then None else LastCount(s, pages - 1))
    && (pages > 0 ==> pageSize > 0 && limit > 0)
    && (pages == 0 ==> offset == 0)
    && (pageSize >= 1 ==> offset <= Start(pages, pageSize))
    && (offset < limit ==> offset == Start(pages, pageSize))
    && (reported.Some? ==> offset < Min(limit, reported.value))
    && (pages > 0 ==> Requested(s, limit, pageSize, offset, pages))
    && GoodThrough(s, limit, pageSize, pages)
  }

  lemma ReadingStarts(s: Server, limit: int, pageSize: int)
    ensures Reading(s, limit, pageSize, 0, 0, None) && 0 <= Wanted(s, limit) <= |s.rows|
  {
  }

  lemma ReadingStep(s: Server, limit: int, pageSize: int, offset: nat, pages: nat, reported: Option<nat>, n: nat)
    requires Reading(s, limit, pageSize, offset, pages, reported) && offset < limit && pageSize >= 1
    requires var asked := Min(pageSize, limit - offset);
      offset + n <= |s.rows| && n <= asked && n <= s.cap(pages)
          && (n == asked || n == s.cap(pages) < asked || offset + n >= |s.rows|)
    ensures var asked, known := Min(pageSize, limit - offset),
              if s.count(pages).Some? then s.count(pages) else reported;
      && asked > 0 && known == LastCount(s, pages) && offset + n <= Wanted(s, limit)
      && Requested(s, limit, pageSize, offset + n, pages + 1)
      && (if n < asked || (known.Some? && offset + n >= Min(limit, known.value))
          then Delivers(s, limit, pageSize) <==> offset + n == Wanted(s, limit)
          else Reading(s, limit, pageSize, offset + n, pages + 1, known))
  {
    hide Start, Wanted, RequestGood, LastCount, GoodThrough, Delivers;
    Starts(pageSize);
    Bounds(s, limit);
    CountStep(s, pages);
    assert Start(pages + 1, pageSize) == Start(pages, pageSize) + pageSize;
    RequestCases(s, limit, pageSize, pages, n);
    OneMoreGood(s, limit, pageSize, pages);
    var asked, known := Min(pageSize, limit - offset), LastCount(s, pages);
    if n < asked || (known.Some? && offset + n >= Min(limit, known.value)) {
      Decided(s, limit, pageSize, pages, offset + n);
    }
  }

  lemma ReadingDone(s: Server, limit: int, pageSize: int, offset: nat, pages: nat, reported: Option<nat>)
    requires Reading(s, limit, pageSize, offset, pages, reported) && offset <= Wanted(s, limit)
    requires offset >= limit || Min(pageSize, limit - offset) <= 0
    ensures Requested(s, limit, pageSize, offset, pages)
    ensures pageSize >= 1 ==> offset == Wanted(s, limit) && Delivers(s, limit, pageSize)
    ensures reported == if pages == 0 then None else LastCount(s, pages - 1)
  {
    Bounds(s, limit);
    Starts(pageSize);
    hide Start, Wanted, LastCount, GoodThrough, Delivers;
    if pageSize >= 1 { GoodFromHere(s, limit, pageSize, pages); }
  }

  lemma OneMoreGood(s: Server, limit: int, pageSize: int, k: nat)
    ensures GoodThrough(s, limit, pageSize, k + 1) <==>
                GoodThrough(s, limit, pageSize, k) && RequestGood(s, limit, pageSize, k)
  {
    hide RequestGood;
  }

  lemma Bounds(s: Server, limit: int)
    ensures Wanted(s, limit) <= |s.rows| && (limit >= 0 ==> Wanted(s, limit) <= limit)
    ensures limit <= |s.rows| && limit >= 0 ==> Wanted(s, limit) == limit
    ensures limit <= 0 ==> Wanted(s, limit) == 0
    ensures limit >= |s.rows| ==> Wanted(s, limit) == if limit <= 0 then 0 else |s.rows|
  {
  }

  lemma CountStep(s: Server, k: nat)
    ensures LastCount(s, k) == if s.count(k).Some? || k == 0 then s.count(k) else LastCount(s, k - 1)
  {
  }

  /** The last request decides: it is a good one exactly when everything wanted has been read. */
  lemma Decided(s: Server, limit: int, pageSize: int, k: nat, reached: nat)
    requires pageSize >= 1 && GoodThrough(s, limit, pageSize, k) && reached <= Wanted(s, limit)
    requires RequestGood(s, limit, pageSize, k) <==> reached == Wanted(s, limit)
    requires reached <= Start(k + 1, pageSize)
    ensures Delivers(s, limit, pageSize) <==> reached == Wanted(s, limit)
  {
    hide Start;
    hide RequestGood;
    if reached == Wanted(s, limit) { GoodFromHere(s, limit, pageSize, k + 1); }
  }

  // ----- Special servers -----

  /** With truthful counts only the caps matter, and the completeness flag of a read that knows a
      count is right exactly when the read is complete. */
  lemma TruthfulDelivers(s: Server, limit: int, pageSize: int)
    requires Truthful(s)
    ensures Delivers(s, limit, pageSize) <==>
              forall k: nat | Start(k, pageSize) < Wanted(s, limit) ::
                s.cap(k) >= Min(pageSize, Wanted(s, limit) - Start(k, pageSize))
  {
    hide Start;
    forall k: nat
      ensures RequestGood(s, limit, pageSize, k) <==>
                (Start(k, pageSize) < Wanted(s, limit) ==>
                    s.cap(k) >= Min(pageSize, Wanted(s, limit) - Start(k, pageSize)))
    {
      TruthfulCount(s, k);
    }
  }

  lemma {:induction false} FirstCountKept(s: Server, k: nat)
    requires s.count(0).Some?
    ensures LastCount(s, k).Some?
  {
    if k > 0 { FirstCountKept(s, k - 1); }
  }

  /** What a summary says about a truthful table. */
  ghost predicate TruthTold(s: Server, limit: int, pageSize: int, summary: Summary) {
    && (summary.fetchedAll ==> summary.fetched == |s.rows|)
    && (pageSize >= 1 && limit > 0 && summary.reported.Some? ==>
          (summary.fetchedAll <==> limit >= |s.rows| && Delivers(s, limit, pageSize)))
    && (limit > 0 && pageSize >= 1 && s.count(0).Some? ==>
          summary.reported.Some? && (summary.pages > 1 ==> Start(summary.pages - 1, pageSize) < Wanted(s, limit)))
  }

  lemma TruthfulSummary(s: Server, limit: int, pageSize: int, summary: Summary)
    requires Truthful(s) && summary.fetched <= Wanted(s, limit)
    requires summary.fetchedAll <==> summary.reported.Some? && summary.fetched >= summary.reported.value
    requires pageSize >= 1 ==> (summary.fetched == Wanted(s, limit) <==> Delivers(s, limit, pageSize))
    requires summary.reported == if summary.pages == 0 then None else LastCount(s, summary.pages - 1)
    requires Requested(s, limit, pageSize, summary.fetched, summary.pages)
    ensures TruthTold(s, limit, pageSize, summary)
  {
    hide Delivers;
    hide Start;
    hide LastCount;
    if summary.pages > 0 {
      TruthfulCount(s, summary.pages - 1);
      if s.count(0).Some? { FirstCountKept(s, summary.pages - 1); }
    }
    if summary.pages > 1 && s.count(0).Some? {
      FirstCountKept(s, summary.pages - 2);
      TruthfulCount(s, summary.pages - 2);
    }
  }

  /** A server with one cap for all its pages delivers exactly when the cap admits a full page,
      the whole limit or the whole table. */
  lemma SameCapDelivers(s: Server, limit: int, pageSize: int, cap: nat)
    requires Truthful(s) && pageSize >= 1 && limit > 0 && forall k :: s.cap(k) == cap
    ensures Delivers(s, limit, pageSize) <==> cap >= Min(pageSize, limit) || cap >= |s.rows|
  {
    Starts(pageSize);
    TruthfulDelivers(s, limit, pageSize);
    hide Delivers;
    forall k: nat ensures Start(k, pageSize) >= 0 { StartsGrow(0, k, pageSize); }
    hide Start;
    if Delivers(s, limit, pageSize) && |s.rows| > 0 { assert Start(0, pageSize) < Wanted(s, limit); }
  }

  /** One row of a table of two is all that is read through a cap of one, when two were asked for. */
  lemma CappedReadStops()
    ensures exists s: Server :: Truthful(s) && |s.rows| == 2 && !Delivers(s, 2, 2)
  {
    var s := Server([10, 20], _ => 1, _ => None);
    SameCapDelivers(s, 2, 2, 1);
  }

  /** A count of one on a table of two ends the read after the first page of one. */
  lemma FalseCountStops()
    ensures exists s: Server :: (forall k :: s.cap(k) >= 2) && |s.rows| == 2 && !Delivers(s, 2, 1)
  {
    var s := Server([10, 20], _ => 2, _ => Some(1));
    assert !RequestGood(s, 2, 1, 0);
  }
}

/** Draining a bounded query page by page, against executors that may answer anything. */
module Paging {
  import opened Prelude
  import opened Digits
  import opened Orders
  import Queries
  import StoredRecords

  datatype Page<+T> = Page(items: seq<T>, cursor: Option<string>)

  /** An executor's answer may depend on everything executed so far; the last cursor is the one being executed. */
  type Executor<!T> = seq<Option<string>> -> Page<T>

  function Followed<T>(items: seq<T>, rest: Result<seq<T>>): Result<seq<T>> {
    match rest
    case Ok(more) => Ok(items + more)
    case Err(error) => Err(error)
  }

  /** `scan_events` after executing `done`, about to execute `next`: all cursors executed, and the outcome. */
  function Drained<T>(executor: Executor<T>, done: seq<Option<string>>, next: Option<string>, limit: nat, pages: nat)
    : (seq<Option<string>>, Result<seq<T>>)
    decreases pages
  {
    if pages == 0 then (done, Err(InvalidUsageResult))
    else
      var now := done + [next];
      var page := executor(now);
      if |page.items| > limit then (now, Err(InvalidUsageResult))
      else if page.cursor.None? then (now, Ok(page.items))
      else if page.cursor in now[1..] then (now, Err(InvalidUsageResult))
      else if !Queries.Token(page.cursor.value) then (now, Err(InvalidUsage))
      else
        var (executed, rest) := Drained(executor, now, page.cursor, limit, pages - 1);
        (executed, Followed(page.items, rest))
  }

  lemma FollowedLaws<T>(items: seq<T>, more: seq<T>, rest: Result<seq<T>>)
    ensures Followed([], rest) == rest
    ensures Followed(items, Followed(more, rest)) == Followed(items + more, rest)
    ensures Followed(items, Ok(more)) == Ok(items + more)
  {
    if rest.Ok? {
      assert [] + rest.value == rest.value;
      assert items + (more + rest.value) == (items + more) + rest.value;
    }
  }

  /** The page loop; also reports which cursors were executed. */
  method ScanPages<T>(executor: Executor<T>, first: Option<string>, limit: nat, maxPages: int)
    returns (executed: seq<Option<string>>, r: Result<seq<T>>)
    ensures maxPages < 1 ==> executed == [] && r == Err(InvalidUsage)
    ensures maxPages >= 1 ==> (executed, r) == Drained(executor, [], first, limit, maxPages)
  {
    executed := [];
    if maxPages < 1 {
      return executed, Err(InvalidUsage);
    }
    var items: seq<T> := [];
    var current := first;
    ghost var all := Drained(executor, [], first, limit, maxPages);
    FollowedLaws(items, items, all.1);
    for i := 0 to maxPages
      invariant |executed| == i
      invariant all == (Drained(executor, executed, current, limit, maxPages - i).0,
                        Followed(items, Drained(executor, executed, current, limit, maxPages - i).1))
    {
      executed := executed + [current];
      var page := executor(executed);
      if |page.items| > limit {
        return executed, Err(InvalidUsageResult);
      }
      FollowedLaws(items, page.items, Err(InvalidUsageResult));
      if page.cursor.None? {
        return executed, Ok(items + page.items);
      }
      if page.cursor in executed[1..] {
        return executed, Err(InvalidUsageResult);
      }
      if !Queries.Token(page.cursor.value) {
        return executed, Err(InvalidUsage);
      }
      FollowedLaws(items, page.items, Drained(executor, executed, page.cursor, limit, maxPages - i - 1).1);
      items := items + page.items;
      current := page.cursor;
    }
    return executed, Err(InvalidUsageResult);
  }

  // ---- What a scan did, read off what it executed ----

  /** The page executed at `j` is small enough and hands over an acceptable new cursor, which is executed next. */
  predicate HandsOver<T>(executor: Executor<T>, executed: seq<Option<string>>, j: nat, limit: nat)
    requires j + 1 < |executed|
  {
    var page := executor(executed[..j + 1]);
    && |page.items| <= limit
    && page.cursor == executed[j + 1] && executed[j + 1].Some?
    && executed[j + 1] !in executed[..j + 1][1..] && Queries.Token(executed[j + 1].value)
  }

  /** All items of the pages executed, in order. */
  function Collected<T>(executor: Executor<T>, executed: seq<Option<string>>): seq<T> {
    if executed == [] then [] else Collected(executor, executed[..|executed| - 1]) + executor(executed).items
  }

  /** How the last page executed ends a scan. */
  function Ending<T>(executor: Executor<T>, executed: seq<Option<string>>, limit: nat): Result<()> {
    if executed == [] then Err(InvalidUsageResult)
    else
      var page := executor(executed);
      if |page.items| > limit then Err(InvalidUsageResult)
      else if page.cursor.None? then Ok(())
      else if page.cursor in executed[1..] then Err(InvalidUsageResult)
      else if !Queries.Token(page.cursor.value) then Err(InvalidUsage)
      else Err(InvalidUsageResult)
  }

  /**
    A scan executes cursor after cursor as the pages hand them over, within its budget, until a page ends it: without
    a cursor, which is the only success and returns all items in order, or with too many items, a cursor seen before, an
    unacceptable one, or one too many for the budget.
   */
  lemma {:induction false} DrainedExactly<T>(executor: Executor<T>, done: seq<Option<string>>, next: Option<string>,
      limit: nat, pages: nat)
    requires pages > 0
    ensures var (executed, r) := Drained(executor, done, next, limit, pages);
            && done + [next] <= executed && |executed| <= |done| + pages
            && (forall j :: |done| <= j < |executed| - 1 ==> HandsOver(executor, executed, j, limit))
            && (r.Ok? <==> Ending(executor, executed, limit).Ok?)
            && (r.Ok? ==> Collected(executor, executed) == Collected(executor, done) + r.value)
            && (r.Err? ==> r.error == Ending(executor, executed, limit).error)
            && (r.Err? && |executed| < |done| + pages ==>
                  var page := executor(executed);
                  |page.items| > limit || page.cursor in executed[1..]
                  || (page.cursor.Some? && !Queries.Token(page.cursor.value)))
    decreases pages
  {
    hide Queries.Token;
    var now := done + [next];
    var page := executor(now);
    assert now[..|now| - 1] == done;
    var (executed, r) := Drained(executor, done, next, limit, pages);
    if && |page.items| <= limit && page.cursor.Some? && page.cursor !in now[1..]
       && Queries.Token(page.cursor.value) && pages > 1
    {
      DrainedExactly(executor, now, page.cursor, limit, pages - 1);
      assert executed[..|done| + 1] == now && executed[|done| + 1] == page.cursor;
      CollectedAssociates(executor, done, page.items, r);
    }
  }

  lemma CollectedAssociates<T>(executor: Executor<T>, done: seq<Option<string>>, items: seq<T>, r: Result<seq<T>>)
    ensures r.Ok? ==> forall more: seq<T> :: r.value == items + more ==>
                        Collected(executor, done) + items + more == Collected(executor, done) + r.value
  {
  }

  /** Against any executor: at most `pages` executions, and no cursor is executed twice. */
  lemma {:induction false} DrainingIsBounded<T>(executor: Executor<T>, done: seq<Option<string>>,
      next: Option<string>, limit: nat, pages: nat)
    requires Unique(done + [next]) && (done + [next])[0] == None
    ensures var (executed, r) := Drained(executor, done, next, limit, pages);
            && |executed| <= |done| + pages && done <= executed && Unique(executed)
    decreases pages
  {
    hide Queries.Token;
    ShorterIsUnique(done, next);
    if pages > 0 {
      var now := done + [next];
      var page := executor(now);
      if page.cursor.Some? && page.cursor !in now[1..] {
        FreshCursor(now, page.cursor);
        DrainingIsBounded(executor, now, page.cursor, limit, pages - 1);
      }
    }
  }

  lemma ShorterIsUnique<T>(s: seq<T>, x: T)
    requires Unique(s + [x])
    ensures Unique(s)
  {
    forall i, j | 0 <= i < j < |s| ensures s[i] != s[j] {
      assert (s + [x])[i] == s[i] && (s + [x])[j] == s[j];
    }
  }

  lemma FreshCursor(now: seq<Option<string>>, cursor: Option<string>)
    requires Unique(now) && now != [] && now[0] == None && cursor.Some? && cursor !in now[1..]
    ensures Unique(now + [cursor]) && (now + [cursor])[0] == None
  {
    forall i | 0 <= i < |now| ensures now[i] != cursor {
      assert i > 0 ==> now[i] == now[1..][i - 1];
    }
  }

  /** A cursorless scan ends within its page budget and never executes a cursor twice, whatever it is answered. */
  lemma ScanIsBounded<T>(executor: Executor<T>, limit: nat, pages: nat)
    ensures var (executed, r) := Drained(executor, [], None, limit, pages);
            |executed| <= pages && Unique(executed)
  {
    var first: seq<Option<string>> := [None];
    assert [] + first == first;
    DrainingIsBounded(executor, [], None, limit, pages);
  }

  // ---- A faithful pager ----

  /** The offset a cursor stands for. */
  function Offset(cursor: Option<string>): nat {
    match cursor
    case None => 0
    case Some(text) => if AllDigits(text) then Reading(text) else 0
  }

  /** The rows from the cursor's offset on, and a cursor for the rest if there is any. */
  function OffsetPage<T>(rows: seq<T>, limit: nat, cursor: Option<string>): Page<T> {
    var from := Min(Offset(cursor), |rows|);
    var to := Min(from + limit, |rows|);
    Page(rows[from..to], if Offset(cursor) + limit < |rows| then Some(Numeral(Offset(cursor) + limit)) else None)
  }

  function Pager<T>(rows: seq<T>, limit: nat): Executor<T> {
    history => if history == [] then Page([], None) else OffsetPage(rows, limit, history[|history| - 1])
  }

  /** The pages that `n` rows take, an empty result being one page. */
  function Pages(n: nat, limit: nat): nat
    requires limit > 0
  {
    if n <= limit then 1 else 1 + Pages(n - limit, limit)
  }

  lemma {:induction false} PagesIsCeiling(n: nat, limit: nat)
    requires limit > 0
    ensures Pages(n, limit) == Max(1, (n + limit - 1) / limit)
  {
    if n > limit {
      PagesIsCeiling(n - limit, limit);
      OneLess(n + limit - 1, limit);
    } else {
      OneCeiling(n, limit);
    }
  }

  lemma OneLess(n: nat, limit: nat)
    requires limit > 0 && n >= limit
    ensures n / limit == (n - limit) / limit + 1
  {
    var q, r := (n - limit) / limit, (n - limit) % limit;
    assert n - limit == q * limit + r;
    assert n == (q + 1) * limit + r;
    QuotientIs(n, limit, q + 1, r);
  }

  lemma QuotientIs(n: nat, d: nat, q: nat, r: nat)
    requires d > 0 && n == q * d + r && r < d
    ensures n / d == q
  {
    var p, s := n / d, n % d;
    assert n == p * d + s;
    if p < q {
      assert (p + 1) * d == p * d + d;
      ScaleMonotone(p + 1, q, d);
    } else if q < p {
      assert (q + 1) * d == q * d + d;
      ScaleMonotone(q + 1, p, d);
    }
  }

  lemma OneCeiling(n: nat, limit: nat)
    requires 0 < limit && n <= limit
    ensures Max(1, (n + limit - 1) / limit) == 1
  {
    if n == 0 {
      QuotientIs(limit - 1, limit, 0, limit - 1);
    } else {
      QuotientIs(n + limit - 1, limit, 1, n - 1);
    }
  }

  lemma NumeralIsToken(n: nat)
    requires DigitCount(n) <= 4096
    ensures Queries.Token(Numeral(n)) && Offset(Some(Numeral(n))) == n
  {
    var s := Numeral(n);
    StoredRecords.AsciiLength(s);
    ReadingOfNumeral(n);
  }

  lemma {:induction false} FewerDigits(m: nat, n: nat)
    requires m <= n
    ensures DigitCount(m) <= DigitCount(n)
  {
    DigitCountBounds(n);
    DigitCountAtMost(m, DigitCount(n));
  }

  /** The cursors executed so far stood for smaller offsets. */
  ghost predicate Behind(executed: seq<Option<string>>, offset: nat) {
    forall c :: c in executed ==> Offset(c) < offset
  }

  /** What the pager answers: the rows of the page, and a cursor for the next offset unless it was the last. */
  lemma PagerAnswers<T>(rows: seq<T>, limit: nat, done: seq<Option<string>>, next: Option<string>)
    requires limit > 0 && DigitCount(|rows|) <= 4096
    requires Behind(done, Offset(next)) && (Offset(next) < |rows| || Offset(next) == 0)
    ensures var offset, page := Offset(next), Pager(rows, limit)(done + [next]);
            && |page.items| <= limit
            && if offset + limit < |rows| then
                 && page == Page(rows[offset..offset + limit], Some(Numeral(offset + limit)))
                 && Queries.Token(page.cursor.value) && Offset(page.cursor) == offset + limit
                 && Behind(done + [next], Offset(page.cursor)) && page.cursor !in (done + [next])[1..]
               else page == Page(rows[offset..], None)
  {
    hide Queries.Token, DigitCount, Numeral, Offset, Behind;
    var offset := Offset(next);
    var page := OffsetPage(rows, limit, next);
    assert (done + [next])[|done|] == next;
    if offset + limit < |rows| {
      FewerDigits(offset + limit, |rows|);
      NumeralIsToken(offset + limit);
      BehindNext(done, next, page.cursor);
    } else {
      assert rows[offset..] == page.items;
    }
  }

  /** One execution against the pager: the rows of the page, and either the end or the next offset. */
  lemma PagerStep<T>(rows: seq<T>, limit: nat, done: seq<Option<string>>, next: Option<string>, pages: nat)
    requires limit > 0 && DigitCount(|rows|) <= 4096 && pages > 0
    requires Behind(done, Offset(next)) && (Offset(next) < |rows| || Offset(next) == 0)
    ensures var offset, r := Offset(next), Drained(Pager(rows, limit), done, next, limit, pages).1;
            if offset + limit < |rows| then
              var cursor := Some(Numeral(offset + limit));
              && Offset(cursor) == offset + limit && Behind(done + [next], Offset(cursor))
              && r == Followed(rows[offset..offset + limit],
                  Drained(Pager(rows, limit), done + [next], cursor, limit, pages - 1).1)
            else r == Ok(rows[offset..])
  {
    hide Queries.Token, DigitCount, Numeral, Offset, Behind, Pager, Followed;
    PagerAnswers(rows, limit, done, next);
  }

  lemma {:induction false} PagerDelivers<T>(rows: seq<T>, limit: nat, done: seq<Option<string>>,
      next: Option<string>, pages: nat)
    requires limit > 0 && DigitCount(|rows|) <= 4096
    requires Behind(done, Offset(next)) && (Offset(next) < |rows| || Offset(next) == 0)
    ensures var r := Drained(Pager(rows, limit), done, next, limit, pages).1;
            if Pages(|rows| - Offset(next), limit) <= pages then r == Ok(rows[Offset(next)..])
            else r == Err(InvalidUsageResult)
    decreases pages
  {
    hide Queries.Token, DigitCount, Numeral, Offset, Pager, Behind;
    if pages > 0 {
      PagerStep(rows, limit, done, next, pages);
      var offset := Offset(next);
      if offset + limit < |rows| {
        PagerDelivers(rows, limit, done + [next], Some(Numeral(offset + limit)), pages - 1);
        assert rows[offset..] == rows[offset..offset + limit] + rows[offset + limit..];
      }
    }
  }

  lemma BehindNext(done: seq<Option<string>>, next: Option<string>, cursor: Option<string>)
    requires Behind(done, Offset(next)) && Offset(next) < Offset(cursor)
    ensures Behind(done + [next], Offset(cursor)) && cursor !in (done + [next])[1..]
  {
    hide Offset;
    var now := done + [next];
    forall c | c in now ensures Offset(c) < Offset(cursor) {
      assert c in done || c == next;
    }
    forall i | 0 <= i < |now[1..]| ensures now[1..][i] != cursor {
      assert now[1..][i] in now;
    }
  }

  /**
    A faithful offset pager hands over all rows, once each and in order, exactly when the page budget covers them;
    so the page size never shows in what a scan returns.
   */
  lemma PageSizeIsInvisible<T>(rows: seq<T>, limit: nat, pages: nat)
    requires limit > 0 && DigitCount(|rows|) <= 4096
    ensures Drained(Pager(rows, limit), [], None, limit, pages).1
            == if Max(1, (|rows| + limit - 1) / limit) <= pages then Ok(rows) else Err(InvalidUsageResult)
  {
    hide Drained, Pager;
    PagesIsCeiling(|rows|, limit);
    PagerDelivers(rows, limit, [], None, pages);
    assert rows[0..] == rows;
  }
}

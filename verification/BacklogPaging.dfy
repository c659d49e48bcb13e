/**
 * What paging guarantees. Older loads put the rows of the log above whatever the buffer starts with, page by page,
 * without gaps or repeats, until the log or the memory bound ends; a buffer that has kept its headings ends up headed
 * as by one load. A reconnect never seeds the stored copy of a live line.
 */
module BacklogPaging {
  import opened Wrappers
  import opened Seqs
  import opened Backlogs

  // ----- the query -----

  predicate Below(row: Row, ms: int, id: int) { row.ms < ms || (row.ms == ms && row.id < id) }

  /** The bound on the seconds column excludes nothing. */
  lemma BoundIsRedundant(row: Row, ms: int, id: int)
    requires row.seconds == row.ms / 1000
    ensures Selected(row, Some((ms, id))) <==> Below(row, ms, id)
  {
  }

  /** In an ordered log a cursor selects a prefix. */
  lemma {:induction false} SelectIsPrefix(log: seq<Row>, before: Cursor, n: nat)
    requires n <= |log|
    requires forall i | 0 <= i < n :: Selected(log[i], before)
    requires forall i | n <= i < |log| :: !Selected(log[i], before)
    ensures Select(log, before) == log[..n]
  {
    if log != [] {
      var rest := log[1..];
      var k := if n > 0 then n - 1 else 0;
      assert forall i | 0 <= i < |rest| :: rest[i] == log[i + 1];
      SelectIsPrefix(rest, before, k);
      assert n > 0 ==> [log[0]] + rest[..k] == log[..n];
      assert n == 0 ==> [] + rest[..k] == log[..n];
    }
  }

  /** The rows below a row of the log are those before it. */
  lemma SelectBelowRow(log: seq<Row>, k: nat)
    requires ValidLog(log) && k < |log|
    ensures Select(log, Some((log[k].ms, log[k].id))) == log[..k]
  {
    var before := Some((log[k].ms, log[k].id));
    forall i | 0 <= i < |log|
      ensures Selected(log[i], before) <==> i < k
    {
      assert log[i] in log;
      BoundIsRedundant(log[i], log[k].ms, log[k].id);
      assert i < k ==> Backlogs.Before(log[i], log[k]);
      assert k < i ==> Backlogs.Before(log[k], log[i]);
    }
    SelectIsPrefix(log, before, k);
  }

  lemma SelectAll(log: seq<Row>)
    ensures Select(log, None) == log
  {
    SelectIsPrefix(log, None, |log|);
    assert log[..|log|] == log;
  }

  // ----- headings -----

  function DayOf(calendar: Calendar, row: Row): int { Day(calendar, row.ms) }

  /** Dropping a repeated head separator is exactly what heading the rows in one go does. */
  lemma {:induction false} HeadedConcat(calendar: Calendar, page: seq<Row>, rows: seq<Row>, last: Option<int>)
    requires rows != []
    ensures var day := if page == [] then last else Some(DayOf(calendar, page[|page| - 1]));
            Headed(calendar, page + rows, last) == Headed(calendar, page, last) + Headed(calendar, rows, day)
  {
    if page == [] {
      assert page + rows == rows;
    } else {
      var rest := page[1..];
      assert (page + rows)[0] == page[0] && (page + rows)[1..] == rest + rows;
      HeadedConcat(calendar, rest, rows, Some(DayOf(calendar, page[0])));
      hide Heading;
      assert rest != [] ==> rest[|rest| - 1] == page[|page| - 1];
      var day := Some(DayOf(calendar, page[|page| - 1]));
      Associative(Heading(calendar, page[0], last), Headed(calendar, rest, Some(DayOf(calendar, page[0]))),
                  Headed(calendar, rows, day));
    }
  }

  /** A heading above the first row is all that the day before changes. */
  lemma HeadedAfter(calendar: Calendar, rows: seq<Row>, day: int)
    requires rows != []
    ensures Headed(calendar, rows, None) != [] && Headed(calendar, rows, None)[0] == Separator(rows[0].ms)
    ensures Headed(calendar, rows, Some(day)) ==
            if day == DayOf(calendar, rows[0]) then Headed(calendar, rows, None)[1..] else Headed(calendar, rows, None)
  {
    var rest := Headed(calendar, rows[1..], Some(DayOf(calendar, rows[0])));
    assert ([Separator(rows[0].ms), Stored(rows[0])] + rest)[1..] == [Stored(rows[0])] + rest;
  }

  lemma {:induction false} RemoveEndMarkerConcat(a: seq<Message>, b: seq<Message>)
    ensures RemoveEndMarker(a + b) == RemoveEndMarker(a) + RemoveEndMarker(b)
  {
    if a == [] {
      EmptyConcat(b);
      assert a + b == b;
    } else {
      TailConcat(a, b);
      RemoveEndMarkerConcat(a[1..], b);
      hide Kept;
      Associative(Kept(a[0]), RemoveEndMarker(a[1..]), RemoveEndMarker(b));
    }
  }

  lemma {:induction false} NoMarkerStays(messages: seq<Message>)
    requires forall m | m in messages :: m.key != BacklogEnd
    ensures RemoveEndMarker(messages) == messages
  {
    if messages != [] {
      assert forall m | m in messages[1..] :: m in messages;
      NoMarkerStays(messages[1..]);
      assert messages[0] in messages;
      HeadTail(messages);
    }
  }

  lemma {:induction false} HeadedHasNoMarker(calendar: Calendar, rows: seq<Row>, last: Option<int>)
    ensures forall m | m in Headed(calendar, rows, last) :: m.key != BacklogEnd
    decreases |rows|
  {
    if rows != [] {
      HeadedHasNoMarker(calendar, rows[1..], Some(DayOf(calendar, rows[0])));
    }
  }

  lemma RemoveFromHeaded(calendar: Calendar, rows: seq<Row>, last: Option<int>, tail: seq<Message>)
    ensures RemoveEndMarker(Headed(calendar, rows, last) + tail) == Headed(calendar, rows, last) + RemoveEndMarker(tail)
  {
    HeadedHasNoMarker(calendar, rows, last);
    NoMarkerStays(Headed(calendar, rows, last));
    RemoveEndMarkerConcat(Headed(calendar, rows, last), tail);
  }

  // ----- the window -----

  /** The buffer shows the log rows from `k` to `m`, headed by day, and below them `tail`. */
  predicate Window(calendar: Calendar, b: Buffer, log: seq<Row>, k: nat, m: nat, tail: seq<Message>) {
    k < m <= |log| && b.messages == Headed(calendar, log[k..m], None) + tail
  }

  lemma WindowCursor(calendar: Calendar, b: Buffer, log: seq<Row>, k: nat, m: nat, tail: seq<Message>)
    requires Window(calendar, b, log, k, m, tail)
    ensures OldestCursor(b.messages) == Some((log[k].ms, log[k].id)) && OldestMs(b.messages) == Some(log[k].ms)
  {
    hide Headed, Heading;
    WindowHead(calendar, b, log, k, m, tail);
    assert OldestReal(b.messages) == OldestReal(b.messages[1..]) == Some(Stored(log[k]));
  }

  lemma WindowHead(calendar: Calendar, b: Buffer, log: seq<Row>, k: nat, m: nat, tail: seq<Message>)
    requires Window(calendar, b, log, k, m, tail)
    ensures |b.messages| > 1 && b.messages[0] == Separator(log[k].ms) && b.messages[1] == Stored(log[k])
  {
    var rows := log[k..m];
    var rest := Headed(calendar, rows[1..], Some(DayOf(calendar, rows[0])));
    assert Headed(calendar, rows, None) == [Separator(log[k].ms), Stored(log[k])] + rest;
  }

  function PageStart(k: nat): nat { if k <= CHAT_BACKLOG_PAGE then 0 else k - CHAT_BACKLOG_PAGE }

  /** The page an older load fetches for a window that starts at `k`. */
  lemma PageRows(log: seq<Row>, k: nat)
    requires ValidLog(log) && k < |log|
    ensures Query(log, Some((log[k].ms, log[k].id)), CHAT_BACKLOG_PAGE) == log[PageStart(k)..k]
  {
    SelectBelowRow(log, k);
    assert log[..k][PageStart(k)..] == log[PageStart(k)..k];
  }

  /** Prepending the page, with the head separator dropped if its day is repeated, heads the longer window exactly. */
  lemma PageExtends(calendar: Calendar, log: seq<Row>, j: nat, k: nat, m: nat, tail: seq<Message>)
    requires ValidLog(log) && j < k < m <= |log|
    ensures WithPage(calendar, Headed(calendar, log[k..m], None) + tail, log[j..k]) ==
            Headed(calendar, log[j..m], None) + RemoveEndMarker(tail)
  {
    assert log[k - 1] in log;
    hide RemoveEndMarker, Headed, WithoutRepeatedHead, ValidLog;
    var page, rows := log[j..k], log[k..m];
    var day := DayOf(calendar, log[k - 1]);
    assert page + rows == log[j..m] && page[|page| - 1] == log[k - 1];
    HeadDropped(calendar, page, rows, tail);
    HeadedConcat(calendar, page, rows, None);
    hide DayOf, Day;
    RemoveFromHeaded(calendar, rows, Some(day), tail);
    Associative(Headed(calendar, page, None), Headed(calendar, rows, Some(day)), RemoveEndMarker(tail));
  }

  lemma HeadDropped(calendar: Calendar, page: seq<Row>, rows: seq<Row>, tail: seq<Message>)
    requires page != [] && rows != [] && page[|page| - 1].seconds == page[|page| - 1].ms / 1000
    ensures WithoutRepeatedHead(calendar, Headed(calendar, rows, None) + tail, page) ==
            Headed(calendar, rows, Some(DayOf(calendar, page[|page| - 1]))) + tail
  {
    var day := DayOf(calendar, page[|page| - 1]);
    HeadedAfter(calendar, rows, day);
    hide Headed;
    TailConcat(Headed(calendar, rows, None), tail);
  }

  /**
   * One older load: the window grows upwards by the page, down to nothing else; the end marker goes when rows came;
   * and the buffer is declared exhausted only when the window has reached the top of the log.
   */
  lemma OlderExtends(
    calendar: Calendar, b: Buffer, log: seq<Row>, k: nat, m: nat, tail: seq<Message>, fetching: bool,
    watermark: Option<int>)
    requires ValidLog(log) && Window(calendar, b, log, k, m, tail)
    ensures var next := Older(calendar, b, Some(log), fetching, watermark);
            && Window(calendar, next, log, PageStart(k), m, if k > 0 then RemoveEndMarker(tail) else tail)
            && next.pinned
            && (next.exhausted <==>
                b.exhausted || (k < CHAT_BACKLOG_PAGE && !fetching && ReachedWatermark(watermark, Some(log[0].ms))))
  {
    hide Query, RemoveEndMarker, OldestCursor, OldestMs, ValidLog, WithPage, Headed;
    WindowCursor(calendar, b, log, k, m, tail);
    PageRows(log, k);
    var j := PageStart(k);
    var next := Older(calendar, b, Some(log), fetching, watermark);
    if k > 0 {
      PageExtends(calendar, log, j, k, m, tail);
    } else {
      EmptyPage(calendar, b.messages);
      assert log[j..k] == [];
    }
    WindowCursor(calendar, next, log, j, m, if k > 0 then RemoveEndMarker(tail) else tail);
  }

  lemma EmptyPage(calendar: Calendar, messages: seq<Message>)
    ensures WithPage(calendar, messages, []) == messages
  {
  }

  // ----- repeated loads -----

  function OlderTimes(calendar: Calendar, b: Buffer, log: seq<Row>, n: nat): Buffer
    decreases n
  {
    if n == 0 then b else OlderTimes(calendar, Older(calendar, b, Some(log), false, None), log, n - 1)
  }

  function StartAfter(k: nat, n: nat): nat { if k <= CHAT_BACKLOG_PAGE * n then 0 else k - CHAT_BACKLOG_PAGE * n }

  /**
   * Paging in steps is one load: after n loads the buffer shows the n pages above the window and the window, headed by
   * day as if all of it had been loaded at once.
   */
  lemma {:induction false} PagingIsOneLoad(
    calendar: Calendar, b: Buffer, log: seq<Row>, k: nat, m: nat, tail: seq<Message>, n: nat)
    requires ValidLog(log) && Window(calendar, b, log, k, m, tail)
    ensures Window(calendar, OlderTimes(calendar, b, log, n), log, StartAfter(k, n), m,
                   if n > 0 && k > 0 then RemoveEndMarker(tail) else tail)
    ensures k < CHAT_BACKLOG_PAGE * n ==> OlderTimes(calendar, b, log, n).exhausted
    decreases n
  {
    hide Window, Older, RemoveEndMarker, ValidLog;
    if n > 0 {
      OlderExtends(calendar, b, log, k, m, tail, false, None);
      var next := Older(calendar, b, Some(log), false, None);
      var rest := if k > 0 then RemoveEndMarker(tail) else tail;
      PagingIsOneLoad(calendar, next, log, PageStart(k), m, rest, n - 1);
      RemoveTwice(tail);
      if next.exhausted {
        StaysExhausted(calendar, next, log, n - 1);
      }
    }
  }

  lemma OlderStaysExhausted(calendar: Calendar, b: Buffer, log: seq<Row>)
    ensures b.exhausted ==> Older(calendar, b, Some(log), false, None).exhausted
  {
    hide Query, WithPage, OldestCursor, OldestMs;
  }

  lemma {:induction false} StaysExhausted(calendar: Calendar, b: Buffer, log: seq<Row>, n: nat)
    requires b.exhausted
    ensures OlderTimes(calendar, b, log, n).exhausted
    decreases n
  {
    hide Older;
    if n > 0 {
      OlderStaysExhausted(calendar, b, log);
      StaysExhausted(calendar, Older(calendar, b, Some(log), false, None), log, n - 1);
    }
  }

  lemma {:induction false} RemoveTwice(messages: seq<Message>)
    ensures RemoveEndMarker(RemoveEndMarker(messages)) == RemoveEndMarker(messages)
  {
    if messages != [] {
      RemoveTwice(messages[1..]);
      RemoveEndMarkerConcat(Kept(messages[0]), RemoveEndMarker(messages[1..]));
      assert RemoveEndMarker(Kept(messages[0])) == Kept(messages[0]) by {
        NoMarkerStays(Kept(messages[0]));
      }
    }
  }

  /** Rows logged above or below the window do not disturb it. */
  lemma GrowthKeepsWindow(
    calendar: Calendar, b: Buffer, log: seq<Row>, k: nat, m: nat, tail: seq<Message>, above: seq<Row>, below: seq<Row>)
    requires Window(calendar, b, log, k, m, tail)
    ensures Window(calendar, b, above + log[k..m] + below, |above|, |above| + m - k, tail)
  {
    assert (above + log[k..m] + below)[|above|..|above| + m - k] == log[k..m];
  }

  // ----- the seed -----

  /** A first seed shows the newest rows of the log, and the end marker below them. */
  lemma SeedOpensWindow(calendar: Calendar, b: Buffer, log: seq<Row>, limit: nat, now: int)
    requires !b.kind.OtherBuffer? && b.messages == [] && limit > 0 && log != []
    ensures var next := Seeded(calendar, b, Some(log), limit, now);
            var k := if |log| <= limit then 0 else |log| - limit;
            Window(calendar, next, log, k, |log|, [EndMarker(now)]) && (next.exhausted <==> |log| < limit)
  {
    SelectAll(log);
    var k := if |log| <= limit then 0 else |log| - limit;
    assert log[k..|log|] == Last(log, limit);
    assert forall rows: seq<Message> :: rows + [EndMarker(now)] + [] == rows + [EndMarker(now)];
  }

  /** Seeding is idempotent across reconnects: a seed that put anything in the buffer is the last one. */
  lemma SeedOnce(
    calendar: Calendar, b: Buffer, log: Option<seq<Row>>, limit: nat, now: int,
    log2: Option<seq<Row>>, limit2: nat, now2: int)
    ensures var once := Seeded(calendar, b, log, limit, now);
            once != b ==> Seeded(calendar, once, log2, limit2, now2) == once
  {
    hide Headed, Query;
    var once := Seeded(calendar, b, log, limit, now);
    if once != b {
      assert EndMarker(now) in once.messages && ProvesSeed(EndMarker(now));
    }
  }

  function Second(ms: int): int { ms / 1000 }

  /**
   * What a seed of a buffer with live lines may fetch: exactly the rows of seconds before the second of its oldest real
   * line.
   */
  lemma SeedCursorIsFloored(messages: seq<Message>, row: Row)
    requires OldestReal(messages).Some? && !AlreadySeeded(messages) && row.id > 0 && row.seconds == Second(row.ms)
    ensures SeedPlanFor(messages).Fetch?
    ensures Selected(row, SeedPlanFor(messages).cursor) <==> Second(row.ms) < Second(OldestReal(messages).value.ms)
  {
    hide OldestReal, AlreadySeeded;
  }

  /** The log's copy of a live line, stored with its millisecond or, in an old database, floored to the second. */
  predicate CopyOf(row: Row, line: Message) { row.ms == line.ms || row.ms == line.ms / 1000 * 1000 }

  /**
   * Seeding around live lines: the stored copy of a live line is in what may be fetched exactly when the line's second
   * is before the oldest line's. So in a buffer in time order no live line is repeated, floored copies included.
   */
  lemma SeedSkipsLiveLines(messages: seq<Message>, line: Message, row: Row)
    requires OldestReal(messages).Some? && !AlreadySeeded(messages) && row.id > 0 && row.seconds == Second(row.ms)
    requires line in messages && !IsSynthetic(line) && CopyOf(row, line)
    ensures SeedPlanFor(messages).Fetch?
    ensures Selected(row, SeedPlanFor(messages).cursor) <==> Second(line.ms) < Second(OldestReal(messages).value.ms)
    ensures InTimeOrder(messages) ==> !Selected(row, SeedPlanFor(messages).cursor)
  {
    SeedCursorIsFloored(messages, row);
    if InTimeOrder(messages) {
      OldestIsOldest(messages, line);
    }
  }

  predicate InTimeOrder(messages: seq<Message>) {
    forall i, j | 0 <= i < j < |messages| && !IsSynthetic(messages[i]) && !IsSynthetic(messages[j]) ::
      messages[i].ms <= messages[j].ms
  }

  lemma {:induction false} OldestIsOldest(messages: seq<Message>, line: Message)
    requires InTimeOrder(messages) && line in messages && !IsSynthetic(line)
    ensures OldestReal(messages).Some? && OldestReal(messages).value.ms <= line.ms
  {
    if IsSynthetic(messages[0]) {
      var rest := messages[1..];
      assert forall i | 0 <= i < |rest| :: rest[i] == messages[i + 1];
      OldestIsOldest(rest, line);
    }
  }

  // ----- nothing real is lost -----

  function Real(messages: seq<Message>): seq<Message> {
    if messages == [] then []
    else (if IsSynthetic(messages[0]) then [] else [messages[0]]) + Real(messages[1..])
  }

  function AllStored(rows: seq<Row>): seq<Message> {
    if rows == [] then [] else [Stored(rows[0])] + AllStored(rows[1..])
  }

  lemma {:induction false} RealConcat(a: seq<Message>, b: seq<Message>)
    ensures Real(a + b) == Real(a) + Real(b)
  {
    if a == [] {
      EmptyConcat(b);
      assert a + b == b;
    } else {
      TailConcat(a, b);
      RealConcat(a[1..], b);
      Associative(if IsSynthetic(a[0]) then [] else [a[0]], Real(a[1..]), Real(b));
    }
  }

  lemma {:induction false} RealOfHeaded(calendar: Calendar, rows: seq<Row>, last: Option<int>)
    ensures Real(Headed(calendar, rows, last)) == AllStored(rows)
    decreases |rows|
  {
    if rows != [] {
      var day := Some(DayOf(calendar, rows[0]));
      RealOfHeaded(calendar, rows[1..], day);
      RealConcat(Heading(calendar, rows[0], last), Headed(calendar, rows[1..], day));
      RealOfHeading(calendar, rows[0], last);
    }
  }

  lemma RealOfHeading(calendar: Calendar, row: Row, last: Option<int>)
    ensures Real(Heading(calendar, row, last)) == [Stored(row)]
  {
    assert [Separator(row.ms), Stored(row)][1..] == [Stored(row)];
    assert Real([Stored(row)]) == [Stored(row)] + Real([]);
  }

  lemma {:induction false} RealWithoutMarker(messages: seq<Message>)
    ensures Real(RemoveEndMarker(messages)) == Real(messages)
  {
    if messages != [] {
      RealWithoutMarker(messages[1..]);
      RealConcat(Kept(messages[0]), RemoveEndMarker(messages[1..]));
      assert Real([messages[0]]) == (if IsSynthetic(messages[0]) then [] else [messages[0]]) + Real([]);
    }
  }

  /** Whatever the buffer held and whatever page comes, an older load only adds the page's rows above its real lines. */
  lemma OlderKeepsRealLines(calendar: Calendar, b: Buffer, log: seq<Row>, fetching: bool, watermark: Option<int>)
    ensures var page := Query(log, OldestCursor(b.messages), CHAT_BACKLOG_PAGE);
            Real(Older(calendar, b, Some(log), fetching, watermark).messages) == AllStored(page) + Real(b.messages)
  {
    hide Query, OldestCursor, Headed, RemoveEndMarker;
    var page := Query(log, OldestCursor(b.messages), CHAT_BACKLOG_PAGE);
    var rest := WithoutRepeatedHead(calendar, b.messages, page);
    RealWithoutHead(calendar, b.messages, page);
    RealWithoutMarker(rest);
    RealOfHeaded(calendar, page, None);
    RealConcat(Headed(calendar, page, None), if page == [] then rest else RemoveEndMarker(rest));
  }

  lemma RealWithoutHead(calendar: Calendar, messages: seq<Message>, rows: seq<Row>)
    ensures Real(WithoutRepeatedHead(calendar, messages, rows)) == Real(messages)
  {
  }

  /** The rows a window shows are the log's own, each once and in the log's order. */
  lemma WindowRows(calendar: Calendar, b: Buffer, log: seq<Row>, k: nat, m: nat, tail: seq<Message>)
    requires ValidLog(log) && Window(calendar, b, log, k, m, tail)
    ensures Real(b.messages) == AllStored(log[k..m]) + Real(tail)
    ensures forall i, j | k <= i < j < m :: log[i].id != log[j].id || log[i].ms < log[j].ms
  {
    RealOfHeaded(calendar, log[k..m], None);
    RealConcat(Headed(calendar, log[k..m], None), tail);
    assert forall i, j | k <= i < j < m :: Backlogs.Before(log[i], log[j]);
  }

  // ----- paging any buffer -----

  lemma {:induction false} OldestRealIsFirst(messages: seq<Message>)
    ensures OldestReal(messages) == if Real(messages) == [] then None else Some(Real(messages)[0])
  {
    if messages != [] {
      OldestRealIsFirst(messages[1..]);
    }
  }

  lemma {:induction false} AllStoredConcat(a: seq<Row>, b: seq<Row>)
    ensures AllStored(a + b) == AllStored(a) + AllStored(b)
  {
    if a == [] {
      EmptyConcat(AllStored(b));
      assert a + b == b;
    } else {
      TailConcat(a, b);
      AllStoredConcat(a[1..], b);
      Associative([Stored(a[0])], AllStored(a[1..]), AllStored(b));
    }
  }

  /** The oldest real line of the buffer is row `k` of the log; nothing is asked of the lines below it. */
  predicate StartsAt(b: Buffer, log: seq<Row>, k: nat) {
    k < |log| && OldestReal(b.messages) == Some(Stored(log[k]))
  }

  /** One older load: the page goes above the real lines, and the buffer is exhausted only at the top of the log. */
  lemma OlderAddsPage(
    calendar: Calendar, b: Buffer, log: seq<Row>, k: nat, fetching: bool, watermark: Option<int>)
    requires ValidLog(log) && StartsAt(b, log, k)
    ensures var next := Older(calendar, b, Some(log), fetching, watermark);
            && StartsAt(next, log, PageStart(k)) && next.pinned
            && Real(next.messages) == AllStored(log[PageStart(k)..k]) + Real(b.messages)
            && (next.exhausted <==>
                b.exhausted || (k < CHAT_BACKLOG_PAGE && !fetching && ReachedWatermark(watermark, Some(log[0].ms))))
  {
    hide Query, WithPage, ValidLog, OldestReal, Real;
    var next := Older(calendar, b, Some(log), fetching, watermark);
    PageRows(log, k);
    OlderKeepsRealLines(calendar, b, log, fetching, watermark);
    OldestRealIsFirst(b.messages);
    OldestRealIsFirst(next.messages);
    AllStoredFirst(log, PageStart(k), k);
  }

  lemma AllStoredFirst(log: seq<Row>, j: nat, k: nat)
    requires j <= k < |log|
    ensures if j == k then AllStored(log[j..k]) == []
            else AllStored(log[j..k]) != [] && AllStored(log[j..k])[0] == Stored(log[j])
  {
  }

  /**
   * Lossless paging, of any buffer whose oldest real line came from the log, trimmed or not: n loads put the n pages
   * above it there, each row once and in order, and leave the real lines as they were. The buffer is then exhausted
   * exactly when the loads reached past the first row of the log, or it was before.
   */
  lemma {:induction false} PagingIsLossless(calendar: Calendar, b: Buffer, log: seq<Row>, k: nat, n: nat)
    requires ValidLog(log) && StartsAt(b, log, k)
    ensures var next := OlderTimes(calendar, b, log, n);
            && StartsAt(next, log, StartAfter(k, n))
            && Real(next.messages) == AllStored(log[StartAfter(k, n)..k]) + Real(b.messages)
            && (next.exhausted <==> b.exhausted || k < CHAT_BACKLOG_PAGE * n)
    decreases n
  {
    hide Older, ValidLog, OldestReal, Real, AllStored;
    if n == 0 {
      NothingAdded(log, k, Real(b.messages));
    } else {
      var next := Older(calendar, b, Some(log), false, None);
      OlderAddsPage(calendar, b, log, k, false, None);
      PagingIsLossless(calendar, next, log, PageStart(k), n - 1);
      PagesJoin(log, StartAfter(k, n), PageStart(k), k, Real(b.messages));
    }
  }

  lemma NothingAdded(log: seq<Row>, k: nat, below: seq<Message>)
    requires k <= |log|
    ensures AllStored(log[k..k]) + below == below
  {
  }

  lemma PagesJoin(log: seq<Row>, i: nat, j: nat, k: nat, below: seq<Message>)
    requires i <= j <= k <= |log|
    ensures AllStored(log[i..j]) + (AllStored(log[j..k]) + below) == AllStored(log[i..k]) + below
  {
    hide AllStored;
    assert log[i..j] + log[j..k] == log[i..k];
    AllStoredConcat(log[i..j], log[j..k]);
    Associative(AllStored(log[i..j]), AllStored(log[j..k]), below);
  }

  /** Trimming drops the oldest real lines. */
  lemma {:induction false} RealAfterTrim(messages: seq<Message>, d: nat)
    requires d <= |messages|
    ensures |Real(messages[d..])| <= |Real(messages)|
    ensures Real(messages[d..]) == Real(messages)[|Real(messages)| - |Real(messages[d..])|..]
  {
    if d == 0 {
      assert messages[0..] == messages;
    } else {
      RealAfterTrim(messages[1..], d - 1);
      assert messages[1..][d - 1..] == messages[d..];
      var first := if IsSynthetic(messages[0]) then [] else [messages[0]];
      var rest := Real(messages[1..]);
      assert forall n | 0 <= n <= |rest| :: (first + rest)[|first| + n..] == rest[n..];
    }
  }

  lemma {:induction false} AllStoredFrom(rows: seq<Row>, n: nat)
    requires n <= |rows|
    ensures |AllStored(rows)| == |rows| && AllStored(rows)[n..] == AllStored(rows[n..])
  {
    if n == 0 {
      AllStoredLength(rows);
      assert rows[0..] == rows;
    } else {
      AllStoredFrom(rows[1..], n - 1);
      assert rows[1..][n - 1..] == rows[n..];
      assert ([Stored(rows[0])] + AllStored(rows[1..]))[n..] == AllStored(rows[1..])[n - 1..];
    }
  }

  lemma {:induction false} AllStoredLength(rows: seq<Row>)
    ensures |AllStored(rows)| == |rows|
  {
    if rows != [] {
      AllStoredLength(rows[1..]);
    }
  }

  /**
   * What trimming or collapsing dropped comes back: a buffer that showed the rows from `k` to `m`, cut anywhere above
   * its last row, shows after n loads the rows from n pages above the cut down to `m`, as if it had never been cut
   * there.
   */
  lemma ReloadsAfterTrim(
    calendar: Calendar, b: Buffer, log: seq<Row>, k: nat, m: nat, below: seq<Message>, d: nat, n: nat)
    requires ValidLog(log) && k < m <= |log| && Real(b.messages) == AllStored(log[k..m]) + below
    requires d <= |b.messages| && |below| < |Real(b.messages[d..])|
    ensures var cut := b.(messages := b.messages[d..], exhausted := false);
            var i := m + |below| - |Real(cut.messages)|;
            k <= i < m && Real(OlderTimes(calendar, cut, log, n).messages) ==
              AllStored(log[StartAfter(i, n)..m]) + below
  {
    hide Real, AllStored, ValidLog, OlderTimes, OldestReal;
    var cut := b.(messages := b.messages[d..], exhausted := false);
    RealAfterTrim(b.messages, d);
    AllStoredLength(log[k..m]);
    var i := m + |below| - |Real(cut.messages)|;
    AllStoredFrom(log[k..m], i - k);
    assert log[k..m][i - k..] == log[i..m];
    assert (AllStored(log[k..m]) + below)[i - k..] == AllStored(log[k..m])[i - k..] + below;
    assert Real(cut.messages) == AllStored(log[i..m]) + below;
    FirstStored(log, i, m);
    OldestRealIsFirst(cut.messages);
    PagingIsLossless(calendar, cut, log, i, n);
    PagesJoin(log, StartAfter(i, n), i, m, below);
  }

  lemma FirstStored(log: seq<Row>, i: nat, m: nat)
    requires i < m <= |log|
    ensures |AllStored(log[i..m])| > 0 && AllStored(log[i..m])[0] == Stored(log[i])
  {
  }

  /**
   * The headings after a trim: where a buffer was cut just above a row, the next page heads it as one load would
   * exactly when the row before it is of the same day. Only a cut between a date separator and the day's first row
   * loses a heading.
   */
  lemma TrimmedHeading(calendar: Calendar, log: seq<Row>, j: nat, k: nat, m: nat, tail: seq<Message>)
    requires ValidLog(log) && j < k < m <= |log|
    ensures WithPage(calendar, Headed(calendar, log[k..m], Some(DayOf(calendar, log[k]))) + tail, log[j..k]) ==
              Headed(calendar, log[j..m], None) + RemoveEndMarker(tail) <==>
            DayOf(calendar, log[k - 1]) == DayOf(calendar, log[k])
  {
    hide RemoveEndMarker, Headed, ValidLog;
    var page, rows := log[j..k], log[k..m];
    var own, before := Some(DayOf(calendar, log[k])), Some(DayOf(calendar, log[k - 1]));
    assert page + rows == log[j..m] && page[|page| - 1] == log[k - 1];
    var above := Headed(calendar, page, None);
    HeadStays(calendar, page, rows, tail);
    HeadedConcat(calendar, page, rows, None);
    RemoveFromHeaded(calendar, rows, own, tail);
    Associative(above, Headed(calendar, rows, before), RemoveEndMarker(tail));
    if own != before {
      HeadedAfter(calendar, rows, own.value);
      HeadedAfter(calendar, rows, before.value);
      assert |Headed(calendar, rows, own)| < |Headed(calendar, rows, before)|;
    }
  }

  lemma HeadStays(calendar: Calendar, page: seq<Row>, rows: seq<Row>, tail: seq<Message>)
    requires rows != []
    ensures var messages := Headed(calendar, rows, Some(DayOf(calendar, rows[0]))) + tail;
            WithoutRepeatedHead(calendar, messages, page) == messages
  {
  }

  // ----- scrolling -----

  /**
   * One call of the pager: the rows that were logged above and below since the last one, by a batch from the server or
   * live, the live lines that came into the buffer, and the state of the connection and of the view that it finds.
   */
  datatype Tick = Tick(
    above: seq<Row>, below: seq<Row>, live: seq<Message>, tracker: Tracker, server: Server, scroll: Scroll)

  function Grown(log: seq<Row>, tick: Tick): seq<Row> { tick.above + log + tick.below }

  /** A batch that brought rows makes the buffer pageable again (src/irc/batch.rs:501). */
  function Arrived(b: Buffer, tick: Tick): Buffer {
    b.(messages := b.messages + tick.live, exhausted := b.exhausted && tick.above == [])
  }

  function TickBuffer(calendar: Calendar, b: Buffer, log: seq<Row>, tick: Tick): Buffer {
    MaybeOlder(calendar, Arrived(b, tick), Some(Grown(log, tick)), tick.tracker, tick.server, tick.scroll).buffer
  }

  function Ticks(calendar: Calendar, b: Buffer, log: seq<Row>, ticks: seq<Tick>): Buffer
    decreases |ticks|
  {
    if ticks == [] then b
    else Ticks(calendar, TickBuffer(calendar, b, log, ticks[0]), Grown(log, ticks[0]), ticks[1..])
  }

  function GrownAll(log: seq<Row>, ticks: seq<Tick>): seq<Row>
    decreases |ticks|
  {
    if ticks == [] then log else GrownAll(Grown(log, ticks[0]), ticks[1..])
  }

  /** How many rows came above, and which real lines came below. */
  function Above(ticks: seq<Tick>): nat { if ticks == [] then 0 else |ticks[0].above| + Above(ticks[1..]) }

  function Live(ticks: seq<Tick>): seq<Message> {
    if ticks == [] then [] else Real(ticks[0].live) + Live(ticks[1..])
  }

  predicate Loads(b: Buffer, tick: Tick) { ReadsLog(Arrived(b, tick), tick.tracker, tick.server, tick.scroll) }

  /** Where in the log the buffer starts after the ticks, if it started at `k`. */
  function StartOf(calendar: Calendar, b: Buffer, log: seq<Row>, k: nat, ticks: seq<Tick>): (start: nat)
    ensures start <= k + Above(ticks)
    decreases |ticks|
  {
    if ticks == [] then k
    else
      var row := |ticks[0].above| + k;
      StartOf(calendar, TickBuffer(calendar, b, log, ticks[0]), Grown(log, ticks[0]),
              if Loads(b, ticks[0]) then PageStart(row) else row, ticks[1..])
  }

  predicate AllValid(log: seq<Row>, ticks: seq<Tick>)
    decreases |ticks|
  {
    ticks == [] || (ValidLog(Grown(log, ticks[0])) && AllValid(Grown(log, ticks[0]), ticks[1..]))
  }

  lemma {:induction false} OldestRealAppends(messages: seq<Message>, live: seq<Message>)
    requires OldestReal(messages).Some?
    ensures OldestReal(messages + live) == OldestReal(messages)
  {
    TailConcat(messages, live);
    if IsSynthetic(messages[0]) {
      OldestRealAppends(messages[1..], live);
    }
  }

  lemma ArrivedStarts(b: Buffer, log: seq<Row>, k: nat, tick: Tick)
    requires StartsAt(b, log, k)
    ensures StartsAt(Arrived(b, tick), Grown(log, tick), |tick.above| + k)
    ensures Real(Arrived(b, tick).messages) == Real(b.messages) + Real(tick.live)
  {
    OldestRealAppends(b.messages, tick.live);
    RealConcat(b.messages, tick.live);
  }

  /** A tick that reads the log is an older load; any other leaves the lines and their exhaustion alone. */
  lemma TickIsOlder(calendar: Calendar, b: Buffer, log: seq<Row>, tick: Tick)
    ensures var next := TickBuffer(calendar, b, log, tick);
            if Loads(b, tick)
            then exists fetching: bool ::
                   next == Older(calendar, Arrived(b, tick), Some(Grown(log, tick)), fetching, tick.tracker.ingested)
            else next == Arrived(b, tick).(pinned := next.pinned)
  {
    hide Query, WithPage, OldestCursor, OldestMs, AskServer, Arrived, Grown;
    if Loads(b, tick) {
      var at, log2 := Arrived(b, tick), Grown(log, tick);
      var rows := Query(log2, OldestCursor(at.messages), CHAT_BACKLOG_PAGE);
      var paged := at.(messages := WithPage(calendar, at.messages, rows), pinned := true);
      var fetching := AskServer(paged, tick.tracker, tick.server).handled;
      assert TickBuffer(calendar, b, log, tick) == Older(calendar, at, Some(log2), fetching, tick.tracker.ingested);
    }
  }

  /** One tick: the lines that arrived go below, and a page, if one is loaded, above. */
  lemma TickAdds(calendar: Calendar, b: Buffer, log: seq<Row>, k: nat, tick: Tick)
    requires ValidLog(Grown(log, tick)) && StartsAt(b, log, k)
    ensures var next, grown, row := TickBuffer(calendar, b, log, tick), Grown(log, tick), |tick.above| + k;
            var start := if Loads(b, tick) then PageStart(row) else row;
            && StartsAt(next, grown, start) && next.kind == b.kind
            && Real(next.messages) == AllStored(grown[start..row]) + (Real(b.messages) + Real(tick.live))
            && (next.exhausted ==> Arrived(b, tick).exhausted || start == 0)
            && (!Loads(b, tick) ==> next.messages == b.messages + tick.live &&
                                    next.exhausted == Arrived(b, tick).exhausted)
  {
    hide ValidLog, OldestReal, Real, AllStored, TickBuffer, Older, ReadsLog, Grown;
    var grown, row := Grown(log, tick), |tick.above| + k;
    ArrivedStarts(b, log, k, tick);
    TickIsOlder(calendar, b, log, tick);
    var next := TickBuffer(calendar, b, log, tick);
    if Loads(b, tick) {
      var fetching :| next == Older(calendar, Arrived(b, tick), Some(grown), fetching, tick.tracker.ingested);
      OlderAddsPage(calendar, Arrived(b, tick), grown, row, fetching, tick.tracker.ingested);
      OlderKind(calendar, Arrived(b, tick), grown, fetching, tick.tracker.ingested);
    } else {
      NothingAdded(grown, row, Real(b.messages) + Real(tick.live));
    }
  }

  lemma OlderKind(calendar: Calendar, b: Buffer, log: seq<Row>, fetching: bool, watermark: Option<int>)
    ensures Older(calendar, b, Some(log), fetching, watermark).kind == b.kind
  {
    hide Query, WithPage, OldestCursor, OldestMs;
  }

  /** The rows of the log stay where they are, below those that came above. */
  lemma {:induction false} GrownHolds(log: seq<Row>, ticks: seq<Tick>, i: nat, j: nat)
    requires i <= j <= |log|
    ensures Above(ticks) + j <= |GrownAll(log, ticks)|
    ensures GrownAll(log, ticks)[Above(ticks) + i..Above(ticks) + j] == log[i..j]
    decreases |ticks|
  {
    if ticks != [] {
      var a := |ticks[0].above|;
      assert Grown(log, ticks[0])[a + i..a + j] == log[i..j];
      GrownHolds(Grown(log, ticks[0]), ticks[1..], a + i, a + j);
    }
  }

  /** What the functions of a run are for its first tick and the rest. */
  lemma Unfolded(calendar: Calendar, b: Buffer, log: seq<Row>, k: nat, ticks: seq<Tick>)
    requires ticks != []
    ensures var tick, rest, next := ticks[0], ticks[1..], TickBuffer(calendar, b, log, ticks[0]);
            var grown, row := Grown(log, tick), |tick.above| + k;
            && Ticks(calendar, b, log, ticks) == Ticks(calendar, next, grown, rest)
            && GrownAll(log, ticks) == GrownAll(grown, rest)
            && StartOf(calendar, b, log, k, ticks) ==
                 StartOf(calendar, next, grown, if Loads(b, tick) then PageStart(row) else row, rest)
            && Above(ticks) == |tick.above| + Above(rest) && Live(ticks) == Real(tick.live) + Live(rest)
            && (AllValid(log, ticks) ==> ValidLog(grown) && AllValid(grown, rest))
  {
    hide TickBuffer, Grown, Loads, ValidLog, Real;
  }

  /** Before any tick. */
  lemma Untouched(calendar: Calendar, b: Buffer, log: seq<Row>, k: nat)
    requires k <= |log|
    ensures Ticks(calendar, b, log, []) == b && GrownAll(log, []) == log && StartOf(calendar, b, log, k, []) == k
    ensures Above([]) == 0 && AllStored(log[k..k]) + Real(b.messages) + Live([]) == Real(b.messages)
  {
  }

  /**
   * Scrolling up is lossless: whatever the connection and the view are at each tick, and whatever is logged above the
   * window and below it in between, the lines are the rows of the log from where the buffer now starts, above the lines
   * there were, above the lines that came; and the buffer becomes exhausted only once the whole log is shown.
   */
  lemma {:induction false} ScrollingIsLossless(
    calendar: Calendar, b: Buffer, log: seq<Row>, k: nat, ticks: seq<Tick>)
    requires AllValid(log, ticks) && StartsAt(b, log, k)
    ensures var next, final := Ticks(calendar, b, log, ticks), GrownAll(log, ticks);
            var start := StartOf(calendar, b, log, k, ticks);
            && StartsAt(next, final, start) && Above(ticks) + k <= |final|
            && Real(next.messages) == AllStored(final[start..Above(ticks) + k]) + Real(b.messages) + Live(ticks)
            && (next.exhausted ==> start == 0 || (b.exhausted && k > 0))
    decreases |ticks|
  {
    hide *;
    StartIsThere(b, log, k);
    if ticks == [] {
      Untouched(calendar, b, log, k);
    } else {
      Unfolded(calendar, b, log, k, ticks);
      var tick, rest := ticks[0], ticks[1..];
      var next, grown, row := TickBuffer(calendar, b, log, tick), Grown(log, tick), |tick.above| + k;
      var start := if Loads(b, tick) then PageStart(row) else row;
      TickAdds(calendar, b, log, k, tick);
      ExhaustedBefore(b, k, tick);
      PageStartIsAbove(row);
      ScrollingIsLossless(calendar, next, grown, start, rest);
      GrownLength(log, tick);
      GrownHolds(grown, rest, start, row);
      var final, end := GrownAll(grown, rest), StartOf(calendar, next, grown, start, rest);
      PagesJoinLive(final, end, Above(rest) + start, Above(rest) + row, Real(b.messages), Real(tick.live), Live(rest));
    }
  }

  lemma StartIsThere(b: Buffer, log: seq<Row>, k: nat)
    requires StartsAt(b, log, k)
    ensures k < |log|
  {
  }

  lemma PageStartIsAbove(row: nat)
    ensures PageStart(row) <= row && (row == 0 ==> PageStart(row) == 0)
  {
  }

  /** A buffer is exhausted after an arrival only if it was before, and nothing came above. */
  lemma ExhaustedBefore(b: Buffer, k: nat, tick: Tick)
    ensures Arrived(b, tick).exhausted ==> b.exhausted && tick.above == []
  {
  }

  lemma GrownLength(log: seq<Row>, tick: Tick)
    ensures |Grown(log, tick)| == |tick.above| + |log| + |tick.below|
  {
  }

  lemma PagesJoinLive(
    log: seq<Row>, i: nat, j: nat, k: nat, below: seq<Message>, live: seq<Message>, later: seq<Message>)
    requires i <= j <= k <= |log|
    ensures AllStored(log[i..j]) + (AllStored(log[j..k]) + (below + live)) + later ==
            AllStored(log[i..k]) + below + (live + later)
  {
    hide AllStored;
    PagesJoin(log, i, j, k, below + live);
    var rows := AllStored(log[i..k]);
    assert rows + (below + live) + later == rows + below + (live + later);
  }

  /** A tick that may load: at the top of a chat buffer of the log, with no request in flight. */
  predicate Willing(b: Buffer, tick: Tick) {
    && !tick.scroll.browsing && tick.scroll.atTop && !b.kind.OtherBuffer?
    && tick.tracker.inFlight.None? && !Owned(b.kind, tick.server)
  }

  /** Where the buffer would start if every tick loaded a page. */
  function FirstShown(k: nat, ticks: seq<Tick>): nat
    decreases |ticks|
  {
    if ticks == [] then k else FirstShown(PageStart(|ticks[0].above| + k), ticks[1..])
  }

  /** At some tick the buffer was full. */
  predicate FillsUp(calendar: Calendar, b: Buffer, log: seq<Row>, ticks: seq<Tick>)
    decreases |ticks|
  {
    ticks != [] &&
    (|Arrived(b, ticks[0]).messages| >= PINNED_BACKLOG_CAP ||
     FillsUp(calendar, TickBuffer(calendar, b, log, ticks[0]), Grown(log, ticks[0]), ticks[1..]))
  }

  /**
   * How far scrolling reaches: at willing ticks a page is loaded each time, until the log ends, unless the buffer was
   * exhausted to begin with or has filled up to the memory bound. That bound is the only thing between the user and the
   * first row.
   */
  lemma {:induction false} ScrollingReaches(calendar: Calendar, b: Buffer, log: seq<Row>, k: nat, ticks: seq<Tick>)
    requires AllValid(log, ticks) && StartsAt(b, log, k) && (b.exhausted ==> k == 0)
    requires forall tick | tick in ticks :: Willing(b, tick)
    ensures FillsUp(calendar, b, log, ticks) || StartOf(calendar, b, log, k, ticks) == FirstShown(k, ticks)
    decreases |ticks|
  {
    hide ValidLog, OldestReal, Real, AllStored, TickBuffer, Grown;
    if ticks != [] {
      var tick, rest := ticks[0], ticks[1..];
      assert tick in ticks && forall t | t in rest :: t in ticks;
      TickAdds(calendar, b, log, k, tick);
      if |Arrived(b, tick).messages| < PINNED_BACKLOG_CAP {
        var row := |tick.above| + k;
        var start := if Loads(b, tick) then PageStart(row) else row;
        assert Loads(b, tick) <==> !Arrived(b, tick).exhausted;
        ScrollingReaches(calendar, TickBuffer(calendar, b, log, tick), Grown(log, tick), start, rest);
      }
    }
  }

  /** With nothing logged above meanwhile, that is the first row after as many ticks as there are pages. */
  lemma {:induction false} FirstShownIs(k: nat, ticks: seq<Tick>)
    requires Above(ticks) == 0
    ensures FirstShown(k, ticks) == StartAfter(k, |ticks|)
    decreases |ticks|
  {
    if ticks != [] {
      FirstShownIs(PageStart(k), ticks[1..]);
    }
  }

  // ----- the memory bound -----

  lemma {:induction false} HeadedAtMost(calendar: Calendar, rows: seq<Row>, last: Option<int>)
    ensures |Headed(calendar, rows, last)| <= 2 * |rows|
    decreases |rows|
  {
    if rows != [] {
      HeadedAtMost(calendar, rows[1..], Some(DayOf(calendar, rows[0])));
    }
  }

  lemma {:induction false} RemovingShrinks(messages: seq<Message>)
    ensures |RemoveEndMarker(messages)| <= |messages|
  {
    if messages != [] {
      RemovingShrinks(messages[1..]);
    }
  }

  lemma OlderAtMost(calendar: Calendar, b: Buffer, log: seq<Row>, fetching: bool, watermark: Option<int>)
    ensures |Older(calendar, b, Some(log), fetching, watermark).messages| <= |b.messages| + 2 * CHAT_BACKLOG_PAGE
  {
    hide Select, Headed, RemoveEndMarker, OldestCursor, OldestMs;
    var rows := Query(log, OldestCursor(b.messages), CHAT_BACKLOG_PAGE);
    HeadedAtMost(calendar, rows, None);
    RemovingShrinks(WithoutRepeatedHead(calendar, b.messages, rows));
  }

  function Lines(ticks: seq<Tick>): nat { if ticks == [] then 0 else |ticks[0].live| + Lines(ticks[1..]) }

  /** Scrolling up never fills a buffer beyond the bound by more than the last page, its headings and the live lines. */
  lemma {:induction false} ScrollingIsBounded(
    calendar: Calendar, b: Buffer, log: seq<Row>, ticks: seq<Tick>, lines: nat)
    requires |b.messages| < PINNED_BACKLOG_CAP + 2 * CHAT_BACKLOG_PAGE + lines
    ensures |Ticks(calendar, b, log, ticks).messages| <
            PINNED_BACKLOG_CAP + 2 * CHAT_BACKLOG_PAGE + lines + Lines(ticks)
    decreases |ticks|
  {
    hide TickBuffer, Older, Grown;
    if ticks != [] {
      var tick := ticks[0];
      var next := TickBuffer(calendar, b, log, tick);
      TickIsOlder(calendar, b, log, tick);
      if Loads(b, tick) {
        var fetching :|
          next == Older(calendar, Arrived(b, tick), Some(Grown(log, tick)), fetching, tick.tracker.ingested);
        OlderAtMost(calendar, Arrived(b, tick), Grown(log, tick), fetching, tick.tracker.ingested);
      }
      ScrollingIsBounded(calendar, next, Grown(log, tick), ticks[1..], lines + |tick.live|);
    }
  }

  // ----- requests -----

  /**
   * What a request to the server means: it goes out only for a channel or query whose history the server can serve and
   * has not run out of, when none is in flight and its rows would not be lost; and no further one goes out until it is
   * answered.
   */
  lemma OneRequestAtATime(
    calendar: Calendar, b: Buffer, log: Option<seq<Row>>, tracker: Tracker, server: Server, scroll: Scroll)
    ensures var step := MaybeOlder(calendar, b, log, tracker, server, scroll);
            && (step.request.Some? ==>
                && (b.kind.ChannelBuffer? || b.kind.QueryBuffer?)
                && server.capable && !tracker.exhausted && (server.logging || server.ownsHistory)
                && tracker.inFlight.None? && step.tracker == tracker.(inFlight := Some(step.request.value.limit)))
            && (step.request.None? ==> step.tracker == tracker)
            && (tracker.inFlight.Some? ==> step == Paging(b, tracker, None))
  {
    hide Query, WithPage, OldestCursor, OldestMs, AnchorFor, PageLimit;
  }

  /**
   * Where history is the server's, the log is never read: asking leaves the lines alone and keeps them from
   * collapsing.
   */
  lemma OwnedNeverReads(
    calendar: Calendar, b: Buffer, log: Option<seq<Row>>, tracker: Tracker, server: Server, scroll: Scroll)
    requires Owned(b.kind, server)
    ensures var step := MaybeOlder(calendar, b, log, tracker, server, scroll);
            step.buffer == b.(pinned := step.buffer.pinned) && (step.request.Some? ==> step.buffer.pinned)
  {
    hide AnchorFor, RequestAt, OlderAsking;
  }

  /**
   * The first request for a target with nothing stored or fetched asks for what is before the oldest line shown, with
   * that line's own reference where the server takes references.
   */
  lemma FirstRequestAsksAboveTheOldest(
    calendar: Calendar, b: Buffer, log: Option<seq<Row>>, tracker: Tracker, server: Server, scroll: Scroll)
    requires tracker.fetched.None? && (server.stored.None? || Owned(b.kind, server))
    ensures var step := MaybeOlder(calendar, b, log, tracker, server, scroll);
            step.request.Some? ==>
              OldestReal(step.buffer.messages).Some? &&
              var oldest := OldestReal(step.buffer.messages).value;
              match step.request.value.reference
              case ByTime(ms) => ms == oldest.ms
              case ByMsgId(msgid) => Some(msgid) == oldest.msgid && msgid != "" && server.msgidReferences
  {
    hide Query, WithPage, OldestReal, OldestCursor;
  }
}

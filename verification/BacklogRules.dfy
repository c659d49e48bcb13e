/**
 * When the backlog acts: exactly when a seed puts rows above live lines and which, when the pager reads the log, asks
 * the server and for what, and when a buffer counts as exhausted.
 */
module BacklogRules {
  import opened Wrappers
  import opened Backlogs
  import opened BacklogPaging

  // ----- the seed -----

  /** A row of the log or an end marker shows that the buffer was seeded. */
  predicate Unseeded(messages: seq<Message>) {
    forall m | m in messages :: !m.log.RowId? && !m.key.BacklogEnd?
  }

  /** The rows of seconds before that of the oldest line shown, or all of them. */
  predicate MayCome(messages: seq<Message>, row: Row) {
    OldestReal(messages).Some? ==> row.ms / 1000 < OldestReal(messages).value.ms / 1000
  }

  lemma SelectedForSeed(messages: seq<Message>, row: Row)
    requires Unseeded(messages) && row.id > 0 && row.seconds == row.ms / 1000
    ensures SeedPlanFor(messages).Fetch?
    ensures Selected(row, SeedPlanFor(messages).cursor) <==> MayCome(messages, row)
  {
    hide OldestReal;
    if OldestReal(messages).Some? {
      SeedCursorIsFloored(messages, row);
    }
  }

  /**
   * A seed around live lines: the newest rows, up to the limit, among those of earlier seconds go above all the lines
   * there were, each once and in order, and the marker between them; nothing else changes. `n` is how many rows of the
   * log are of earlier seconds.
   */
  lemma SeedGoesAbove(calendar: Calendar, b: Buffer, log: seq<Row>, limit: nat, now: int, n: nat)
    requires ValidLog(log) && !b.kind.OtherBuffer? && limit > 0 && Unseeded(b.messages) && n <= |log|
    requires forall i | 0 <= i < |log| :: MayCome(b.messages, log[i]) <==> i < n
    ensures var next := Seeded(calendar, b, Some(log), limit, now);
            var first := if n <= limit then 0 else n - limit;
            if n == 0 then next == b
            else
              && next == b.(messages := Headed(calendar, log[first..n], None) + [EndMarker(now)] + b.messages,
                            exhausted := n < limit)
              && Real(next.messages) == AllStored(log[first..n]) + Real(b.messages)
  {
    hide OldestReal, Real, Headed;
    var before := SeedPlanFor(b.messages).cursor;
    forall i | 0 <= i < |log|
      ensures Selected(log[i], before) <==> i < n
    {
      assert log[i] in log;
      SelectedForSeed(b.messages, log[i]);
    }
    NoRowsSeed(b.messages);
    SelectIsPrefix(log, before, n);
    var first := if n <= limit then 0 else n - limit;
    assert log[..n][first..] == log[first..n];
    assert Last(log[..n], limit) == log[first..n];
    RealConcat(Headed(calendar, log[first..n], None) + [EndMarker(now)], b.messages);
    RealConcat(Headed(calendar, log[first..n], None), [EndMarker(now)]);
    RealOfHeaded(calendar, log[first..n], None);
    MarkerIsNoLine(now, AllStored(log[first..n]));
  }

  /** A buffer that shows a row of the log, or an end marker, is not seeded again. */
  lemma SeededStays(calendar: Calendar, b: Buffer, log: Option<seq<Row>>, limit: nat, now: int)
    requires !Unseeded(b.messages)
    ensures Seeded(calendar, b, log, limit, now) == b
  {
    hide Headed, Query;
    assert AlreadySeeded(b.messages);
  }

  lemma {:induction false} OldestIsIn(messages: seq<Message>)
    ensures OldestReal(messages).Some? ==> OldestReal(messages).value in messages
  {
    if messages != [] && IsSynthetic(messages[0]) {
      OldestIsIn(messages[1..]);
    }
  }

  /**
   * Nor is it after any run of the pager, which removes the marker: whatever came above and below meanwhile, a
   * reconnect repeats no row.
   */
  lemma ReconnectSeedsNothing(
    calendar: Calendar, b: Buffer, log: seq<Row>, k: nat, ticks: seq<Tick>, again: Option<seq<Row>>, limit: nat,
    now: int)
    requires AllValid(log, ticks) && StartsAt(b, log, k)
    ensures var later := Ticks(calendar, b, log, ticks); Seeded(calendar, later, again, limit, now) == later
  {
    hide Ticks, OldestReal, AllValid, Seeded;
    ScrollingIsLossless(calendar, b, log, k, ticks);
    var later := Ticks(calendar, b, log, ticks);
    OldestIsIn(later.messages);
    SeededStays(calendar, later, again, limit, now);
  }

  lemma NoRowsSeed(messages: seq<Message>)
    requires Unseeded(messages)
    ensures SeedPlanFor(messages).Fetch?
  {
    hide OldestReal;
  }

  lemma MarkerIsNoLine(now: int, rows: seq<Message>)
    ensures Real([EndMarker(now)]) == [] && rows + Real([EndMarker(now)]) == rows
  {
    assert [EndMarker(now)][1..] == [];
  }

  // ----- headings -----

  /** The date of a row, in local time. */
  function DateOf(calendar: Calendar, row: Row): int { calendar(row.ms / 1000) }

  /** Row `i`, below a separator if it is the first or of another day than the row before it. */
  function Line(calendar: Calendar, rows: seq<Row>, i: nat): seq<Message>
    requires i < |rows|
  {
    var row := Message(Ordinary, rows[i].ms, RowId(rows[i].id), None, rows[i].text);
    if i == 0 || DateOf(calendar, rows[i - 1]) != DateOf(calendar, rows[i])
    then [Message(DateSeparator, rows[i].ms, NoId, None, ""), row] else [row]
  }

  function Lines(calendar: Calendar, rows: seq<Row>, n: nat): seq<Message>
    requires n <= |rows|
  {
    if n == 0 then [] else Lines(calendar, rows, n - 1) + Line(calendar, rows, n - 1)
  }

  lemma {:induction false} LinesAre(calendar: Calendar, rows: seq<Row>, n: nat)
    requires n <= |rows|
    ensures Headed(calendar, rows[..n], None) == Lines(calendar, rows, n)
  {
    if n > 0 {
      LinesAre(calendar, rows, n - 1);
      var last := [rows[n - 1]];
      assert rows[..n] == rows[..n - 1] + last && last[1..] == [];
      HeadedConcat(calendar, rows[..n - 1], last, None);
      var day := if n == 1 then None else Some(DateOf(calendar, rows[n - 2]));
      assert Headed(calendar, last, day) == Line(calendar, rows, n - 1) + [];
    }
  }

  /** Rows are shown in order, with a separator above the first of each day. */
  lemma HeadedIs(calendar: Calendar, rows: seq<Row>)
    ensures Headed(calendar, rows, None) == Lines(calendar, rows, |rows|)
  {
    LinesAre(calendar, rows, |rows|);
    assert rows[..|rows|] == rows;
  }

  // ----- asking the server -----

  predicate Chats(kind: Kind) { kind.ChannelBuffer? || kind.QueryBuffer? }

  /** Whose history it is: the server's, of a channel or query. */
  predicate Theirs(b: Buffer, server: Server) { server.ownsHistory && Chats(b.kind) }

  /** What a request refers to: how far the server was read, else the oldest row stored, else the oldest line shown. */
  predicate RefersTo(b: Buffer, tracker: Tracker, server: Server, ms: int, msgid: Option<string>) {
    if tracker.fetched.Some? then tracker.fetched == Some(Anchor(ms, msgid))
    else if server.stored.Some? && !Theirs(b, server) then server.stored == Some(Anchor(ms, msgid))
    else
      OldestReal(b.messages).Some? && ms == OldestReal(b.messages).value.ms
      && msgid == OldestReal(b.messages).value.msgid
  }

  /** As many as the server allows, up to a page. */
  predicate IsPage(limit: nat, maxPage: Option<nat>) {
    && 1 <= limit <= 200
    && (maxPage.Some? && 1 <= maxPage.value <= 200 ==> limit == maxPage.value)
    && (maxPage.None? || maxPage.value > 200 ==> limit == 200)
  }

  /**
   * The server is asked exactly if the buffer is a channel or query, the server can serve history and has some left,
   * the rows can be kept, no request is in flight, there is something to refer to, and no search holds requests back;
   * for what comes before that, by the server's own reference if it has one and takes it.
   */
  lemma ServerIsAskedIff(b: Buffer, tracker: Tracker, server: Server)
    ensures var asking := AskServer(b, tracker, server);
            && (asking.request.Some? <==>
                && Chats(b.kind) && server.capable && !tracker.exhausted && (Theirs(b, server) || server.logging)
                && tracker.inFlight.None? && !server.searching && server.open
                && exists ms, msgid :: RefersTo(b, tracker, server, ms, msgid))
            && (asking.request.Some? ==> IsPage(asking.request.value.limit, server.maxPage))
            && (asking.request.Some? ==> forall ms, msgid | RefersTo(b, tracker, server, ms, msgid) ::
                  asking.request.value.reference ==
                  if server.msgidReferences && msgid.Some? && msgid.value != "" then ByMsgId(msgid.value)
                  else ByTime(ms))
            && (asking.handled <==>
                || asking.request.Some?
                || (Chats(b.kind) && server.capable && !tracker.exhausted && (Theirs(b, server) || server.logging)
                    && tracker.inFlight.Some?))
  {
    hide OldestReal;
    var anchor := AnchorFor(b, tracker, server);
    if anchor.Some? {
      if tracker.fetched.Some? || (server.stored.Some? && !Theirs(b, server)) {
        assert RefersTo(b, tracker, server, anchor.value.ms, anchor.value.msgid);
      } else {
        var oldest := OldestReal(b.messages).value;
        assert RefersTo(b, tracker, server, oldest.ms, oldest.msgid);
      }
    }
  }

  // ----- the pager -----

  /** The user is at the top of a buffer with room for more and nothing on its way. */
  predicate AtTop(b: Buffer, tracker: Tracker, scroll: Scroll) {
    && scroll.atTop && !scroll.browsing && !b.kind.OtherBuffer?
    && tracker.inFlight.None? && |b.messages| < 10_000
  }

  /**
   * The pager does nothing but at the top; there it asks the server if the history is the server's or the log is
   * exhausted, and otherwise reads one page of the log, the newest 200 rows below the oldest line; if that is short, it
   * asks the server too.
   */
  lemma PagerActsIff(
    calendar: Calendar, b: Buffer, log: seq<Row>, tracker: Tracker, server: Server, scroll: Scroll)
    ensures var step := MaybeOlder(calendar, b, Some(log), tracker, server, scroll);
            var page := Query(log, OldestCursor(b.messages), 200);
            && (!AtTop(b, tracker, scroll) ==> step == Paging(b, tracker, None))
            && (AtTop(b, tracker, scroll) && (Theirs(b, server) || b.exhausted) ==>
                && step.buffer == b.(pinned := b.pinned || step.buffer.pinned)
                && step.request == AskServer(b, tracker, server).request)
            && (AtTop(b, tracker, scroll) && !Theirs(b, server) && !b.exhausted ==>
                && Real(step.buffer.messages) == AllStored(page) + Real(b.messages) && step.buffer.pinned
                && (|page| == 200 ==> step.request.None? && step.tracker == tracker && !step.buffer.exhausted)
                && (|page| < 200 ==> step.request == AskServer(step.buffer, tracker, server).request))
  {
    hide Query, Headed, OldestReal, AskServer, Real, WithPage;
    var page := Query(log, OldestCursor(b.messages), CHAT_BACKLOG_PAGE);
    PageIsBounded(log, OldestCursor(b.messages));
    OlderKeepsRealLines(calendar, b, log, false, None);
    AskingKeepsPin(b, tracker, server);
    if |page| < CHAT_BACKLOG_PAGE {
      var paged := b.(messages := WithPage(calendar, b.messages, page), pinned := true);
      AskingKeepsPin(paged, tracker, server);
      var asking := AskServer(paged, tracker, server);
      var done := !asking.handled && ReachedWatermark(tracker.ingested, OldestMs(paged.messages));
      AskingIgnoresExhaustion(paged, tracker, server, b.exhausted || done);
    }
  }

  lemma {:induction false} RemovingIs(messages: seq<Message>)
    ensures forall m :: m in RemoveEndMarker(messages) <==> m in messages && !m.key.BacklogEnd?
  {
    if messages != [] {
      RemovingIs(messages[1..]);
      assert messages == [messages[0]] + messages[1..];
    }
  }

  /** A page that is not empty leaves no end marker in the buffer; an empty one leaves the messages as they are. */
  lemma PageDropsMarkers(calendar: Calendar, messages: seq<Message>, rows: seq<Row>)
    ensures rows == [] ==> WithPage(calendar, messages, rows) == messages
    ensures rows != [] ==> forall m | m in WithPage(calendar, messages, rows) :: !m.key.BacklogEnd?
    ensures rows != [] ==> forall m | m in messages[if messages == [] then 0 else 1..] && !m.key.BacklogEnd? ::
                             m in WithPage(calendar, messages, rows)
  {
    EmptyPage(calendar, messages);
    var rest := WithoutRepeatedHead(calendar, messages, rows);
    RemovingIs(rest);
    HeadedHasNoMarker(calendar, rows, None);
    hide RemoveEndMarker, Headed;
    assert messages != [] ==> forall m | m in messages[1..] :: m in messages;
  }

  lemma PageIsBounded(log: seq<Row>, before: Cursor)
    ensures |Query(log, before, CHAT_BACKLOG_PAGE)| <= CHAT_BACKLOG_PAGE
  {
    hide Select;
  }

  lemma AskingIgnoresExhaustion(b: Buffer, tracker: Tracker, server: Server, exhausted: bool)
    ensures AskServer(b.(exhausted := exhausted), tracker, server) == AskServer(b, tracker, server)
  {
    hide OldestReal;
  }

  /**
   * A buffer becomes exhausted exactly by a short page that the server is not asked to go on from, if everything that
   * was ever logged from the server's history is shown by then.
   */
  lemma ExhaustedIff(calendar: Calendar, b: Buffer, log: seq<Row>, tracker: Tracker, server: Server)
    requires !b.exhausted
    ensures var step := OlderAsking(calendar, b, Some(log), tracker, server);
            var oldest := OldestReal(step.buffer.messages);
            step.buffer.exhausted <==>
            && |Query(log, OldestCursor(b.messages), 200)| < 200
            && !AskServer(step.buffer, tracker, server).handled
            && (tracker.ingested.Some? && oldest.Some? ==> oldest.value.ms <= tracker.ingested.value)
  {
    hide Query, WithPage, OldestReal, AskServer;
    var page := Query(log, OldestCursor(b.messages), CHAT_BACKLOG_PAGE);
    var paged := b.(messages := WithPage(calendar, b.messages, page), pinned := true);
    AskingIgnoresExhaustion(paged, tracker, server, true);
    AskingIgnoresExhaustion(paged, tracker, server, false);
  }
}

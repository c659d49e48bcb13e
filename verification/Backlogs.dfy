/**
 * Backlog of src/app/backlog.rs: seeding a buffer from the log, paging older rows in above it, asking the server for
 * more, and the query and row conversion they use (src/storage/query.rs, src/app/log_browser.rs). Times are
 * milliseconds; the log is the table of one buffer in the order the query sorts by.
 */
module Backlogs {
  import opened Wrappers
  import opened Seqs

  /** A stored row. `seconds` is the `timestamp` column, `ms` what the queries sort by. */
  datatype Row = Row(id: int, seconds: int, ms: int, text: string)

  /** `log_msg_id`: a row id of the log, the correlation id of a live QUIT or NICK, or nothing. */
  datatype LogId = RowId(id: int) | Correlation(uuid: string) | NoId

  /** `event_key`, as far as it matters here. */
  datatype Key = Ordinary | DateSeparator | BacklogEnd

  /** `msgid` is the server's tag, which rows of the log do not bring back. */
  datatype Message = Message(key: Key, ms: int, log: LogId, msgid: Option<string>, text: string)

  const CHAT_BACKLOG_PAGE: nat := 200
  const PINNED_BACKLOG_CAP: nat := 10_000

  // ----- the log and its query -----

  predicate Before(a: Row, b: Row) { a.ms < b.ms || (a.ms == b.ms && a.id < b.id) }

  predicate Ordered(log: seq<Row>) { forall i, j | 0 <= i < j < |log| :: Before(log[i], log[j]) }

  /** Row ids are positive, and the seconds column is the millisecond time floored. */
  predicate Stamped(log: seq<Row>) { forall row | row in log :: row.id > 0 && row.seconds == row.ms / 1000 }

  predicate ValidLog(log: seq<Row>) { Ordered(log) && Stamped(log) }

  type Cursor = Option<(int, int)>

  /** The WHERE clause, with the bound that serves the index. */
  predicate Selected(row: Row, before: Cursor) {
    match before
    case None => true
    case Some((ms, id)) => row.seconds <= ms / 1000 && (row.ms < ms || (row.ms == ms && row.id < id))
  }

  function Select(log: seq<Row>, before: Cursor): seq<Row> {
    if log == [] then []
    else (if Selected(log[0], before) then [log[0]] else []) + Select(log[1..], before)
  }

  function Last(rows: seq<Row>, limit: nat): seq<Row> {
    if |rows| <= limit then rows else rows[|rows| - limit..]
  }

  /** `get_messages_paginated_subsecond`: the newest `limit` rows below the cursor, oldest first. */
  function Query(log: seq<Row>, before: Cursor, limit: nat): seq<Row> { Last(Select(log, before), limit) }

  // ----- rows to messages -----

  /** The local date of a second. */
  type Calendar = int -> int

  function Day(calendar: Calendar, ms: int): int { calendar(ms / 1000) }

  function Stored(row: Row): Message { Message(Ordinary, row.ms, RowId(row.id), None, row.text) }

  function Separator(ms: int): Message { Message(DateSeparator, ms, NoId, None, "") }

  function EndMarker(now: int): Message { Message(BacklogEnd, now, NoId, None, "") }

  /** A row, below a date separator when `last`, the day of the row before it, is another day. */
  function Heading(calendar: Calendar, row: Row, last: Option<int>): seq<Message> {
    if last == Some(Day(calendar, row.ms)) then [Stored(row)] else [Separator(row.ms), Stored(row)]
  }

  /** The rows with a date separator above the first row of each day; `last` is the day before them, if any. */
  function Headed(calendar: Calendar, rows: seq<Row>, last: Option<int>): seq<Message> {
    if rows == [] then []
    else Heading(calendar, rows[0], last) + Headed(calendar, rows[1..], Some(Day(calendar, rows[0].ms)))
  }

  /** `rows_to_buffer_messages`. */
  method RowsToBufferMessages(calendar: Calendar, rows: seq<Row>) returns (out: seq<Message>)
    ensures out == Headed(calendar, rows, None)
  {
    hide Headed, Heading;
    out := [];
    var last: Option<int> := None;
    HeadedEnds(calendar, rows);
    for i := 0 to |rows|
      invariant out + Headed(calendar, rows[i..], last) == Headed(calendar, rows, None)
    {
      HeadedStep(calendar, out, rows, i, last);
      var day := Day(calendar, rows[i].ms);
      if last != Some(day) {
        out := out + [Separator(rows[i].ms)];
      }
      last := Some(day);
      out := out + [Stored(rows[i])];
    }
    HeadedDone(calendar, out, rows, last);
  }

  lemma HeadedEnds(calendar: Calendar, rows: seq<Row>)
    ensures [] + Headed(calendar, rows[0..], None) == Headed(calendar, rows, None)
  {
    assert rows[0..] == rows;
  }

  lemma HeadedDone(calendar: Calendar, out: seq<Message>, rows: seq<Row>, last: Option<int>)
    ensures out + Headed(calendar, rows[|rows|..], last) == out
  {
  }

  lemma HeadedStep(calendar: Calendar, out: seq<Message>, rows: seq<Row>, i: nat, last: Option<int>)
    requires i < |rows|
    ensures var added := if last != Some(Day(calendar, rows[i].ms)) then out + [Separator(rows[i].ms)] else out;
            out + Headed(calendar, rows[i..], last) ==
            (added + [Stored(rows[i])]) + Headed(calendar, rows[i + 1..], Some(Day(calendar, rows[i].ms)))
  {
    var rest := Headed(calendar, rows[i + 1..], Some(Day(calendar, rows[i].ms)));
    assert rows[i..][0] == rows[i] && rows[i..][1..] == rows[i + 1..];
    assert Headed(calendar, rows[i..], last) == Heading(calendar, rows[i], last) + rest;
    hide Headed;
    Associative(out, Heading(calendar, rows[i], last), rest);
    assert (out + [Separator(rows[i].ms)]) + [Stored(rows[i])] == out + [Separator(rows[i].ms), Stored(rows[i])];
  }

  // ----- the buffer -----

  predicate IsSynthetic(m: Message) { m.key == DateSeparator || m.key == BacklogEnd }

  datatype SeedPlan = Skip | Fetch(cursor: Cursor)

  function OldestReal(messages: seq<Message>): Option<Message> {
    if messages == [] then None
    else if !IsSynthetic(messages[0]) then Some(messages[0])
    else OldestReal(messages[1..])
  }

  /** `oldest_backlog_cursor`. */
  function OldestCursor(messages: seq<Message>): Cursor {
    match OldestReal(messages)
    case None => None
    case Some(m) => Some((m.ms, if m.log.RowId? then m.log.id else 0))
  }

  predicate ProvesSeed(m: Message) { m.log.RowId? || m.key == BacklogEnd }

  predicate AlreadySeeded(messages: seq<Message>) { exists m | m in messages :: ProvesSeed(m) }

  /** `backlog_seed_plan`. */
  function SeedPlanFor(messages: seq<Message>): SeedPlan {
    if AlreadySeeded(messages) then Skip
    else match OldestCursor(messages)
      case None => Fetch(None)
      case Some((ms, _)) => Fetch(Some((ms / 1000 * 1000, 0)))
  }

  function Kept(m: Message): seq<Message> { if m.key != BacklogEnd then [m] else [] }

  function RemoveEndMarker(messages: seq<Message>): seq<Message> {
    if messages == [] then [] else Kept(messages[0]) + RemoveEndMarker(messages[1..])
  }

  lemma RemoveStep(kept: seq<Message>, messages: seq<Message>, i: nat)
    requires i < |messages|
    ensures kept + RemoveEndMarker(messages[i..]) == (kept + Kept(messages[i])) + RemoveEndMarker(messages[i + 1..])
    ensures Kept(messages[i]) == [] ==> kept + Kept(messages[i]) == kept
  {
    assert messages[i..][0] == messages[i] && messages[i..][1..] == messages[i + 1..];
    Associative(kept, Kept(messages[i]), RemoveEndMarker(messages[i + 1..]));
  }

  lemma RemoveEnds(kept: seq<Message>, messages: seq<Message>)
    ensures [] + RemoveEndMarker(messages[0..]) == RemoveEndMarker(messages)
    ensures kept + RemoveEndMarker(messages[|messages|..]) == kept
  {
    assert messages[0..] == messages;
  }

  /** `reached_history_watermark`. */
  function ReachedWatermark(watermark: Option<int>, oldest: Option<int>): bool {
    watermark.None? || oldest.None? || oldest.value <= watermark.value
  }

  datatype Kind = ChannelBuffer | QueryBuffer | DccBuffer | OtherBuffer

  datatype Buffer = Buffer(kind: Kind, messages: seq<Message>, exhausted: bool, pinned: bool)

  /** `load_backlog` of a buffer whose history is in the local log; `None` is a log that cannot be read. */
  function Seeded(calendar: Calendar, b: Buffer, log: Option<seq<Row>>, limit: nat, now: int): Buffer {
    if limit == 0 || log.None? || b.kind.OtherBuffer? then b
    else match SeedPlanFor(b.messages)
      case Skip => b
      case Fetch(cursor) =>
        var rows := Query(log.value, cursor, limit);
        if rows == [] then b
        else
          b.(messages := Headed(calendar, rows, None) + [EndMarker(now)] + b.messages, exhausted := |rows| < limit)
  }

  /** The head separator goes when the new page ends on its day. */
  function WithoutRepeatedHead(calendar: Calendar, messages: seq<Message>, rows: seq<Row>): seq<Message> {
    if rows != [] && messages != [] && messages[0].key == DateSeparator
       && Day(calendar, messages[0].ms) == calendar(rows[|rows| - 1].seconds)
    then messages[1..] else messages
  }

  /** The messages after `load_older_chat_backlog` got a page. */
  function WithPage(calendar: Calendar, messages: seq<Message>, rows: seq<Row>): seq<Message> {
    var rest := WithoutRepeatedHead(calendar, messages, rows);
    Headed(calendar, rows, None) + if rows == [] then rest else RemoveEndMarker(rest)
  }

  function OldestMs(messages: seq<Message>): Option<int> {
    match OldestReal(messages) case None => None case Some(m) => Some(m.ms)
  }

  /** One older page from the log; `fetching` is whether the server's history is being asked as well. */
  function Older(calendar: Calendar, b: Buffer, log: Option<seq<Row>>, fetching: bool, watermark: Option<int>): Buffer {
    if log.None? then b
    else
      var rows := Query(log.value, OldestCursor(b.messages), CHAT_BACKLOG_PAGE);
      var messages := WithPage(calendar, b.messages, rows);
      var done := |rows| < CHAT_BACKLOG_PAGE && !fetching && ReachedWatermark(watermark, OldestMs(messages));
      b.(messages := messages, pinned := true, exhausted := b.exhausted || done)
  }

  // ----- asking the server -----

  /** A point in the history, with the server's own reference to it where that is known. */
  datatype Anchor = Anchor(ms: int, msgid: Option<string>)

  datatype Reference = ByMsgId(msgid: string) | ByTime(ms: int)

  /** CHATHISTORY BEFORE. */
  datatype Request = Request(reference: Reference, limit: nat)

  /**
   * The connection as a request finds it: whether its history is the server's, the chathistory capability, what
   * ISUPPORT says of references and page sizes, a search that holds requests back, whether a line can be sent, whether
   * rows can be logged, and the oldest row stored. A buffer without a connection has one without the capability.
   */
  datatype Server = Server(
    ownsHistory: bool, capable: bool, msgidReferences: bool, maxPage: Option<nat>, searching: bool, open: bool,
    logging: bool, stored: Option<Anchor>)

  /** `HistoryState` of one target: the limit of the request in flight, and how far back the server has been read. */
  datatype Tracker = Tracker(inFlight: Option<nat>, exhausted: bool, fetched: Option<Anchor>, ingested: Option<int>)

  /** `server_owns_buffer_history`. */
  predicate Owned(kind: Kind, server: Server) { server.ownsHistory && (kind.ChannelBuffer? || kind.QueryBuffer?) }

  /** `in_memory_oldest_anchor`. */
  function MemoryAnchor(messages: seq<Message>): Option<Anchor> {
    match OldestReal(messages)
    case None => None
    case Some(m) => Some(Anchor(m.ms, if m.msgid == Some("") then None else m.msgid))
  }

  function AnchorFor(b: Buffer, tracker: Tracker, server: Server): Option<Anchor> {
    if tracker.fetched.Some? then tracker.fetched
    else if !Owned(b.kind, server) && server.stored.Some? then server.stored
    else MemoryAnchor(b.messages)
  }

  /** `clamp_limit`. */
  function PageLimit(maxPage: Option<nat>): (limit: nat)
    ensures 0 < limit <= CHAT_BACKLOG_PAGE
    ensures maxPage.Some? && maxPage.value > 0 ==> limit <= maxPage.value
  {
    var limit := if maxPage.Some? && maxPage.value < CHAT_BACKLOG_PAGE then maxPage.value else CHAT_BACKLOG_PAGE;
    if limit == 0 then 1 else limit
  }

  function RequestAt(anchor: Anchor, server: Server): Request {
    Request(if server.msgidReferences && anchor.msgid.Some? && anchor.msgid.value != "" then ByMsgId(anchor.msgid.value)
            else ByTime(anchor.ms),
            PageLimit(server.maxPage))
  }

  /** What asking came to: the request sent, and whether the server is handling it, now or from an earlier request. */
  datatype Asking = Asking(pinned: bool, tracker: Tracker, request: Option<Request>, handled: bool)

  /** `fetch_older_via_chathistory`. */
  function AskServer(b: Buffer, tracker: Tracker, server: Server): Asking {
    if !(b.kind.ChannelBuffer? || b.kind.QueryBuffer?) || !server.capable || tracker.exhausted
       || (!Owned(b.kind, server) && !server.logging)
    then Asking(b.pinned, tracker, None, false)
    else if tracker.inFlight.Some? then Asking(b.pinned, tracker, None, true)
    else match AnchorFor(b, tracker, server)
      case None => Asking(b.pinned, tracker, None, false)
      case Some(anchor) =>
        var pinned := b.pinned || Owned(b.kind, server);
        if server.searching || !server.open then Asking(pinned, tracker, None, false)
        else
          Asking(pinned, tracker.(inFlight := Some(PageLimit(server.maxPage))), Some(RequestAt(anchor, server)), true)
  }

  /** A buffer, the tracker of its target, and the request a step sent. */
  datatype Paging = Paging(buffer: Buffer, tracker: Tracker, request: Option<Request>)

  /** `load_older_chat_backlog`: a short page also asks the server, and exhaustion waits for its answer. */
  function OlderAsking(calendar: Calendar, b: Buffer, log: Option<seq<Row>>, tracker: Tracker, server: Server): Paging {
    if log.None? then Paging(b, tracker, None)
    else
      var rows := Query(log.value, OldestCursor(b.messages), CHAT_BACKLOG_PAGE);
      var paged := b.(messages := WithPage(calendar, b.messages, rows), pinned := true);
      if |rows| >= CHAT_BACKLOG_PAGE then Paging(paged, tracker, None)
      else
        var asking := AskServer(paged, tracker, server);
        var done := !asking.handled && ReachedWatermark(tracker.ingested, OldestMs(paged.messages));
        Paging(paged.(exhausted := b.exhausted || done), asking.tracker, asking.request)
  }

  /** What the user's scrolling finds: whether the log browser is open, and whether the view is at the top. */
  datatype Scroll = Scroll(browsing: bool, atTop: bool)

  predicate MayPage(b: Buffer, tracker: Tracker, scroll: Scroll) {
    && !scroll.browsing && scroll.atTop && !b.kind.OtherBuffer?
    && tracker.inFlight.None? && |b.messages| < PINNED_BACKLOG_CAP
  }

  predicate ReadsLog(b: Buffer, tracker: Tracker, server: Server, scroll: Scroll) {
    MayPage(b, tracker, scroll) && !Owned(b.kind, server) && !b.exhausted
  }

  /** `maybe_load_older_chat_backlog`. */
  function MaybeOlder(
    calendar: Calendar, b: Buffer, log: Option<seq<Row>>, tracker: Tracker, server: Server, scroll: Scroll): Paging
  {
    if !MayPage(b, tracker, scroll) then Paging(b, tracker, None)
    else if ReadsLog(b, tracker, server, scroll) then OlderAsking(calendar, b, log, tracker, server)
    else
      var asking := AskServer(b, tracker, server);
      Paging(b.(pinned := asking.pinned), asking.tracker, asking.request)
  }

  lemma AskingKeepsPin(b: Buffer, tracker: Tracker, server: Server)
    ensures var asking := AskServer(b, tracker, server);
            (b.pinned ==> asking.pinned) && asking.tracker.ingested == tracker.ingested
  {
    hide AnchorFor;
  }

  // ----- the same, in place -----

  class ChatBuffer {
    const kind: Kind
    var messages: seq<Message>
    var exhausted: bool
    var pinned: bool
    var tracker: Tracker

    constructor (kind: Kind)
      ensures State() == Buffer(kind, [], false, false) && tracker == Tracker(None, false, None, None)
    {
      this.kind := kind;
      messages, exhausted, pinned, tracker := [], false, false, Tracker(None, false, None, None);
    }

    ghost function State(): Buffer
      reads this
    {
      Buffer(kind, messages, exhausted, pinned)
    }

    /** `load_backlog`: from the log, or, where history is the server's, whether to request what a query has missed. */
    method LoadBacklog(calendar: Calendar, log: Option<seq<Row>>, server: Server, limit: nat, now: int)
      returns (gapFill: bool)
      modifies this`messages, this`exhausted
      ensures gapFill == (limit > 0 && Owned(kind, server) && kind.QueryBuffer?)
      ensures State() ==
              if Owned(kind, server) then old(State()) else Seeded(calendar, old(State()), log, limit, now)
    {
      gapFill := false;
      if limit == 0 {
        return;
      }
      if Owned(kind, server) {
        gapFill := kind.QueryBuffer?;
        return;
      }
      if log.None? || kind.OtherBuffer? {
        return;
      }
      var plan := SeedPlanFor(messages);
      if plan.Skip? {
        return;
      }
      var rows := Query(log.value, plan.cursor, limit);
      if rows == [] {
        return;
      }
      var backlog := RowsToBufferMessages(calendar, rows);
      backlog := backlog + [EndMarker(now)];
      messages := backlog + messages;
      exhausted := |rows| < limit;
    }

    /** `remove_backlog_end_marker`. */
    method DropEndMarker()
      modifies this`messages
      ensures messages == RemoveEndMarker(old(messages))
    {
      hide RemoveEndMarker;
      var kept := [];
      RemoveEnds(kept, messages);
      for i := 0 to |messages|
        invariant messages == old(messages)
        invariant kept + RemoveEndMarker(messages[i..]) == RemoveEndMarker(messages)
      {
        RemoveStep(kept, messages, i);
        if messages[i].key != BacklogEnd {
          kept := kept + [messages[i]];
        }
      }
      RemoveEnds(kept, messages);
      messages := kept;
    }

    /** `fetch_older_via_chathistory`. */
    method FetchOlder(server: Server) returns (request: Option<Request>, handled: bool)
      modifies this`pinned, this`tracker
      ensures Asking(pinned, tracker, request, handled) == AskServer(old(State()), old(tracker), server)
    {
      hide OldestReal;
      request, handled := None, false;
      var owned := Owned(kind, server);
      if !(kind.ChannelBuffer? || kind.QueryBuffer?) || !server.capable || tracker.exhausted
         || (!owned && !server.logging) {
        return;
      }
      if tracker.inFlight.Some? {
        handled := true;
        return;
      }
      var anchor := tracker.fetched;
      if anchor.None? {
        anchor := if owned then None else server.stored;
        if anchor.None? {
          anchor := MemoryAnchor(messages);
        }
        if anchor.None? {
          return;
        }
      }
      if owned {
        pinned := true;
      }
      if server.searching || !server.open {
        return;
      }
      request, handled := Some(RequestAt(anchor.value, server)), true;
      tracker := tracker.(inFlight := Some(request.value.limit));
    }

    /** `load_older_chat_backlog`. */
    method LoadOlder(calendar: Calendar, log: Option<seq<Row>>, server: Server) returns (request: Option<Request>)
      modifies this
      ensures Paging(State(), tracker, request) == OlderAsking(calendar, old(State()), log, old(tracker), server)
    {
      hide Query, Headed, RemoveEndMarker, OldestCursor, OldestMs, AskServer;
      request := None;
      if log.None? {
        return;
      }
      var rows := Query(log.value, OldestCursor(messages), CHAT_BACKLOG_PAGE);
      if rows != [] && messages != [] && messages[0].key == DateSeparator
         && Day(calendar, messages[0].ms) == calendar(rows[|rows| - 1].seconds)
      {
        messages := messages[1..];
      }
      var page := RowsToBufferMessages(calendar, rows);
      if rows != [] {
        DropEndMarker();
      }
      messages := page + messages;
      pinned := true;
      if |rows| < CHAT_BACKLOG_PAGE {
        assert WithPage(calendar, old(messages), rows) == messages;
        ghost var paged := State();
        AskingKeepsPin(paged, tracker, server);
        var handled;
        request, handled := FetchOlder(server);
        if !handled && ReachedWatermark(tracker.ingested, OldestMs(messages)) {
          exhausted := true;
        }
      }
    }

    /** `maybe_load_older_chat_backlog`. */
    method MaybeLoadOlder(calendar: Calendar, log: Option<seq<Row>>, server: Server, scroll: Scroll)
      returns (request: Option<Request>)
      modifies this
      ensures Paging(State(), tracker, request) ==
              MaybeOlder(calendar, old(State()), log, old(tracker), server, scroll)
    {
      hide OlderAsking, AskServer;
      request := None;
      if scroll.browsing || kind.OtherBuffer? || tracker.inFlight.Some? || |messages| >= PINNED_BACKLOG_CAP {
        return;
      }
      if !scroll.atTop {
        return;
      }
      if Owned(kind, server) || exhausted {
        var handled;
        request, handled := FetchOlder(server);
      } else {
        request := LoadOlder(calendar, log, server);
      }
    }
  }
}

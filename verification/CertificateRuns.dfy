/**
 * Success is never claimed unproved: over every interleaving of commands, replies, ticks, PONGs and reconnects, the
 * flags an operation keeps say exactly what the whole transcript since its request says.
 */
module CertificateRuns {
  import opened Wrappers
  import opened Seqs
  import opened Certificates

  // ----- transcripts -----

  /** What one event means for the operation that is waiting. */
  datatype Seen =
    | Opened(batch: string)
    /** The reference of a BATCH that is no certificate list: it may close the list. */
    | Other(reference: string)
    | Row(tag: Option<string>, row: Option<string>)
    | Acknowledged
    | Failure
    | Nothing

  /** The meaning of a message for a request, whatever came before it. */
  function Meaning(request: Request, m: Message): Seen {
    var c := m.command;
    if m.fromUser then Nothing
    else if OpensList(c) then Opened(c.reference[1..])
    else if c.Batch? then Other(c.reference)
    else if FailsCertificates(c) then Failure
    else if ConfirmsPin(c, Some(request)) || !IsReply(c) then Nothing
    else if c.args != [] && request == List && Text.AsciiUpper(c.args[0]) == "LIST" then
      Row(c.batchTag, CertificateRow(c.args[1..]))
    else if Acknowledges(request, c.args) then Acknowledged
    else Failure
  }

  predicate Acknowledges(request: Request, args: seq<string>) {
    args != [] &&
    match request
    case List => false
    case Create => Text.AsciiUpper(args[0]) == "CREATE" && |args| == 1
    case Delete(hash) =>
      Text.AsciiUpper(args[0]) == "DELETE" && ((hash.None? && |args| == 1) || DeletionMatches(hash, args))
  }

  /** How the flags of an operation move. */
  function Note(op: Operation, seen: Seen): Operation {
    match seen
    case Opened(batch) => OpenBatch(op, batch)
    case Other(reference) =>
      if op.batch.Some? && reference == "-" + op.batch.value then op.(acknowledged := true) else op
    case Row(tag, row) => AddRow(op, tag, row)
    case Acknowledged => op.(acknowledged := true)
    case Failure => op.(failed := true)
    case Nothing => op
  }

  function NoteAll(op: Operation, transcript: seq<Seen>): Operation
    decreases |transcript|
  {
    if transcript == [] then op else NoteAll(Note(op, transcript[0]), transcript[1..])
  }

  /** Which meanings a request's messages can have. */
  predicate Possible(request: Request, seen: Seen) {
    if request == List then !seen.Acknowledged? else !seen.Row?
  }

  predicate AllPossible(request: Request, transcript: seq<Seen>) {
    forall s | s in transcript :: Possible(request, s)
  }

  lemma MeaningIsPossible(request: Request, m: Message)
    ensures Possible(request, Meaning(request, m))
  {
  }

  /** A message moves the flags as its meaning says. */
  lemma HandleNotes(ops: Operations, id: string, m: Message, available: bool)
    requires id in ops && !(m.command.Pong? && !m.fromUser && Answers(m.command, ops[id]))
    ensures Handle(ops, id, m, available).ops == ops[id := Note(ops[id], Meaning(ops[id].request, m))]
  {
    hide CertificateRow, Text.AsciiLower, Text.AsciiUpper, DeletionMatches, AddRow, OpenBatch, IsFingerprint;
    var op := ops[id];
    assert ops[id := op] == ops;
    if !m.fromUser && IsReply(m.command) && !ConfirmsPin(m.command, Some(op.request)) {
      ReplyNotes(op, m);
    }
  }

  lemma ReplyNotes(op: Operation, m: Message)
    requires !m.fromUser && IsReply(m.command) && !ConfirmsPin(m.command, Some(op.request))
    ensures !FailsCertificates(m.command) && !OpensList(m.command)
    ensures Reply(op, m.command.args, m.command.batchTag) == Note(op, Meaning(op.request, m))
  {
    NamesDiffer();
    hide CertificateRow, Text.AsciiLower, Text.AsciiUpper, DeletionMatches, AddRow, OpenBatch, IsFingerprint;
  }

  lemma NamesDiffer()
    ensures Text.AsciiLower("FAIL") != Text.AsciiLower("CLIENTCERT")
  {
    assert |Text.AsciiLower("FAIL")| == 4 && |Text.AsciiLower("CLIENTCERT")| == 10;
  }

  // ----- what a successful transcript looks like -----

  /** Nothing about a certificate list, no acknowledgement and no failure. */
  predicate Harmless(seen: Seen) { seen.Other? || seen.Nothing? }

  predicate AllHarmless(transcript: seq<Seen>) { forall s | s in transcript :: Harmless(s) }

  predicate Inside(seen: Seen, batch: string) {
    (Harmless(seen) && seen != Other("-" + batch)) || (seen.Row? && seen.tag == Some(batch) && seen.row.Some?)
  }

  predicate AllInside(transcript: seq<Seen>, batch: string) { forall s | s in transcript :: Inside(s, batch) }

  function RowText(seen: Seen): seq<string> {
    if seen.Row? && seen.row.Some? then [seen.row.value] else []
  }

  function RowTexts(transcript: seq<Seen>): seq<string> {
    if transcript == [] then [] else RowText(transcript[0]) + RowTexts(transcript[1..])
  }

  /**
   * The transcript of a list: one batch is opened, well-formed rows of that batch follow, at most 4096 of them, the
   * batch is closed; before, between and after nothing but harmless messages.
   */
  predicate ListTranscript(t: seq<Seen>, before: seq<Seen>, batch: string, inside: seq<Seen>, after: seq<Seen>) {
    && AllHarmless(before) && AllInside(inside, batch) && AllHarmless(after)
    && |RowTexts(inside)| <= MAX_CERTIFICATES
    && t == before + [Opened(batch)] + inside + [Other("-" + batch)] + after
  }

  ghost predicate ProvesList(t: seq<Seen>, rows: seq<string>) {
    exists before, batch, inside, after :: ListTranscript(t, before, batch, inside, after) && rows == RowTexts(inside)
  }

  /** The transcript of a creation or a deletion: acknowledged, and no failure nor list. */
  predicate ProvesChange(t: seq<Seen>) { Acknowledged in t && forall s | s in t :: !s.Failure? && !s.Opened? }

  predicate Done(op: Operation) { !op.failed && op.acknowledged }

  // ----- the flags of a list -----

  lemma {:induction false} NoteAllConcat(op: Operation, a: seq<Seen>, b: seq<Seen>)
    ensures NoteAll(op, a + b) == NoteAll(NoteAll(op, a), b)
    decreases |a|
  {
    hide Note;
    if a == [] {
      assert a + b == b;
    } else {
      assert (a + b)[0] == a[0] && (a + b)[1..] == a[1..] + b;
      NoteAllConcat(Note(op, a[0]), a[1..], b);
    }
  }

  lemma {:induction false} FailureSticks(op: Operation, t: seq<Seen>)
    requires op.failed
    ensures NoteAll(op, t).failed
    decreases |t|
  {
    if t != [] {
      FailureSticks(Note(op, t[0]), t[1..]);
    }
  }

  /** Before the batch: only harmless messages and the opening keep a list alive. */
  lemma {:induction false} FromStart(op: Operation, t: seq<Seen>)
    returns (before: seq<Seen>, batch: string, inside: seq<Seen>, after: seq<Seen>)
    requires op.request == List && op.batch.None? && !op.failed && !op.acknowledged && op.rows == []
    requires AllPossible(List, t) && Done(NoteAll(op, t))
    ensures ListTranscript(t, before, batch, inside, after) && NoteAll(op, t).rows == RowTexts(inside)
    decreases |t|
  {
    before, batch, inside, after := [], "", [], [];
    assert t != [];
    var next, rest := Note(op, t[0]), t[1..];
    assert t == [t[0]] + rest && t[0] in t && forall s | s in rest :: s in t;
    if t[0].Opened? {
      batch := t[0].batch;
      inside, after := FromBatch(next, rest, batch);
      assert t == before + [Opened(batch)] + inside + [Other("-" + batch)] + after;
    } else if next.failed {
      FailureSticks(next, rest);
    } else {
      before, batch, inside, after := FromStart(next, rest);
      before := [t[0]] + before;
      assert t == before + [Opened(batch)] + inside + [Other("-" + batch)] + after;
    }
  }

  /** Inside the batch a list stays alive exactly on what belongs there, and keeps the row. */
  lemma NoteInside(op: Operation, seen: Seen, batch: string)
    requires op.request == List && op.batch == Some(batch) && !op.failed && !op.acknowledged
             && |op.rows| <= MAX_CERTIFICATES
    requires Possible(List, seen) && seen != Other("-" + batch)
    ensures !Note(op, seen).failed <==> Inside(seen, batch) && |op.rows| + |RowText(seen)| <= MAX_CERTIFICATES
    ensures !Note(op, seen).failed ==> Note(op, seen) == op.(rows := op.rows + RowText(seen))
  {
  }

  lemma RowTextsStep(rows: seq<string>, seen: Seen, rest: seq<Seen>)
    ensures rows + RowTexts([seen] + rest) == (rows + RowText(seen)) + RowTexts(rest)
    ensures |RowTexts([seen] + rest)| == |RowText(seen)| + |RowTexts(rest)|
  {
    TailConcat([seen], rest);
    assert [seen][1..] + rest == rest;
    Associative(rows, RowText(seen), RowTexts(rest));
  }

  lemma {:induction false} FromBatch(op: Operation, t: seq<Seen>, batch: string)
    returns (inside: seq<Seen>, after: seq<Seen>)
    requires op.request == List && op.batch == Some(batch) && !op.failed && !op.acknowledged
             && |op.rows| <= MAX_CERTIFICATES
    requires AllPossible(List, t) && Done(NoteAll(op, t))
    ensures AllInside(inside, batch) && AllHarmless(after) && t == inside + [Other("-" + batch)] + after
    ensures |op.rows| + |RowTexts(inside)| <= MAX_CERTIFICATES
    ensures NoteAll(op, t).rows == op.rows + RowTexts(inside)
    decreases |t|
  {
    inside, after := [], [];
    assert t != [];
    var closing, next, rest := Other("-" + batch), Note(op, t[0]), t[1..];
    assert t == [t[0]] + rest && t[0] in t && forall s | s in rest :: s in t;
    if t[0] == closing {
      after := rest;
      AfterBatch(next, rest);
      assert t == inside + [closing] + after;
    } else {
      NoteInside(op, t[0], batch);
      hide Note, RowText, RowTexts, Inside;
      if next.failed {
        FailureSticks(next, rest);
      } else {
        var more;
        more, after := FromBatch(next, rest, batch);
        inside := [t[0]] + more;
        RowTextsStep(op.rows, t[0], more);
        assert t == inside + [closing] + after;
      }
    }
  }

  /** After it. */
  lemma {:induction false} AfterBatch(op: Operation, t: seq<Seen>)
    requires op.request == List && op.batch.Some? && !op.failed && op.acknowledged
    requires AllPossible(List, t)
    ensures Done(NoteAll(op, t)) <==> AllHarmless(t)
    ensures Done(NoteAll(op, t)) ==> NoteAll(op, t).rows == op.rows
    decreases |t|
  {
    if t != [] {
      var next, rest := Note(op, t[0]), t[1..];
      assert t == [t[0]] + rest && t[0] in t && forall s | s in rest :: s in t;
      if next.failed {
        FailureSticks(next, rest);
      } else {
        AfterBatch(next, rest);
        assert forall s | s in t :: s == t[0] || s in rest;
      }
    }
  }

  lemma {:induction false} HarmlessNotes(op: Operation, t: seq<Seen>)
    requires op.batch.None? && AllHarmless(t)
    ensures NoteAll(op, t) == op
    decreases |t|
  {
    if t != [] {
      assert t[0] in t && forall s | s in t[1..] :: s in t;
      HarmlessNotes(op, t[1..]);
    }
  }

  lemma {:induction false} InsideNotes(op: Operation, t: seq<Seen>, batch: string)
    requires op.request == List && op.batch == Some(batch) && !op.failed && !op.acknowledged && AllInside(t, batch)
    requires |op.rows| + |RowTexts(t)| <= MAX_CERTIFICATES
    ensures NoteAll(op, t) == op.(rows := op.rows + RowTexts(t))
    decreases |t|
  {
    if t == [] {
      assert op.rows + [] == op.rows;
    } else {
      assert t[0] in t && (forall s | s in t[1..] :: s in t) && Possible(List, t[0]);
      RowTextsStep(op.rows, t[0], t[1..]);
      assert [t[0]] + t[1..] == t;
      NoteInside(op, t[0], batch);
      hide Note, RowText, RowTexts;
      InsideNotes(Note(op, t[0]), t[1..], batch);
    }
  }

  /** The flags of a list say exactly whether its transcript proves the rows they hold. */
  lemma ListFlagsAreExact(nonce: string, started: int, t: seq<Seen>, rows: seq<string>)
    requires AllPossible(List, t)
    ensures var op := NoteAll(Started(List, nonce, started), t);
            Done(op) && op.rows == rows <==> ProvesList(t, rows)
  {
    var start := Started(List, nonce, started);
    if Done(NoteAll(start, t)) {
      var before, batch, inside, after := FromStart(start, t);
    }
    if ProvesList(t, rows) {
      var before, batch, inside, after :| ListTranscript(t, before, batch, inside, after) && rows == RowTexts(inside);
      ListSucceeds(start, t, before, batch, inside, after);
    }
  }

  lemma ListSucceeds(
    start: Operation, t: seq<Seen>, before: seq<Seen>, batch: string, inside: seq<Seen>, after: seq<Seen>)
    requires start.request == List && start.batch.None? && !start.failed && !start.acknowledged && start.rows == []
    requires AllPossible(List, t) && ListTranscript(t, before, batch, inside, after)
    ensures Done(NoteAll(start, t)) && NoteAll(start, t).rows == RowTexts(inside)
  {
    hide Note, AllHarmless, AllInside;
    var closing := [Other("-" + batch)];
    NoteAllConcat(start, before + [Opened(batch)] + inside + closing, after);
    NoteAllConcat(start, before + [Opened(batch)] + inside, closing);
    NoteAllConcat(start, before + [Opened(batch)], inside);
    NoteAllConcat(start, before, [Opened(batch)]);
    HarmlessNotes(start, before);
    OpeningNotes(start, batch);
    var open := start.(batch := Some(batch));
    InsideNotes(open, inside, batch);
    var full := open.(rows := open.rows + RowTexts(inside));
    assert full.rows == RowTexts(inside);
    ClosingNotes(full, batch);
    AfterIsPossible(t, before + [Opened(batch)] + inside + closing, after);
    AfterBatch(full.(acknowledged := true), after);
  }

  lemma OpeningNotes(op: Operation, batch: string)
    requires op.request == List && op.batch.None?
    ensures NoteAll(op, [Opened(batch)]) == op.(batch := Some(batch))
  {
    assert [Opened(batch)][1..] == [];
  }

  lemma ClosingNotes(op: Operation, batch: string)
    requires op.batch == Some(batch)
    ensures NoteAll(op, [Other("-" + batch)]) == op.(acknowledged := true)
  {
    assert [Other("-" + batch)][1..] == [];
  }

  lemma AfterIsPossible(t: seq<Seen>, a: seq<Seen>, b: seq<Seen>)
    requires AllPossible(List, t) && t == a + b
    ensures AllPossible(List, b)
  {
    assert forall s | s in b :: s in t;
  }

  /** And those of a creation or deletion. */
  lemma {:induction false} ChangeFlagsAreExact(op: Operation, t: seq<Seen>)
    requires op.request != List && op.batch.None? && !op.failed && AllPossible(op.request, t)
    ensures Done(NoteAll(op, t)) <==>
            (op.acknowledged || Acknowledged in t) && forall s | s in t :: !s.Failure? && !s.Opened?
    decreases |t|
  {
    if t != [] {
      var next, rest := Note(op, t[0]), t[1..];
      assert t == [t[0]] + rest && t[0] in t && forall s | s in rest :: s in t;
      assert forall s | s in t :: s == t[0] || s in rest;
      if next.failed {
        FailureSticks(next, rest);
      } else {
        ChangeFlagsAreExact(next, rest);
      }
    }
  }

  // ----- whole runs -----

  datatype Event =
    | Commanded(id: string, args: seq<string>, available: bool, sending: bool, nonce: string, now: int)
    | Ticked(connections: set<string>, now: int)
    | Received(id: string, m: Message, available: bool)
    /** The connection is opened anew, or lost. */
    | Reset(id: string)

  function Step(ops: Operations, e: Event): Operations {
    match e
    case Commanded(id, args, available, sending, nonce, now) => Ask(ops, id, args, available, sending, nonce, now).0
    case Ticked(available, now) => Tick(ops, available, now)
    case Received(id, m, available) => Handle(ops, id, m, available).ops
    case Reset(id) => ops - {id}
  }

  /** The reference: what was asked, and everything seen since. */
  datatype Entry = Entry(request: Request, nonce: string, transcript: seq<Seen>)

  type Ledger = map<string, Entry>

  predicate Settles(m: Message, nonce: string) {
    !m.fromUser && m.command.Pong? && (m.command.first == nonce || m.command.second == Some(nonce))
  }

  function Write(entry: Entry, seen: Seen): Entry { entry.(transcript := entry.transcript + [seen]) }

  function StepLedger(ledger: Ledger, e: Event): Ledger {
    match e
    case Commanded(id, args, available, sending, nonce, now) =>
      if available && sending && id !in ledger && ParseRequest(args).Some? then
        ledger[id := Entry(ParseRequest(args).value.0, nonce, [])]
      else ledger
    case Ticked(available, now) =>
      map id | id in ledger :: Write(ledger[id], if id in available then Nothing else Failure)
    case Received(id, m, available) =>
      if id !in ledger then ledger
      else if Settles(m, ledger[id].nonce) then ledger - {id}
      else ledger[id := Write(ledger[id], Meaning(ledger[id].request, m))]
    case Reset(id) => ledger - {id}
  }

  function Run(ops: Operations, events: seq<Event>): Operations
    decreases |events|
  {
    if events == [] then ops else Run(Step(ops, events[0]), events[1..])
  }

  function RunLedger(ledger: Ledger, events: seq<Event>): Ledger
    decreases |events|
  {
    if events == [] then ledger else RunLedger(StepLedger(ledger, events[0]), events[1..])
  }

  /** The flags are those of the transcript. */
  predicate Agrees(op: Operation, entry: Entry) {
    && op.request == entry.request && op.nonce == entry.nonce && AllPossible(entry.request, entry.transcript)
    && op.(timedOut := false) == NoteAll(Started(entry.request, entry.nonce, op.started), entry.transcript)
  }

  predicate Matches(ops: Operations, ledger: Ledger) {
    ops.Keys == ledger.Keys && forall id | id in ops :: Agrees(ops[id], ledger[id])
  }

  lemma NoteIgnoresTime(op: Operation, seen: Seen)
    ensures Note(op, seen).(timedOut := false) == Note(op.(timedOut := false), seen)
    ensures Note(op, seen).started == op.started && Note(op, seen).request == op.request
            && Note(op, seen).nonce == op.nonce
  {
  }

  lemma NoteAgrees(op: Operation, entry: Entry, seen: Seen)
    requires Agrees(op, entry) && Possible(entry.request, seen)
    ensures Agrees(Note(op, seen), Write(entry, seen))
    ensures forall late :: Agrees(Note(op, seen).(timedOut := late), Write(entry, seen))
  {
    var start := Started(entry.request, entry.nonce, op.started);
    NoteAllConcat(start, entry.transcript, [seen]);
    assert [seen][1..] == [];
    assert NoteAll(NoteAll(start, entry.transcript), [seen]) == Note(NoteAll(start, entry.transcript), seen);
    NoteIgnoresTime(op, seen);
    hide Note, Possible;
  }

  lemma TickAgrees(op: Operation, entry: Entry, available: bool, now: int)
    requires Agrees(op, entry)
    ensures Agrees(TickOne(op, available, now), Write(entry, if available then Nothing else Failure))
  {
    var seen := if available then Nothing else Failure;
    NoteAgrees(op, entry, seen);
    var late := TickOne(op, available, now).timedOut;
    assert TickOne(op, available, now) == Note(op, seen).(timedOut := late);
  }

  lemma StepMatches(ops: Operations, ledger: Ledger, e: Event)
    requires Matches(ops, ledger)
    ensures Matches(Step(ops, e), StepLedger(ledger, e))
  {
    hide Agrees, ParseRequest, Meaning;
    match e
    case Commanded(id, args, available, sending, nonce, now) =>
      if ParseRequest(args).Some? {
        StartAgrees(ParseRequest(args).value.0, nonce, now);
      }
    case Ticked(available, now) =>
      forall id | id in ops
        ensures Agrees(TickOne(ops[id], id in available, now), StepLedger(ledger, e)[id])
      {
        TickAgrees(ops[id], ledger[id], id in available, now);
      }
    case Received(id, m, available) =>
      ReceivedMatches(ops, ledger, id, m, available);
    case Reset(id) =>
  }

  lemma StartAgrees(request: Request, nonce: string, now: int)
    ensures Agrees(Started(request, nonce, now), Entry(request, nonce, []))
  {
  }

  lemma AgreesOn(op: Operation, entry: Entry)
    requires Agrees(op, entry)
    ensures op.nonce == entry.nonce && op.request == entry.request
  {
  }

  lemma ReceivedMatches(ops: Operations, ledger: Ledger, id: string, m: Message, available: bool)
    requires Matches(ops, ledger)
    ensures Matches(Step(ops, Received(id, m, available)), StepLedger(ledger, Received(id, m, available)))
  {
    hide Agrees, Meaning, Handle;
    if id in ops {
      AgreesOn(ops[id], ledger[id]);
      if Settles(m, ops[id].nonce) {
        Settled(ops, id, m, available);
      } else {
        HandleNotes(ops, id, m, available);
        MeaningIsPossible(ops[id].request, m);
        NoteAgrees(ops[id], ledger[id], Meaning(ops[id].request, m));
      }
    } else {
      NobodyWaits(ops, id, m, available);
    }
  }

  lemma Settled(ops: Operations, id: string, m: Message, available: bool)
    requires id in ops && Settles(m, ops[id].nonce)
    ensures Handle(ops, id, m, available) == Handled(ops - {id}, true, [Outcome(ops[id], available)])
  {
  }

  lemma NobodyWaits(ops: Operations, id: string, m: Message, available: bool)
    requires id !in ops
    ensures Handle(ops, id, m, available).ops == ops
  {
  }

  lemma {:induction false} RunMatches(ops: Operations, ledger: Ledger, events: seq<Event>)
    requires Matches(ops, ledger)
    ensures Matches(Run(ops, events), RunLedger(ledger, events))
    decreases |events|
  {
    hide Matches, Step, StepLedger;
    if events != [] {
      StepMatches(ops, ledger, events[0]);
      RunMatches(Step(ops, events[0]), StepLedger(ledger, events[0]), events[1..]);
    }
  }

  // ----- the results -----

  predicate TellsSuccess(notice: Notice) { notice.Listed? || notice.PinnedNotice? || notice.RemovedNotice? }

  /** Success is told nowhere but at the barrier: the PONG that carries the operation's own nonce. */
  lemma OnlyTheBarrierTells(ops: Operations, id: string, m: Message, available: bool, notice: Notice)
    requires notice in Handle(ops, id, m, available).notices && TellsSuccess(notice)
    ensures id in ops && Settles(m, ops[id].nonce) && Handle(ops, id, m, available).ops == ops - {id}
  {
  }

  ghost predicate Proves(entry: Entry, notice: Notice) {
    match (entry.request, notice)
    case (List, Listed(rows)) => ProvesList(entry.transcript, rows)
    case (Create, PinnedNotice) => ProvesChange(entry.transcript)
    case (Delete(_), RemovedNotice) => ProvesChange(entry.transcript)
    case _ => false
  }

  /**
   * Success is sound, and complete: after any run, at the barrier a success is told exactly when certificates are
   * available then and the whole transcript since the request proves it; for a list, with exactly the rows of its one
   * batch.
   */
  lemma SuccessIsExact(events: seq<Event>, id: string, m: Message, available: bool, notice: Notice)
    requires var ops := Run(map[], events); id in ops && Settles(m, ops[id].nonce)
    requires TellsSuccess(notice)
    ensures var ledger := RunLedger(map[], events);
            && id in ledger
            && (Handle(Run(map[], events), id, m, available).notices == [notice] <==>
                available && Proves(ledger[id], notice))
  {
    hide Run, RunLedger, Handle, ProvesList, ProvesChange;
    RunMatches(map[], map[], events);
    var ops, ledger := Run(map[], events), RunLedger(map[], events);
    assert Agrees(ops[id], ledger[id]);
    Settled(ops, id, m, available);
    OutcomeIsExact(ops[id], ledger[id], available, notice);
  }

  lemma OutcomeIsExact(op: Operation, entry: Entry, available: bool, notice: Notice)
    requires Agrees(op, entry) && TellsSuccess(notice)
    ensures Outcome(op, available) == notice <==> available && Proves(entry, notice)
  {
    hide ProvesList, NoteAll;
    var noted := NoteAll(Started(entry.request, entry.nonce, op.started), entry.transcript);
    if entry.request == List {
      if notice.Listed? {
        ListFlagsAreExact(entry.nonce, op.started, entry.transcript, notice.rows);
      }
    } else {
      ChangeFlagsAreExact(Started(entry.request, entry.nonce, op.started), entry.transcript);
    }
  }

  /** What lets go of an operation. */
  predicate Releases(e: Event, id: string, nonce: string) {
    (e.Received? && e.id == id && Settles(e.m, nonce)) || e == Reset(id)
  }

  lemma StillWaits(ops: Operations, e: Event, id: string)
    requires id in ops && !Releases(e, id, ops[id].nonce)
    ensures id in Step(ops, e) && Step(ops, e)[id].nonce == ops[id].nonce && Step(ops, e)[id].request == ops[id].request
  {
    hide ParseRequest, Handle;
    if e.Received? {
      if e.id in ops {
        if Settles(e.m, ops[e.id].nonce) {
          Settled(ops, e.id, e.m, e.available);
        } else {
          HandleNotes(ops, e.id, e.m, e.available);
          NoteIgnoresTime(ops[e.id], Meaning(ops[e.id].request, e.m));
        }
      } else {
        NobodyWaits(ops, e.id, e.m, e.available);
      }
    }
  }

  /**
   * One operation per connection: until its own PONG or a reconnect, whatever else happens, timing out included, the
   * operation waits and every further command is refused without sending anything.
   */
  lemma {:induction false} OneOutstanding(ops: Operations, events: seq<Event>, id: string)
    requires id in ops && forall e | e in events :: !Releases(e, id, ops[id].nonce)
    ensures var later := Run(ops, events);
            && id in later && later[id].nonce == ops[id].nonce && later[id].request == ops[id].request
            && forall args, available, sending, nonce, now ::
                 Ask(later, id, args, available, sending, nonce, now) == (later, None)
    decreases |events|
  {
    hide Releases, Step;
    if events != [] {
      assert events[0] in events && forall e | e in events[1..] :: e in events;
      StillWaits(ops, events[0], id);
      OneOutstanding(Step(ops, events[0]), events[1..], id);
    }
  }
}

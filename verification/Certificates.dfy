/**
 * The certificate requests of src/app/bouncer_certificates.rs: a CLIENTCERT command is followed by a PING, and the
 * PONG is the barrier at which the outcome is told. Connections are kept elsewhere; whether certificates are available
 * on one is an input of each step.
 */
module Certificates {
  import opened Wrappers
  import opened Text
  import opened Utf8

  const CAP := "soju.im/client-cert"
  const MAX_CERTIFICATES: nat := 4096
  const TIMEOUT_SECONDS: int := 30

  datatype Request = List | Create | Delete(hash: Option<string>)

  datatype Operation = Operation(
    request: Request, nonce: string, started: int, timedOut: bool, failed: bool, acknowledged: bool,
    batch: Option<string>, rows: seq<string>)

  datatype Command =
    | Pong(first: string, second: Option<string>)
    | Batch(reference: string, kind: Option<string>)
    | Raw(name: string, args: seq<string>, batchTag: Option<string>)
    | OtherCommand

  /** `fromUser`: the prefix names a user or a host, so it is not the server speaking. */
  datatype Message = Message(fromUser: bool, command: Command)

  datatype Notice =
    | Incomplete
    | Listed(rows: seq<string>)
    | PinnedNotice
    | RemovedNotice
    | FailureText(words: seq<string>)
    | ConfirmedPinned

  // ----- values -----

  predicate IsHexDigit(c: char) { IsDigit(c) || 'a' <= c <= 'f' || 'A' <= c <= 'F' }

  predicate IsFingerprint(s: string) { |s| == 128 && forall c | c in s :: IsHexDigit(c) }

  predicate SameIgnoringCase(a: string, b: string) { AsciiLower(a) == AsciiLower(b) }

  /** Unicode category Cc. */
  predicate IsControl(c: char) { c < ' ' || '\U{7F}' <= c <= '\U{9F}' }

  /** `attribute`: undo the escapes of a value, and drop bare control characters. */
  function Attribute(s: string): string {
    if s == "" then ""
    else if s[0] == '\\' then
      if |s| == 1 then ""
      else
        (if s[1] == ':' then ";" else if s[1] == 's' || s[1] == 'r' || s[1] == 'n' then " " else [s[1]])
          + Attribute(s[2..])
    else (if IsControl(s[0]) then "" else [s[0]]) + Attribute(s[1..])
  }

  function EntryField(entry: string): seq<string> {
    match SplitOnce(entry, '=')
    case None => []
    case Some((key, value)) =>
      if key == "name" || key == "time" || key == "ip" then [key + "=" + Attribute(value)] else []
  }

  function EntryFields(entries: seq<string>): seq<string> {
    if entries == [] then [] else EntryField(entries[0]) + EntryFields(entries[1..])
  }

  function Entries(args: seq<string>): seq<string> {
    if args == [] then [] else Split(args[0], ';') + Entries(args[1..])
  }

  /** `certificate_row`. */
  function CertificateRow(args: seq<string>): Option<string> {
    if args == [] || !IsFingerprint(args[0]) then None
    else Some(TrimEnd(AsciiUpper(args[0]) + " " + Join(EntryFields(Entries(args[1..])), " ")))
  }

  // ----- asking -----

  /** The request a command line asks for, and the parameters it sends. */
  function ParseRequest(args: seq<string>): Option<(Request, seq<string>)> {
    if args == [] then Some((List, ["LIST"]))
    else
      var action, rest := args[0], args[1..];
      if SameIgnoringCase(action, "list") && rest == [] then Some((List, ["LIST"]))
      else if SameIgnoringCase(action, "create") && rest != [] then
        var name := Join(rest, " ");
        if name == "" || |Encode(name)| > 64 || (exists c | c in name :: IsControl(c)) then None
        else Some((Create, ["CREATE", name]))
      else if SameIgnoringCase(action, "delete") && rest == [] then Some((Delete(None), ["DELETE"]))
      else if SameIgnoringCase(action, "delete") && |rest| == 1 && IsFingerprint(rest[0]) then
        Some((Delete(Some(AsciiUpper(rest[0]))), ["DELETE", rest[0]]))
      else None
  }

  function Started(request: Request, nonce: string, now: int): Operation {
    Operation(request, nonce, now, false, false, false, None, [])
  }

  type Operations = map<string, Operation>

  /** `command`: what is sent, if anything. `sending` is whether the connection takes the request. */
  function Ask(ops: Operations, id: string, args: seq<string>, available: bool, sending: bool, nonce: string, now: int)
    : (Operations, Option<seq<string>>)
  {
    if !available || id in ops then (ops, None)
    else match ParseRequest(args)
      case None => (ops, None)
      case Some((request, parameters)) =>
        if !sending then (ops, None) else (ops[id := Started(request, nonce, now)], Some(parameters))
  }

  // ----- time passes -----

  function TickOne(op: Operation, available: bool, now: int): Operation {
    op.(failed := op.failed || !available, timedOut := op.timedOut || now - op.started > TIMEOUT_SECONDS)
  }

  /** `tick_bouncer_certificates`. */
  function Tick(ops: Operations, available: set<string>, now: int): Operations {
    map id | id in ops :: TickOne(ops[id], id in available, now)
  }

  // ----- replies -----

  /** What the user is told at the barrier. */
  function Outcome(op: Operation, available: bool): Notice {
    if op.failed || !available || !op.acknowledged then Incomplete
    else match op.request
      case List => Listed(op.rows)
      case Create => PinnedNotice
      case Delete(_) => RemovedNotice
  }

  function OpenBatch(op: Operation, reference: string): Operation {
    if op.request != List || op.batch.Some? then op.(failed := true) else op.(batch := Some(reference))
  }

  function AddRow(op: Operation, tag: Option<string>, row: Option<string>): Operation {
    if op.batch.None? || tag != op.batch || op.acknowledged || |op.rows| >= MAX_CERTIFICATES then op.(failed := true)
    else match row
      case Some(text) => op.(rows := op.rows + [text])
      case None => op.(failed := true)
  }

  predicate DeletionMatches(expected: Option<string>, args: seq<string>) {
    |args| == 2 && IsFingerprint(args[1]) && (expected.Some? ==> SameIgnoringCase(expected.value, args[1]))
  }

  /** A CLIENTCERT reply, for the operation that is waiting. */
  function Reply(op: Operation, args: seq<string>, tag: Option<string>): Operation {
    if args == [] then op.(failed := true)
    else
      var action := AsciiUpper(args[0]);
      if op.request == List && action == "LIST" then AddRow(op, tag, CertificateRow(args[1..]))
      else if ((op.request == Create && action == "CREATE") || (op.request == Delete(None) && action == "DELETE"))
        && |args| == 1
      then op.(acknowledged := true)
      else if op.request.Delete? && action == "DELETE" && DeletionMatches(op.request.hash, args) then
        op.(acknowledged := true)
      else op.(failed := true)
  }

  predicate OpensList(c: Command) {
    c.Batch? && c.reference != "" && c.reference[0] == '+' && c.kind.Some? && SameIgnoringCase(c.kind.value, CAP)
  }

  predicate Closes(c: Command, batch: Option<string>) {
    c.Batch? && batch.Some? && c.reference == "-" + batch.value
  }

  predicate FailsCertificates(c: Command) {
    c.Raw? && SameIgnoringCase(c.name, "FAIL") && c.args != [] && SameIgnoringCase(c.args[0], "CLIENTCERT")
  }

  predicate IsReply(c: Command) { c.Raw? && SameIgnoringCase(c.name, "CLIENTCERT") }

  /** A pin the bouncer confirms unasked. */
  predicate ConfirmsPin(c: Command, request: Option<Request>) {
    IsReply(c) && |c.args| == 1 && SameIgnoringCase(c.args[0], "CREATE") && request != Some(Create)
  }

  predicate Answers(c: Command, op: Operation) { c.Pong? && (c.first == op.nonce || c.second == Some(op.nonce)) }

  datatype Handled = Handled(ops: Operations, ours: bool, notices: seq<Notice>)

  /** `handle_bouncer_certificates`. */
  function Handle(ops: Operations, id: string, m: Message, available: bool): Handled {
    var c := m.command;
    if m.fromUser then Handled(ops, false, [])
    else if c.Pong? then
      if id in ops && Answers(c, ops[id]) then Handled(ops - {id}, true, [Outcome(ops[id], available)])
      else Handled(ops, false, [])
    else if OpensList(c) then
      Handled(if id in ops then ops[id := OpenBatch(ops[id], c.reference[1..])] else ops, true, [])
    else if id in ops && Closes(c, ops[id].batch) then Handled(ops[id := ops[id].(acknowledged := true)], true, [])
    else if FailsCertificates(c) then
      Handled(if id in ops then ops[id := ops[id].(failed := true)] else ops, true, [FailureText(c.args[1..])])
    else if ConfirmsPin(c, if id in ops then Some(ops[id].request) else None) then
      Handled(ops, true, if available then [ConfirmedPinned] else [])
    else if IsReply(c) then
      Handled(if id in ops then ops[id := Reply(ops[id], c.args, c.batchTag)] else ops, true, [])
    else Handled(ops, false, [])
  }

  // ----- the same, in place -----

  class CertificateRequests {
    var operations: Operations

    constructor ()
      ensures operations == map[]
    {
      operations := map[];
    }

    /** `command`. */
    method Command(id: string, args: seq<string>, available: bool, sending: bool, nonce: string, now: int)
      returns (sent: Option<seq<string>>)
      modifies this
      ensures (operations, sent) == Ask(old(operations), id, args, available, sending, nonce, now)
    {
      hide ParseRequest;
      if !available || id in operations {
        return None;
      }
      var parsed := ParseRequest(args);
      if parsed.None? || !sending {
        return None;
      }
      operations := operations[id := Started(parsed.value.0, nonce, now)];
      return Some(parsed.value.1);
    }

    /** `tick_bouncer_certificates`. */
    method TickAll(available: set<string>, now: int)
      modifies this
      ensures operations == Tick(old(operations), available, now)
    {
      var ids := operations.Keys;
      while ids != {}
        invariant ids <= old(operations).Keys == operations.Keys
        invariant forall id | id in operations ::
                    operations[id] == if id in ids then old(operations[id])
                      else TickOne(old(operations[id]), id in available, now)
        decreases ids
      {
        var id :| id in ids;
        ids := ids - {id};
        var op := operations[id];
        op := op.(failed := op.failed || id !in available);
        if !op.timedOut && now - op.started > TIMEOUT_SECONDS {
          op := op.(timedOut := true);
        }
        operations := operations[id := op];
      }
    }

    method Change(id: string, op: Operation)
      requires id in operations
      modifies this
      ensures operations == old(operations)[id := op]
    {
      operations := operations[id := op];
    }

    /** `handle_bouncer_certificates`. */
    method HandleMessage(id: string, m: Message, available: bool) returns (ours: bool, notices: seq<Notice>)
      modifies this
      ensures Handled(operations, ours, notices) == Handle(old(operations), id, m, available)
    {
      hide Reply, OpensList, FailsCertificates, IsReply, ConfirmsPin, Closes, Outcome, OpenBatch;
      notices := [];
      var c := m.command;
      if m.fromUser {
        return false, [];
      }
      if c.Pong? {
        if id !in operations || !Answers(c, operations[id]) {
          return false, [];
        }
        var op := operations[id];
        operations := operations - {id};
        return true, [Outcome(op, available)];
      }
      ours := true;
      if OpensList(c) {
        OpensListIsBatch(c);
        if id in operations {
          Change(id, OpenBatch(operations[id], c.reference[1..]));
        }
      } else if id in operations && Closes(c, operations[id].batch) {
        Change(id, operations[id].(acknowledged := true));
      } else if FailsCertificates(c) {
        FailureHasWords(c);
        if id in operations {
          Change(id, operations[id].(failed := true));
        }
        notices := [FailureText(c.args[1..])];
      } else if ConfirmsPin(c, if id in operations then Some(operations[id].request) else None) {
        if available {
          notices := [ConfirmedPinned];
        }
      } else if IsReply(c) {
        ReplyIsRaw(c);
        if id in operations {
          Change(id, Reply(operations[id], c.args, c.batchTag));
        }
      } else {
        ours := false;
      }
    }
  }

  lemma OpensListIsBatch(c: Command)
    requires OpensList(c)
    ensures c.Batch? && c.reference != ""
  {
  }

  lemma FailureHasWords(c: Command)
    requires FailsCertificates(c)
    ensures c.Raw? && c.args != []
  {
  }

  lemma ReplyIsRaw(c: Command)
    requires IsReply(c)
    ensures c.Raw?
  {
  }
}

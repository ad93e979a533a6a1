/** The durable approval table: one row per request, changed only by guarded single-row
    updates. */
module Approvals {
  import opened Results
  import opened Json
  import opened Canonical
  import Redaction

  const APPROVAL_TTL: int := 5 * 60

  /** A stored state; anything unrecognised is kept apart so that reading it fails closed. */
  datatype State = Pending | Claimed | Executing | Done | Failed | Denied | Expired | Unrecognised(text: string)

  /** How far a request has come. The states of rank 3 are final. */
  function Rank(s: State): nat {
    match s
    case Pending => 0
    case Claimed => 1
    case Executing => 2
    case _ => 3
  }

  predicate Terminal(s: State) { Rank(s) == 3 }

  /** SHA-256, taken as injective: a digest determines the text it was computed from. */
  datatype Digest = Sha256(preimage: string)

  datatype Row = Row(
    client: string, tool: string, digest: Digest, canonical: string, correlation: string,
    createdAt: int, expiresAt: int,
    state: State, resolvedAt: Option<int>, result: Option<string>)

  type Table = map<string, Row>

  const INTEGRITY_FAILURE: string := "{\"success\":false,\"error\":\"argument integrity check failed\"}"
  const UNREADABLE_ARGS: string := "{\"success\":false,\"error\":\"stored canonical args are not valid JSON\"}"
  const INTERRUPTED: string := "{\"success\":false,\"error\":\"interrupted at shutdown; not retried\"}"

  // ----- bindings -----

  predicate Binds(row: Row, client: string, tool: string, digest: Digest) {
    row.client == client && row.tool == tool && row.digest == digest
  }

  /** The unique index: one row per client, tool and argument digest. */
  ghost predicate UniqueBindings(t: Table) {
    forall i, j :: i in t && j in t && Binds(t[i], t[j].client, t[j].tool, t[j].digest) ==> i == j
  }

  /** The part of a row that is fixed when it is inserted. */
  predicate SameRequest(a: Row, b: Row) {
    a.client == b.client && a.tool == b.tool && a.digest == b.digest && a.canonical == b.canonical &&
    a.correlation == b.correlation && a.createdAt == b.createdAt && a.expiresAt == b.expiresAt
  }

  function NewRow(client: string, tool: string, args: Value, correlation: string, now: int): Row {
    var canonical := Canonicalize(args);
    Row(client, tool, Sha256(canonical), canonical, correlation, now, now + APPROVAL_TTL, Pending, None, None)
  }

  // ----- the statements -----

  /** `INSERT … ON CONFLICT(client_id, tool, args_digest) DO NOTHING`, under a fresh id. */
  function Insert(t: Table, id: string, row: Row): Table
    requires id !in t
  {
    if exists i :: i in t && Binds(t[i], row.client, row.tool, row.digest) then t else t[id := row]
  }

  function Move(t: Table, id: string, state: State, now: int): Table
    requires id in t
  {
    t[id := t[id].(state := state, resolvedAt := Some(now))]
  }

  /** `… SET state='expired' WHERE id=? AND state='pending'`. */
  function ExpireOne(t: Table, id: string, now: int): Table {
    if id in t && t[id].state == Pending then Move(t, id, Expired, now) else t
  }

  function DenyOne(t: Table, id: string, now: int): Table {
    if id in t && t[id].state == Pending then Move(t, id, Denied, now) else t
  }

  predicate Claimable(t: Table, id: string, now: int) {
    id in t && t[id].state == Pending && t[id].expiresAt > now
  }

  function ClaimOne(t: Table, id: string, now: int): Table {
    if Claimable(t, id, now) then Move(t, id, Claimed, now) else t
  }

  function MarkOne(t: Table, id: string): Table {
    if id in t && t[id].state == Claimed then t[id := t[id].(state := Executing)] else t
  }

  function FinishOne(t: Table, id: string, ok: bool, result: string, now: int): Table {
    if id in t && t[id].state == Executing
    then t[id := t[id].(state := if ok then Done else Failed, resolvedAt := Some(now), result := Some(result))]
    else t
  }

  /** The integrity failure's update carries no state guard. */
  function FailTampered(t: Table, id: string, now: int): Table {
    if id in t
    then t[id := t[id].(state := Failed, resolvedAt := Some(now), result := Some(INTEGRITY_FAILURE))]
    else t
  }

  function FailUnreadable(t: Table, id: string, now: int): Table {
    if id in t && t[id].state == Claimed
    then t[id := t[id].(state := Failed, resolvedAt := Some(now), result := Some(UNREADABLE_ARGS))]
    else t
  }

  predicate Overdue(row: Row, now: int) {
    row.state == Pending && row.expiresAt <= now
  }

  function ExpireOverdue(t: Table, now: int): Table {
    map id | id in t :: if Overdue(t[id], now) then t[id].(state := Expired, resolvedAt := Some(now)) else t[id]
  }

  function FailInterrupted(t: Table, now: int): Table {
    map id | id in t ::
      if t[id].state == Claimed || t[id].state == Executing
      then t[id].(state := Failed, resolvedAt := Some(now), result := Some(INTERRUPTED))
      else t[id]
  }

  /** The text `finish` stores for a tool result. */
  function StoredResult(result: Value): string {
    Print(Redaction.SanitizeValue(result))
  }

  // ----- what a client is told -----

  /** A stored result read back; unreadable text becomes a definite failure. */
  function ReadResult(raw: Option<string>): Option<Value> {
    match raw
    case None => None
    case Some(text) =>
      (match Parse(text)
       case Some(v) => Some(v)
       case None => Some(Object([Field("success", Bool(false)),
                                 Field("error", Str("stored result could not be read"))])))
  }

  datatype Handle = Handle(id: string, state: State, expiresAt: int, result: Option<Value>, created: bool)

  datatype Error = NotFound | NotPending | UnrecognisedState(text: string) | CorruptArguments | Store

  /** The handle for a row as it was read: an overdue pending row is reported expired. */
  function HandleOf(id: string, row: Row, now: int, created: bool): Result<Handle, Error> {
    if row.state.Unrecognised? then Err(UnrecognisedState(row.state.text))
    else Ok(Handle(id, if Overdue(row, now) then Expired else row.state, row.expiresAt, ReadResult(row.result), created))
  }

  datatype Claim = Claim(id: string, client: string, tool: string, correlation: string, args: Value)

  // ----- every statement keeps the table's shape -----

  /** A result is stored exactly in the two states that have one. */
  predicate ResultShape(row: Row) {
    row.result.Some? <==> row.state == Done || row.state == Failed
  }

  ghost predicate WellFormed(t: Table) {
    UniqueBindings(t) && forall id :: id in t ==> ResultShape(t[id])
  }

  /** The stored digest still matches the stored arguments. */
  predicate Intact(row: Row) {
    row.digest == Sha256(row.canonical)
  }

  /** Requests are never removed or rebound, and no row goes back: it keeps its state or
      moves strictly forward. */
  ghost predicate Forward(t: Table, u: Table) {
    forall id :: id in t ==>
      id in u && SameRequest(t[id], u[id]) &&
      (u[id].state == t[id].state || Rank(t[id].state) < Rank(u[id].state))
  }

  lemma ForwardTransitive(t: Table, u: Table, v: Table)
    requires Forward(t, u) && Forward(u, v)
    ensures Forward(t, v)
  {
  }

  /** Rewriting rows in place, binding kept, preserves uniqueness. */
  lemma RewriteKeepsBindings(t: Table, u: Table)
    requires UniqueBindings(t) && t.Keys == u.Keys
    requires forall id :: id in t ==> SameRequest(t[id], u[id])
    ensures UniqueBindings(u)
  {
    forall i, j | i in u && j in u && Binds(u[i], u[j].client, u[j].tool, u[j].digest) ensures i == j {
      assert i in t && j in t && SameRequest(t[i], u[i]) && SameRequest(t[j], u[j]);
    }
  }

  /** For an intact table, one row per client, tool and meaning of the arguments: two calls
      land on the same row exactly when their arguments differ only in key order. */
  lemma OneRowPerCall(t: Table, i: string, j: string, a: Value, b: Value)
    requires UniqueBindings(t) && i in t && j in t && Valid(a) && Valid(b)
    requires t[i].client == t[j].client && t[i].tool == t[j].tool
    requires t[i].digest == Sha256(Canonicalize(a)) && t[j].digest == Sha256(Canonicalize(b))
    ensures i == j <==> Denote(a) == Denote(b)
  {
    CanonicalTextIffSameMeaning(a, b);
    assert i != j ==> !Binds(t[i], t[j].client, t[j].tool, t[j].digest);
  }

  /** A stored result always reads back, as the sanitized value it was written from. */
  lemma StoredResultReadsBack(result: Value)
    requires Valid(result)
    ensures ReadResult(Some(StoredResult(result))) == Some(Redaction.SanitizeValue(result))
  {
    Redaction.SanitizeValueValid(result);
    RoundTrip(Redaction.SanitizeValue(result));
  }
}

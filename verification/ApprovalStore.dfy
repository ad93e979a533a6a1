/** The operations on the approval table as the program performs them, one at a time. */
module ApprovalStore {
  import opened Results
  import opened Json
  import opened Canonical
  import opened Approvals
  import opened Permissions
  import ApprovalProtocol

  /** What a tool gives back. */
  datatype ToolResult = ToolResult(success: bool, value: Value)

  /** The final state and stored text of an approved request that was claimed. */
  function Outcome(args: Value, objection: Option<string>, active: bool, tool: Value -> ToolResult): (State, string) {
    match objection
    case Some(detail) => (Failed, StoredResult(ApprovalProtocol.Failure(detail)))
    case None =>
      if !active then
        (Failed, StoredResult(ApprovalProtocol.Failure(ApprovalProtocol.RESTARTING)))
      else
        (if tool(args).success then Done else Failed, StoredResult(tool(args).value))
  }

  /** The row as it is left by the terminal update. */
  function Closed(row: Row, state: State, now: int, text: string): Row {
    row.(state := state, resolvedAt := Some(now), result := Some(text))
  }

  /** A claim moves one row. */
  lemma ClaimedTable(t: Table, id: string, now: int)
    requires WellFormed(t) && Claimable(t, id, now)
    ensures var u := ClaimOne(t, id, now);
      WellFormed(u) && u == Move(t, id, State.Claimed, now) && id in u && u[id] == t[id].(state := State.Claimed, resolvedAt := Some(now))
  {
    RewriteKeepsBindings(t, ClaimOne(t, id, now));
  }

  /** The two ways a claim fails the row it has just moved. */
  lemma TamperedTable(t: Table, id: string, now: int)
    requires WellFormed(t) && Claimable(t, id, now)
    ensures var u := FailTampered(ClaimOne(t, id, now), id, now);
      WellFormed(u) && u == t[id := Closed(t[id], Failed, now, INTEGRITY_FAILURE)]
  {
    hide INTEGRITY_FAILURE, WellFormed;
    ClosedRow(t, id, Closed(t[id], Failed, now, INTEGRITY_FAILURE));
    WrittenTwice(t, id, t[id].(state := State.Claimed, resolvedAt := Some(now)), Closed(t[id], Failed, now, INTEGRITY_FAILURE));
  }

  lemma UnreadableTable(t: Table, id: string, now: int)
    requires WellFormed(t) && Claimable(t, id, now)
    ensures var u := FailUnreadable(ClaimOne(t, id, now), id, now);
      WellFormed(u) && u == t[id := Closed(t[id], Failed, now, UNREADABLE_ARGS)]
  {
    hide UNREADABLE_ARGS, WellFormed;
    ClosedRow(t, id, Closed(t[id], Failed, now, UNREADABLE_ARGS));
    WrittenTwice(t, id, t[id].(state := State.Claimed, resolvedAt := Some(now)), Closed(t[id], Failed, now, UNREADABLE_ARGS));
  }

  lemma WrittenTwice(t: Table, id: string, first: Row, second: Row)
    ensures t[id := first][id := second] == t[id := second]
  {
  }

  lemma ClosedRow(t: Table, id: string, row: Row)
    requires WellFormed(t) && id in t && SameRequest(t[id], row) && ResultShape(row)
    ensures WellFormed(t[id := row])
  {
    RewriteKeepsBindings(t, t[id := row]);
  }

  class Store {
    var rows: Table

    ghost predicate Valid() reads this { WellFormed(rows) }

    constructor ()
      ensures Valid() && rows == map[]
    {
      rows := map[];
    }

    /** Insert unless the binding exists, then read back the one row the binding selects;
        every state is reused, and an overdue pending row is expired on the way. */
    method CreateOrReuse(client: string, tool: string, args: Value, correlation: string,
                         id: string, now: int, later: int)
      returns (r: Result<Handle, Error>, ghost bound: string)
      requires Valid() && id !in rows
      modifies this
      ensures Valid()
      ensures var row := NewRow(client, tool, args, correlation, now);
        var inserted := Insert(old(rows), id, row);
        && bound in inserted && Binds(inserted[bound], client, tool, row.digest)
        && (bound == id <==> forall i :: i in old(rows) ==> !Binds(old(rows)[i], client, tool, row.digest))
        && r == HandleOf(bound, inserted[bound], later, bound == id)
        && rows == (if Overdue(inserted[bound], later) then ExpireOne(inserted, bound, later) else inserted)
    {
      var row := NewRow(client, tool, args, correlation, now);
      var before := rows;
      rows := Insert(rows, id, row);
      assert id in rows ==> Binds(rows[id], client, tool, row.digest);
      var found :| found in rows && Binds(rows[found], client, tool, row.digest);
      bound := found;
      assert WellFormed(rows);
      r := RowToHandle(found, rows[found], later, id in rows);
    }

    /** Turn a row as it was read, which may have moved since, into a handle; if it was pending
        and overdue then, expire it where it is still pending now. */
    method RowToHandle(id: string, row: Row, now: int, created: bool) returns (r: Result<Handle, Error>)
      requires Valid()
      modifies this
      ensures Valid()
      ensures r == HandleOf(id, row, now, created)
      ensures rows == (if Overdue(row, now) then ExpireOne(old(rows), id, now) else old(rows))
    {
      if row.state.Unrecognised? {
        return Err(UnrecognisedState(row.state.text));
      }
      var state := row.state;
      if state == Pending && row.expiresAt <= now {
        var updated := ExpireOne(rows, id, now);
        RewriteKeepsBindings(rows, updated);
        rows := updated;
        state := Expired;
      }
      r := Ok(Handle(id, state, row.expiresAt, ReadResult(row.result), created));
    }

    /** Only the owning client sees its request. */
    method ViewForClient(id: string, client: string, now: int) returns (r: Result<Handle, Error>)
      requires Valid()
      modifies this
      ensures Valid()
      ensures id !in old(rows) || old(rows)[id].client != client ==> r == Err(NotFound) && rows == old(rows)
      ensures id in old(rows) && old(rows)[id].client == client ==>
        r == HandleOf(id, old(rows)[id], now, false) &&
        rows == (if Overdue(old(rows)[id], now) then ExpireOne(old(rows), id, now) else old(rows))
    {
      if id !in rows || rows[id].client != client {
        return Err(NotFound);
      }
      r := RowToHandle(id, rows[id], now, false);
    }

    method Deny(id: string, now: int) returns (r: Result<(string, string, string), Error>)
      requires Valid()
      modifies this
      ensures Valid()
      ensures id in old(rows) && old(rows)[id].state == Pending ==>
        rows == Move(old(rows), id, Denied, now) &&
        r == Ok((old(rows)[id].client, old(rows)[id].tool, old(rows)[id].correlation))
      ensures !(id in old(rows) && old(rows)[id].state == Pending) ==> rows == old(rows) && r == Err(NotPending)
    {
      var updated := DenyOne(rows, id, now);
      if updated == rows {
        return Err(NotPending);
      }
      RewriteKeepsBindings(rows, updated);
      rows := updated;
      r := Ok((rows[id].client, rows[id].tool, rows[id].correlation));
    }

    /** The exactly-once gate: only a pending row that has not expired can be claimed, and a
        row whose arguments no longer match or cannot be read is failed instead. */
    method Claim(id: string, now: int) returns (r: Result<Approvals.Claim, Error>)
      requires Valid()
      modifies this
      ensures Valid()
      ensures !Claimable(old(rows), id, now) ==> r == Err(NotPending) && rows == old(rows)
      ensures Claimable(old(rows), id, now) ==>
        var row := old(rows)[id];
        if !Intact(row) then
          r == Err(NotPending) && rows == old(rows)[id := Closed(row, Failed, now, INTEGRITY_FAILURE)]
        else if Parse(row.canonical).None? then
          r == Err(CorruptArguments) && rows == old(rows)[id := Closed(row, Failed, now, UNREADABLE_ARGS)]
        else
          r == Ok(Approvals.Claim(id, row.client, row.tool, row.correlation, Parse(row.canonical).value)) &&
          rows == Move(old(rows), id, State.Claimed, now)
    {
      hide Parse, WellFormed, FailTampered, FailUnreadable;
      if !Claimable(rows, id, now) {
        return Err(NotPending);
      }
      ClaimedTable(rows, id, now);
      TamperedTable(rows, id, now);
      UnreadableTable(rows, id, now);
      rows := ClaimOne(rows, id, now);
      var row := rows[id];
      if !Intact(row) {
        rows := FailTampered(rows, id, now);
        return Err(NotPending);
      }
      var parsed := Parse(row.canonical);
      if parsed.None? {
        rows := FailUnreadable(rows, id, now);
        return Err(CorruptArguments);
      }
      r := Ok(Approvals.Claim(id, row.client, row.tool, row.correlation, parsed.value));
    }

    method MarkExecuting(id: string) returns (r: Result<(), Error>)
      requires Valid()
      modifies this
      ensures Valid()
      ensures if id in old(rows) && old(rows)[id].state == State.Claimed
        then r == Ok(()) && rows == old(rows)[id := old(rows)[id].(state := State.Executing)]
        else r == Err(NotPending) && rows == old(rows)
    {
      if id !in rows || rows[id].state != State.Claimed {
        return Err(NotPending);
      }
      var updated := MarkOne(rows, id);
      RewriteKeepsBindings(rows, updated);
      rows := updated;
      r := Ok(());
    }

    /** Exactly one executing row must move; anything else is an error, not a silent drop. */
    method Finish(id: string, ok: bool, result: Value, now: int) returns (r: Result<(), Error>)
      requires Valid()
      modifies this
      ensures Valid()
      ensures if id in old(rows) && old(rows)[id].state == State.Executing
        then r == Ok(()) &&
             rows == old(rows)[id := Closed(old(rows)[id], if ok then Done else Failed, now, StoredResult(result))]
        else r == Err(NotPending) && rows == old(rows)
    {
      if id !in rows || rows[id].state != State.Executing {
        return Err(NotPending);
      }
      hide StoredResult, WellFormed;
      ClosedRow(rows, id, Closed(rows[id], if ok then Done else Failed, now, StoredResult(result)));
      rows := FinishOne(rows, id, ok, StoredResult(result), now);
      r := Ok(());
    }

    /** Fail a claimed or executing request closed, whatever its two updates report; one that
        has meanwhile been failed by recovery, or is gone, stays as it is. */
    method Fail(id: string, detail: string, now: int)
      requires Valid()
      modifies this
      ensures Valid()
      ensures rows == if id in old(rows) && (old(rows)[id].state == State.Claimed || old(rows)[id].state == State.Executing)
        then old(rows)[id := Closed(old(rows)[id], Failed, now, StoredResult(ApprovalProtocol.Failure(detail)))]
        else old(rows)
    {
      var _ := MarkExecuting(id);
      var _ := Finish(id, false, ApprovalProtocol.Failure(detail), now);
    }

    /** Run an approved request: claim it, check policy again, run the stored arguments at
        most once, and leave the row final with a stored result. */
    method ExecuteApproved(id: string, now: int, conditions: ApprovalProtocol.Conditions, inApp: Policy,
                           active: bool, tool: Value -> ToolResult)
      returns (r: Result<(), Error>, ran: seq<Value>)
      requires Valid()
      modifies this
      ensures Valid()
      ensures !Claimable(old(rows), id, now) ==> r == Err(NotPending) && rows == old(rows) && ran == []
      ensures Claimable(old(rows), id, now) ==> id in rows && Terminal(rows[id].state) && rows[id].result.Some?
      ensures Claimable(old(rows), id, now) && (!Intact(old(rows)[id]) || Parse(old(rows)[id].canonical).None?) ==>
        r.Err? && ran == []
      ensures Claimable(old(rows), id, now) && Intact(old(rows)[id]) && Parse(old(rows)[id].canonical).Some? ==>
        var args := Parse(old(rows)[id].canonical).value;
        var objection := ApprovalProtocol.Objection(conditions, inApp);
        var outcome := Outcome(args, objection, active, tool);
        && r == Ok(())
        && ran == (if objection == None && active then [args] else [])
        && rows == old(rows)[id := Closed(old(rows)[id], outcome.0, now, outcome.1)]
    {
      hide Parse, StoredResult, ApprovalProtocol.Objection, WellFormed, Outcome;
      ran := [];
      var before := rows;
      var claim := Claim(id, now);
      if claim.Err? {
        return Err(claim.error), [];
      }
      r, ran := RunClaimed(id, claim.value.args, now, ApprovalProtocol.Objection(conditions, inApp), active, tool);
      assert rows == before[id := rows[id]];
    }

    /** The part of an approved run after its claim. */
    method RunClaimed(id: string, args: Value, now: int, objection: Option<string>, active: bool,
                      tool: Value -> ToolResult)
      returns (r: Result<(), Error>, ran: seq<Value>)
      requires Valid() && id in rows && rows[id].state == State.Claimed
      modifies this
      ensures Valid()
      ensures var outcome := Outcome(args, objection, active, tool);
        && r == Ok(())
        && Terminal(outcome.0)
        && ran == (if objection == None && active then [args] else [])
        && rows == old(rows)[id := Closed(old(rows)[id], outcome.0, now, outcome.1)]
    {
      hide StoredResult, WellFormed;
      if objection.Some? {
        Fail(id, objection.value, now);
        return Ok(()), [];
      }
      var before := rows;
      var marked := MarkExecuting(id);
      if !active {
        Fail(id, ApprovalProtocol.RESTARTING, now);
        assert rows == before[id := rows[id]];
        return Ok(()), [];
      }
      ran := [args];
      var result := tool(args);
      r := Finish(id, result.success, result.value, now);
      assert rows == before[id := rows[id]];
    }

    /** Expire every overdue pending row. */
    method Sweep(now: int)
      requires Valid()
      modifies this
      ensures Valid() && rows == ExpireOverdue(old(rows), now)
    {
      var updated := ExpireOverdue(rows, now);
      RewriteKeepsBindings(rows, updated);
      rows := updated;
    }

    /** After a crash: nothing is replayed, everything in flight is failed, and the overdue expire. */
    method RecoverInterrupted(now: int) returns (failed: set<string>)
      requires Valid()
      modifies this
      ensures Valid() && rows.Keys == old(rows).Keys
      ensures failed == set id | id in old(rows) &&
        (old(rows)[id].state == State.Claimed || old(rows)[id].state == State.Executing)
      ensures forall id :: id in rows ==>
        rows[id] == (if id in failed then Closed(old(rows)[id], Failed, now, INTERRUPTED)
                     else if Overdue(old(rows)[id], now) then old(rows)[id].(state := Expired, resolvedAt := Some(now))
                     else old(rows)[id])
    {
      failed := set id | id in rows && (rows[id].state == State.Claimed || rows[id].state == State.Executing);
      var updated := FailInterrupted(rows, now);
      RewriteKeepsBindings(rows, updated);
      rows := updated;
      Sweep(now);
    }
  }
}

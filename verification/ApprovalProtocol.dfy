/** Every interleaving of the programs that work on the approval table: bridge calls and
    polls, dashboard approvals and denials, the periodic sweep, the recovery pass, store
    failures and crashes. Each database statement is one atomic step. */
module ApprovalProtocol {
  import opened Results
  import opened Json
  import opened Canonical
  import opened Approvals
  import opened Permissions

  // ----- the programs -----

  /** Where one run of `execute_approved` stands. `storeError` records that a statement of
      the run failed and the failure was not retried. */
  datatype Approver =
    | Claiming(id: string)
    | Loading(id: string)
    | Tampered(id: string)
    | Unreadable(id: string)
    | Checking(claim: Claim)
    | Marking(claim: Claim)
    | Starting(claim: Claim)
    | Running(claim: Claim)
    | Finishing(claim: Claim, ok: bool, result: Value)
    | FailMarking(id: string, detail: string)
    | FailFinishing(id: string, detail: string, storeError: bool)
    | Returned(id: string, claimed: bool, storeError: bool)

  function Subject(a: Approver): string {
    match a
    case Checking(c) => c.id
    case Marking(c) => c.id
    case Starting(c) => c.id
    case Running(c) => c.id
    case Finishing(c, _, _) => c.id
    case _ => a.id
  }

  /** Has this run claimed its row and not yet returned? */
  predicate Holds(a: Approver) {
    !a.Claiming? && !a.Returned?
  }

  /** What a bridge call answers. */
  datatype Outcome =
    | Executed(result: Option<Value>)
    | Denied
    | ApprovalRequired(id: string, expiresAt: int)
    | ApprovalDenied
    | ApprovalExpired
    | UnknownTool

  /** Where one bridge request stands. */
  datatype Caller =
    | Inserting(client: string, tool: string, args: Value, correlation: string)
    | Selecting(client: string, tool: string, digest: Digest, created: bool)
    | Answering(id: string, row: Row, created: bool, isCall: bool)
    | Told(handle: Result<Handle, Error>, isCall: bool)
    | Finished(outcome: Outcome)

  /** What the policy check after the claim reads. */
  datatype Conditions = Conditions(enabled: bool, permissions: Option<Policy>, tool: Option<Tool>)

  datatype Event =
    | ClaimedAt(id: string, now: int)
    | Permitted(id: string, decision: Decision)
    | Ran(id: string, args: Value)
    | RanDirectly(client: string, tool: string, args: Value)

  datatype World = World(
    rows: Table, approvers: map<nat, Approver>, callers: map<nat, Caller>, log: seq<Event>)

  // ----- the steps -----

  datatype Step =
    | Call(c: nat, client: string, tool: string, args: Value, correlation: string,
           found: Option<Tool>, policy: Policy, active: bool)
    | InsertRow(c: nat, id: string, now: int)
    | SelectRow(c: nat)
    | Poll(c: nat, id: string, client: string)
    | Answer(c: nat, now: int)
    | CallerStops(c: nat)
    | DenyRequest(id: string, now: int)
    | Approve(e: nat, id: string)
    | ClaimRow(e: nat, now: int)
    | LoadRow(e: nat)
    | FailIntegrity(e: nat, now: int)
    | FailParse(e: nat, now: int)
    | CheckPolicy(e: nat, conditions: Conditions, inApp: Policy)
    | MarkRow(e: nat)
    | BeginTool(e: nat, active: bool)
    | ToolReturns(e: nat, ok: bool, result: Value)
    | FinishRow(e: nat, now: int)
    | FailMark(e: nat)
    | FailFinish(e: nat, now: int)
    | StoreFails(e: nat)
    | Sweep(now: int)
    | Interrupt(now: int)
    | Crash

  predicate At(w: World, e: nat) { e in w.approvers }

  function Goto(w: World, e: nat, a: Approver): World {
    w.(approvers := w.approvers[e := a])
  }

  function Tell(w: World, c: nat, caller: Caller): World {
    w.(callers := w.callers[c := caller])
  }

  function Note(w: World, event: Event): World {
    w.(log := w.log + [event])
  }

  /** A bridge call after authentication: refused, run directly, or parked on the queue. */
  function Arrive(w: World, s: Step): World
    requires s.Call?
  {
    if s.found.None? then Tell(w, s.c, Finished(UnknownTool))
    else match Decide(s.found.value, Mcp(s.policy), s.policy)
      case Refuse => Tell(w, s.c, Finished(Outcome.Denied))
      case Execute =>
        if s.active then Note(Tell(w, s.c, Finished(Executed(None))), RanDirectly(s.client, s.tool, s.args))
        else Tell(w, s.c, Finished(Executed(None)))
      case RequireApproval => Tell(w, s.c, Inserting(s.client, s.tool, s.args, s.correlation))
  }

  function DoInsert(w: World, s: Step): World
    requires s.InsertRow? && s.c in w.callers && w.callers[s.c].Inserting? && s.id !in w.rows
  {
    var c := w.callers[s.c];
    var row := NewRow(c.client, c.tool, c.args, c.correlation, s.now);
    var rows := Insert(w.rows, s.id, row);
    Tell(w.(rows := rows), s.c, Selecting(c.client, c.tool, row.digest, s.id in rows))
  }

  /** The row a binding selects; there is one after an insert of that binding. */
  ghost function SelectBinding(t: Table, client: string, tool: string, digest: Digest): (r: Option<string>)
    ensures r.Some? ==> r.value in t && Binds(t[r.value], client, tool, digest)
    ensures r.None? ==> forall id :: id in t ==> !Binds(t[id], client, tool, digest)
  {
    if id :| id in t && Binds(t[id], client, tool, digest) then Some(id) else None
  }

  ghost function DoSelect(w: World, s: Step): World
    requires s.SelectRow? && s.c in w.callers && w.callers[s.c].Selecting?
  {
    var c := w.callers[s.c];
    match SelectBinding(w.rows, c.client, c.tool, c.digest)
    case Some(id) => Tell(w, s.c, Answering(id, w.rows[id], c.created, true))
    case None => Tell(w, s.c, Told(Err(Error.Store), true))
  }

  function DoPoll(w: World, s: Step): World
    requires s.Poll?
  {
    if s.id in w.rows && w.rows[s.id].client == s.client
    then Tell(w, s.c, Answering(s.id, w.rows[s.id], false, false))
    else Tell(w, s.c, Told(Err(NotFound), false))
  }

  /** The row read earlier decides the answer; only its expiry update touches the table. */
  function DoAnswer(w: World, s: Step): World
    requires s.Answer? && s.c in w.callers && w.callers[s.c].Answering?
  {
    var c := w.callers[s.c];
    var rows := if !c.row.state.Unrecognised? && Overdue(c.row, s.now) then ExpireOne(w.rows, c.id, s.now) else w.rows;
    Tell(w.(rows := rows), s.c, Told(HandleOf(c.id, c.row, s.now, c.created), c.isCall))
  }

  function OutcomeOf(h: Handle): Outcome {
    match h.state
    case Done => Executed(h.result)
    case Failed => Executed(h.result)
    case Denied => ApprovalDenied
    case Expired => ApprovalExpired
    case _ => ApprovalRequired(h.id, h.expiresAt)
  }

  function DoClaim(w: World, s: Step): World
    requires s.ClaimRow? && At(w, s.e) && w.approvers[s.e].Claiming?
  {
    var id := w.approvers[s.e].id;
    if Claimable(w.rows, id, s.now)
    then Note(Goto(w.(rows := ClaimOne(w.rows, id, s.now)), s.e, Loading(id)), ClaimedAt(id, s.now))
    else Goto(w, s.e, Returned(id, false, false))
  }

  function DoLoad(w: World, s: Step): World
    requires s.LoadRow? && At(w, s.e) && w.approvers[s.e].Loading?
  {
    var id := w.approvers[s.e].id;
    if id !in w.rows then Goto(w, s.e, Returned(id, true, true))
    else
      var row := w.rows[id];
      if !Intact(row) then Goto(w, s.e, Tampered(id))
      else match Parse(row.canonical)
        case None => Goto(w, s.e, Unreadable(id))
        case Some(args) => Goto(w, s.e, Checking(Claim(id, row.client, row.tool, row.correlation, args)))
  }

  const CONTROL_OFF: string := "agent control was disabled before this request could run"
  const PAIRING_REVOKED: string := "the paired client was revoked before this request could run"
  const TOOL_GONE: string := "the requested tool is no longer available"
  const POLICY_DENIES: string := "policy denies this tool for the paired client"

  /** Why the policy check fails the request, if it does: exactly when control is off, the
      pairing is gone, the tool is gone or the pairing's policy refuses it. */
  function Objection(c: Conditions, inApp: Policy): (r: Option<string>)
    ensures r == None <==>
      c.enabled && c.permissions.Some? && c.tool.Some? && c.permissions.value.Get(c.tool.value.category) != Deny
    ensures r == None ==> Decide(c.tool.value, Mcp(c.permissions.value), inApp) != Refuse
  {
    if !c.enabled then Some(CONTROL_OFF)
    else if c.permissions.None? then Some(PAIRING_REVOKED)
    else if c.tool.None? then Some(TOOL_GONE)
    else if Decide(c.tool.value, Mcp(c.permissions.value), inApp) == Refuse
    then Some(POLICY_DENIES)
    else None
  }

  function DoCheck(w: World, s: Step): World
    requires s.CheckPolicy? && At(w, s.e) && w.approvers[s.e].Checking?
  {
    var claim := w.approvers[s.e].claim;
    match Objection(s.conditions, s.inApp)
    case Some(detail) => Goto(w, s.e, FailMarking(claim.id, detail))
    case None =>
      Note(Goto(w, s.e, Marking(claim)),
           Permitted(claim.id, Decide(s.conditions.tool.value, Mcp(s.conditions.permissions.value), s.inApp)))
  }

  function DoMark(w: World, s: Step): World
    requires s.MarkRow? && At(w, s.e) && w.approvers[s.e].Marking?
  {
    var claim := w.approvers[s.e].claim;
    if claim.id in w.rows && w.rows[claim.id].state == State.Claimed
    then Goto(w.(rows := MarkOne(w.rows, claim.id)), s.e, Starting(claim))
    else Goto(w, s.e, Returned(claim.id, true, false))
  }

  const RESTARTING: string := "an application update is restarting the tool runtime"

  function DoBegin(w: World, s: Step): World
    requires s.BeginTool? && At(w, s.e) && w.approvers[s.e].Starting?
  {
    var claim := w.approvers[s.e].claim;
    if s.active then Note(Goto(w, s.e, Running(claim)), Ran(claim.id, claim.args))
    else Goto(w, s.e, FailMarking(claim.id, RESTARTING))
  }

  function DoFinish(w: World, s: Step): World
    requires s.FinishRow? && At(w, s.e) && w.approvers[s.e].Finishing?
  {
    var a := w.approvers[s.e];
    Goto(w.(rows := FinishOne(w.rows, a.claim.id, a.ok, StoredResult(a.result), s.now)), s.e,
         Returned(a.claim.id, true, false))
  }

  function Failure(detail: string): Value {
    Object([Field("success", Bool(false)), Field("error", Str(detail))])
  }

  function DoFailFinish(w: World, s: Step): World
    requires s.FailFinish? && At(w, s.e) && w.approvers[s.e].FailFinishing?
  {
    var a := w.approvers[s.e];
    Goto(w.(rows := FinishOne(w.rows, a.id, false, StoredResult(Failure(a.detail)), s.now)), s.e,
         Returned(a.id, true, a.storeError))
  }

  /** A statement of the run fails. Failing closed ignores its own store errors and carries
      on; every other statement ends the run where it stands. */
  function DoStoreFailure(w: World, e: nat): World
    requires At(w, e)
  {
    var a := w.approvers[e];
    match a
    case Claiming(id) => Goto(w, e, Returned(id, false, true))
    case FailMarking(id, detail) => Goto(w, e, FailFinishing(id, detail, true))
    case Starting(_) => w
    case Running(_) => w
    case Returned(_, _, _) => w
    case _ => Goto(w, e, Returned(Subject(a), true, true))
  }

  /** A step whose program is not at the right point leaves the world alone. */
  ghost function Next(w: World, s: Step): World {
    match s
    case Call(_, _, _, _, _, _, _, _) => Arrive(w, s)
    case InsertRow(c, id, _) =>
      if c in w.callers && w.callers[c].Inserting? && id !in w.rows then DoInsert(w, s) else w
    case SelectRow(c) => if c in w.callers && w.callers[c].Selecting? then DoSelect(w, s) else w
    case Poll(_, _, _) => DoPoll(w, s)
    case Answer(c, _) => if c in w.callers && w.callers[c].Answering? then DoAnswer(w, s) else w
    case CallerStops(c) => w.(callers := w.callers - {c})
    case DenyRequest(id, now) => w.(rows := DenyOne(w.rows, id, now))
    case Approve(e, id) => if !At(w, e) then Goto(w, e, Claiming(id)) else w
    case ClaimRow(e, _) => if At(w, e) && w.approvers[e].Claiming? then DoClaim(w, s) else w
    case LoadRow(e) => if At(w, e) && w.approvers[e].Loading? then DoLoad(w, s) else w
    case FailIntegrity(e, now) =>
      if At(w, e) && w.approvers[e].Tampered?
      then Goto(w.(rows := FailTampered(w.rows, w.approvers[e].id, now)), e, Returned(w.approvers[e].id, true, false))
      else w
    case FailParse(e, now) =>
      if At(w, e) && w.approvers[e].Unreadable?
      then Goto(w.(rows := FailUnreadable(w.rows, w.approvers[e].id, now)), e, Returned(w.approvers[e].id, true, false))
      else w
    case CheckPolicy(e, _, _) => if At(w, e) && w.approvers[e].Checking? then DoCheck(w, s) else w
    case MarkRow(e) => if At(w, e) && w.approvers[e].Marking? then DoMark(w, s) else w
    case BeginTool(e, _) => if At(w, e) && w.approvers[e].Starting? then DoBegin(w, s) else w
    case ToolReturns(e, ok, result) =>
      if At(w, e) && w.approvers[e].Running? then Goto(w, e, Finishing(w.approvers[e].claim, ok, result)) else w
    case FinishRow(e, _) => if At(w, e) && w.approvers[e].Finishing? then DoFinish(w, s) else w
    case FailMark(e) =>
      if At(w, e) && w.approvers[e].FailMarking?
      then Goto(w.(rows := MarkOne(w.rows, w.approvers[e].id)), e,
                FailFinishing(w.approvers[e].id, w.approvers[e].detail, false))
      else w
    case FailFinish(e, _) => if At(w, e) && w.approvers[e].FailFinishing? then DoFailFinish(w, s) else w
    case StoreFails(e) => if At(w, e) then DoStoreFailure(w, e) else w
    case Sweep(now) => w.(rows := ExpireOverdue(w.rows, now))
    case Interrupt(now) => w.(rows := FailInterrupted(w.rows, now))
    case Crash => w.(approvers := map[], callers := map[])
  }

  ghost function Run(w: World, steps: seq<Step>): World
    decreases |steps|
  {
    if steps == [] then w else Run(Next(w, steps[0]), steps[1..])
  }

  /** A process starts on whatever table the last one left: any well-formed table at all,
      intact or not, with nothing in flight. */
  ghost predicate Initial(w: World) {
    WellFormed(w.rows) && w.approvers == map[] && w.callers == map[] && w.log == []
  }

  // ----- the invariant -----

  predicate Concerns(e: Event, id: string) {
    !e.RanDirectly? && e.id == id
  }

  ghost predicate NotRun(log: seq<Event>, id: string) {
    forall k :: 0 <= k < |log| ==> !(log[k].Ran? && log[k].id == id)
  }

  ghost predicate NotClaimed(log: seq<Event>, id: string) {
    forall k :: 0 <= k < |log| ==> !(log[k].ClaimedAt? && log[k].id == id)
  }

  ghost predicate AtMostOneRun(log: seq<Event>) {
    forall j, k :: 0 <= j < k < |log| && log[j].Ran? && log[k].Ran? ==> log[j].id != log[k].id
  }

  ghost predicate AtMostOneClaim(log: seq<Event>) {
    forall j, k :: 0 <= j < k < |log| && log[j].ClaimedAt? && log[k].ClaimedAt? ==> log[j].id != log[k].id
  }

  /** The claim recorded at `i` was made before the row expired. */
  predicate TimelyClaim(log: seq<Event>, i: nat, row: Row, id: string) {
    i < |log| && log[i].ClaimedAt? && log[i].id == id && log[i].now < row.expiresAt
  }

  predicate PermittedHere(log: seq<Event>, j: nat, id: string) {
    j < |log| && log[j].Permitted? && log[j].id == id && log[j].decision != Refuse
  }

  /** Claimed in time, then permitted by the policy in force after the claim. */
  ghost predicate Cleared(log: seq<Event>, row: Row, id: string) {
    exists i, j :: i < j && TimelyClaim(log, i, row, id) && PermittedHere(log, j, id)
  }

  ghost predicate ClaimedInTime(log: seq<Event>, row: Row, id: string) {
    exists i :: TimelyClaim(log, i, row, id)
  }

  /** The claim carries exactly what the row binds. */
  predicate Bound(claim: Claim, row: Row) {
    Intact(row) && claim.client == row.client && claim.tool == row.tool && Parse(row.canonical) == Some(claim.args)
  }

  /** Every run is of the row's own arguments, after a timely claim and a permission. */
  ghost predicate RunsJustified(rows: Table, log: seq<Event>) {
    forall k :: 0 <= k < |log| && log[k].Ran? ==>
      log[k].id in rows && Cleared(log[..k], rows[log[k].id], log[k].id) &&
      Intact(rows[log[k].id]) && Parse(rows[log[k].id].canonical) == Some(log[k].args)
  }

  /** The states a held row can be in; recovery may have failed it meanwhile. */
  function AllowedStates(a: Approver): set<State> {
    match a
    case Starting(_) => {State.Executing, Failed}
    case Running(_) => {State.Executing, Failed}
    case Finishing(_, _, _) => {State.Executing, Failed}
    case FailMarking(_, _) => {State.Claimed, State.Executing, Failed}
    case FailFinishing(_, _, storeError) =>
      if storeError then {State.Claimed, State.Executing, Failed} else {State.Executing, Failed}
    case _ => {State.Claimed, Failed}
  }

  function ClaimOf(a: Approver): Option<Claim> {
    match a
    case Checking(c) => Some(c)
    case Marking(c) => Some(c)
    case Starting(c) => Some(c)
    case Running(c) => Some(c)
    case Finishing(c, _, _) => Some(c)
    case _ => None
  }

  /** What is known of the row a run holds. */
  ghost predicate HeldOk(row: Row, log: seq<Event>, a: Approver) {
    var id := Subject(a);
    row.state in AllowedStates(a) && ClaimedInTime(log, row, id) &&
    (a.Running? || a.Finishing? || NotRun(log, id)) &&
    (a.Tampered? ==> !Intact(row)) &&
    (ClaimOf(a).Some? ==> Bound(ClaimOf(a).value, row)) &&
    (a.Marking? || a.Starting? ==> Cleared(log, row, id))
  }

  ghost predicate ApproverOk(rows: Table, log: seq<Event>, a: Approver) {
    (Holds(a) ==> Subject(a) in rows && HeldOk(rows[Subject(a)], log, a)) &&
    (a.Returned? && a.claimed && !a.storeError ==> a.id in rows && Terminal(rows[a.id].state))
  }

  ghost predicate RowOk(rows: Table, log: seq<Event>, id: string)
    requires id in rows
  {
    (rows[id].state == Pending ==> NotClaimed(log, id)) &&
    (rows[id].state == Pending || rows[id].state == State.Claimed ==> NotRun(log, id))
  }

  ghost predicate ApproversOk(w: World) {
    forall e :: e in w.approvers ==> ApproverOk(w.rows, w.log, w.approvers[e])
  }

  /** No two runs hold the same row. */
  ghost predicate Exclusive(w: World) {
    forall e, f ::
      (e in w.approvers && f in w.approvers && e != f && Holds(w.approvers[e]) && Holds(w.approvers[f]))
      ==> Subject(w.approvers[e]) != Subject(w.approvers[f])
  }

  ghost predicate LogOk(rows: Table, log: seq<Event>) {
    AtMostOneRun(log) && AtMostOneClaim(log) && RunsJustified(rows, log) &&
    (forall k :: 0 <= k < |log| && !log[k].RanDirectly? ==> log[k].id in rows) &&
    (forall id :: id in rows ==> RowOk(rows, log, id))
  }

  ghost predicate Inv(w: World) {
    WellFormed(w.rows) && ApproversOk(w) && Exclusive(w) && LogOk(w.rows, w.log)
  }

  // ----- the invariant is kept -----

  /** A claim and a permission on record stay on record. */
  lemma RecordsStay(log: seq<Event>, more: seq<Event>, row: Row, row': Row, id: string)
    requires SameRequest(row, row')
    ensures ClaimedInTime(log, row, id) ==> ClaimedInTime(log + more, row', id)
    ensures Cleared(log, row, id) ==> Cleared(log + more, row', id)
  {
    if i :| TimelyClaim(log, i, row, id) {
      assert TimelyClaim(log + more, i, row', id);
    }
    if i, j :| i < j && TimelyClaim(log, i, row, id) && PermittedHere(log, j, id) {
      assert TimelyClaim(log + more, i, row', id) && PermittedHere(log + more, j, id);
    }
  }

  /** A run's knowledge survives whatever others do: its row stays, or is failed under it. */
  lemma ApproverKeeps(rows: Table, rows': Table, log: seq<Event>, more: seq<Event>, a: Approver)
    requires ApproverOk(rows, log, a) && Forward(rows, rows')
    requires Holds(a) ==>
      rows'[Subject(a)] == rows[Subject(a)] || rows'[Subject(a)].state == Failed
    requires Holds(a) ==> forall e :: e in more && e.Ran? ==> e.id != Subject(a)
    ensures ApproverOk(rows', log + more, a)
  {
    if Holds(a) {
      var id := Subject(a);
      RecordsStay(log, more, rows[id], rows'[id], id);
      if !a.Running? && !a.Finishing? {
        forall k | 0 <= k < |log + more| ensures !((log + more)[k].Ran? && (log + more)[k].id == id) {
          if k >= |log| { assert (log + more)[k] in more; }
        }
      }
    }
  }

  lemma LogKeeps(rows: Table, rows': Table, log: seq<Event>)
    requires LogOk(rows, log) && Forward(rows, rows') && rows.Keys == rows'.Keys
    ensures LogOk(rows', log)
  {
    forall k | 0 <= k < |log| && log[k].Ran?
      ensures Cleared(log[..k], rows'[log[k].id], log[k].id)
    {
      RecordsStay(log[..k], [], rows[log[k].id], rows'[log[k].id], log[k].id);
      assert log[..k] + [] == log[..k];
    }
    forall id | id in rows' ensures RowOk(rows', log, id) {
      assert RowOk(rows, log, id);
    }
  }

  /** Recording one more event about a row keeps the log in order. */
  lemma LogGrows(rows: Table, log: seq<Event>, e: Event)
    requires LogOk(rows, log)
    requires !e.RanDirectly? ==> e.id in rows
    requires e.ClaimedAt? ==> NotClaimed(log, e.id) && rows[e.id].state != Pending
    requires e.Ran? ==> NotRun(log, e.id) && Cleared(log, rows[e.id], e.id) && Intact(rows[e.id])
    requires e.Ran? ==> Parse(rows[e.id].canonical) == Some(e.args) && Rank(rows[e.id].state) >= 2
    ensures LogOk(rows, log + [e])
  {
    var log' := log + [e];
    forall k | 0 <= k < |log'| && log'[k].Ran?
      ensures log'[k].id in rows && Cleared(log'[..k], rows[log'[k].id], log'[k].id) &&
        Intact(rows[log'[k].id]) && Parse(rows[log'[k].id].canonical) == Some(log'[k].args)
    {
      assert log'[..k] == log[..k];
      if k == |log| { assert log[..k] == log; }
    }
    forall id | id in rows ensures RowOk(rows, log', id) {
      assert RowOk(rows, log, id);
    }
  }

  /** Steps that only rewrite rows no run can lose. */
  lemma TableStep(w: World, rows: Table)
    requires Inv(w) && Forward(w.rows, rows) && WellFormed(rows) && rows.Keys == w.rows.Keys
    requires forall id :: id in rows && (w.rows[id].state == State.Claimed || w.rows[id].state == State.Executing) ==>
      rows[id] == w.rows[id] || rows[id].state == Failed
    requires forall id :: id in rows && w.rows[id].state == Failed ==> rows[id].state == Failed
    ensures Inv(w.(rows := rows))
  {
    LogKeeps(w.rows, rows, w.log);
    forall e | e in w.approvers ensures ApproverOk(rows, w.log, w.approvers[e]) {
      ApproverKeeps(w.rows, rows, w.log, [], w.approvers[e]);
      assert w.log + [] == w.log;
    }
  }

  /** A step of run `e` on its own row, recording at most one event about it. */
  lemma ApproverStep(w: World, e: nat, rows: Table, more: seq<Event>, a: Approver)
    requires Inv(w) && At(w, e) && Subject(a) == Subject(w.approvers[e])
    requires rows.Keys == w.rows.Keys && Forward(w.rows, rows) && WellFormed(rows)
    requires forall id :: id in rows && id != Subject(a) ==> rows[id] == w.rows[id]
    requires |more| <= 1 && forall ev :: ev in more ==> Concerns(ev, Subject(a))
    requires LogOk(rows, w.log + more) && ApproverOk(rows, w.log + more, a)
    requires Holds(a) || rows != w.rows || more != [] ==>
      forall f :: f in w.approvers && f != e && Holds(w.approvers[f]) ==> Subject(w.approvers[f]) != Subject(a)
    ensures Inv(World(rows, w.approvers[e := a], w.callers, w.log + more))
  {
    var w' := World(rows, w.approvers[e := a], w.callers, w.log + more);
    forall f | f in w'.approvers ensures ApproverOk(rows, w'.log, w'.approvers[f]) {
      if f != e { ApproverKeeps(w.rows, rows, w.log, more, w.approvers[f]); }
    }
  }

  /** Nobody else holds the row of a run that holds it, nor a row still pending. */
  lemma SoleHolder(w: World, e: nat)
    requires Inv(w) && At(w, e)
    requires Holds(w.approvers[e]) ||
      (Subject(w.approvers[e]) in w.rows && w.rows[Subject(w.approvers[e])].state == Pending)
    ensures forall f :: f in w.approvers && f != e && Holds(w.approvers[f]) ==>
      Subject(w.approvers[f]) != Subject(w.approvers[e])
  {
    forall f | f in w.approvers && f != e && Holds(w.approvers[f])
      ensures Subject(w.approvers[f]) != Subject(w.approvers[e])
    {
      assert ApproverOk(w.rows, w.log, w.approvers[f]);
    }
  }

  lemma ReplaceRow(t: Table, id: string, row: Row)
    requires WellFormed(t) && id in t && SameRequest(t[id], row) && ResultShape(row)
    requires row.state == t[id].state || Rank(t[id].state) < Rank(row.state)
    ensures WellFormed(t[id := row]) && Forward(t, t[id := row]) && t[id := row].Keys == t.Keys
  {
    RewriteKeepsBindings(t, t[id := row]);
  }

  /** Moving run `e` on without touching the table or the log. */
  lemma LocalStep(w: World, e: nat, a: Approver)
    requires Inv(w) && At(w, e) && Subject(a) == Subject(w.approvers[e])
    requires ApproverOk(w.rows, w.log, a) && (Holds(a) ==> Holds(w.approvers[e]))
    ensures Inv(Goto(w, e, a))
  {
    if Holds(a) { SoleHolder(w, e); }
    assert w.log + [] == w.log;
    ApproverStep(w, e, w.rows, [], a);
  }

  /** What the invariant says of one run and of the table and log around it. */
  lemma Known(w: World, e: nat)
    requires Inv(w) && At(w, e)
    ensures ApproverOk(w.rows, w.log, w.approvers[e]) && LogOk(w.rows, w.log) && WellFormed(w.rows)
  {
  }

  lemma ClaimKeeps(w: World, s: Step)
    requires Inv(w) && s.ClaimRow? && At(w, s.e) && w.approvers[s.e].Claiming?
    ensures Inv(DoClaim(w, s))
  {
    var id := w.approvers[s.e].id;
    if Claimable(w.rows, id, s.now) {
      var rows := ClaimOne(w.rows, id, s.now);
      var event := ClaimedAt(id, s.now);
      ReplaceRow(w.rows, id, rows[id]);
      SoleHolder(w, s.e);
      assert RowOk(w.rows, w.log, id);
      LogKeeps(w.rows, rows, w.log);
      LogGrows(rows, w.log, event);
      assert TimelyClaim(w.log + [event], |w.log|, rows[id], id);
      ApproverStep(w, s.e, rows, [event], Loading(id));
    } else {
      LocalStep(w, s.e, Returned(id, false, false));
    }
  }

  lemma LoadKeeps(w: World, s: Step)
    requires Inv(w) && s.LoadRow? && At(w, s.e) && w.approvers[s.e].Loading?
    ensures Inv(DoLoad(w, s))
  {
    var id := w.approvers[s.e].id;
    assert ApproverOk(w.rows, w.log, w.approvers[s.e]);
    LocalStep(w, s.e, DoLoad(w, s).approvers[s.e]);
  }

  lemma CheckKeeps(w: World, s: Step)
    requires Inv(w) && s.CheckPolicy? && At(w, s.e) && w.approvers[s.e].Checking?
    ensures Inv(DoCheck(w, s))
  {
    var claim := w.approvers[s.e].claim;
    CheckingKnows(w, s.e);
    hide Objection, Decide, Inv, ApproverOk, HeldOk, CONTROL_OFF, PAIRING_REVOKED, TOOL_GONE, POLICY_DENIES;
    match Objection(s.conditions, s.inApp)
    case Some(detail) =>
      FailMarkingIsOk(w.rows, w.log, claim.id, detail);
      LocalStep(w, s.e, FailMarking(claim.id, detail));
    case None => PermitKeeps(w, s.e, Decide(s.conditions.tool.value, Mcp(s.conditions.permissions.value), s.inApp));
  }

  lemma CheckingKnows(w: World, e: nat)
    requires Inv(w) && At(w, e) && w.approvers[e].Checking?
    ensures var claim := w.approvers[e].claim;
      && claim.id in w.rows && w.rows[claim.id].state in {State.Claimed, Failed}
      && NotRun(w.log, claim.id) && ClaimedInTime(w.log, w.rows[claim.id], claim.id)
  {
    Known(w, e);
  }

  lemma PermitKeeps(w: World, e: nat, d: Decision)
    requires Inv(w) && At(w, e) && w.approvers[e].Checking? && d != Refuse
    ensures var claim := w.approvers[e].claim; Inv(Note(Goto(w, e, Marking(claim)), Permitted(claim.id, d)))
  {
    var claim := w.approvers[e].claim;
    var row := w.rows[claim.id];
    var event := Permitted(claim.id, d);
    assert ApproverOk(w.rows, w.log, w.approvers[e]);
    LogGrows(w.rows, w.log, event);
    SoleHolder(w, e);
    RecordsStay(w.log, [event], row, row, claim.id);
    var i :| TimelyClaim(w.log, i, row, claim.id);
    assert TimelyClaim(w.log + [event], i, row, claim.id) && PermittedHere(w.log + [event], |w.log|, claim.id);
    ApproverStep(w, e, w.rows, [event], Marking(claim));
  }

  lemma MarkKeeps(w: World, s: Step)
    requires Inv(w) && s.MarkRow? && At(w, s.e) && w.approvers[s.e].Marking?
    ensures Inv(DoMark(w, s))
  {
    var claim := w.approvers[s.e].claim;
    assert ApproverOk(w.rows, w.log, w.approvers[s.e]);
    if w.rows[claim.id].state == State.Claimed {
      MarkRowKeeps(w, s.e, Starting(claim));
    } else {
      LocalStep(w, s.e, Returned(claim.id, true, false));
    }
  }

  /** Moving a claimed row to executing, on the way to running it or to failing it. */
  lemma MarkRowKeeps(w: World, e: nat, a: Approver)
    requires Inv(w) && At(w, e) && (w.approvers[e].Marking? || w.approvers[e].FailMarking?)
    requires if w.approvers[e].Marking?
      then a == Starting(w.approvers[e].claim) && w.rows[Subject(a)].state == State.Claimed
      else a == FailFinishing(w.approvers[e].id, w.approvers[e].detail, false)
    ensures Inv(Goto(w.(rows := MarkOne(w.rows, Subject(a))), e, a))
  {
    Known(w, e);
    SoleHolder(w, e);
    hide Inv, LogOk, WellFormed, Forward, MarkOne;
    var id := Subject(a);
    var rows := MarkOne(w.rows, id);
    MarkedRow(w.rows, id);
    LogKeeps(w.rows, rows, w.log);
    assert w.log + [] == w.log;
    MarkedIsOk(w.rows, w.log, w.approvers[e], a);
    hide ApproverOk, HeldOk;
    ApproverStep(w, e, rows, [], a);
  }

  /** Marking rewrites at most one row, from claimed to executing. */
  lemma MarkedRow(t: Table, id: string)
    requires WellFormed(t) && id in t
    ensures var u := MarkOne(t, id);
      && WellFormed(u) && Forward(t, u) && u.Keys == t.Keys
      && (forall other :: other in u && other != id ==> u[other] == t[other])
      && u[id] == (if t[id].state == State.Claimed then t[id].(state := State.Executing) else t[id])
  {
    ReplaceRow(t, id, MarkOne(t, id)[id]);
  }

  lemma MarkedIsOk(t: Table, log: seq<Event>, was: Approver, a: Approver)
    requires ApproverOk(t, log, was) && WellFormed(t)
    requires if was.Marking? then a == Starting(was.claim) && t[Subject(a)].state == State.Claimed
      else was.FailMarking? && a == FailFinishing(was.id, was.detail, false)
    ensures ApproverOk(MarkOne(t, Subject(a)), log, a)
  {
    hide Parse, NotRun, Forward, WellFormed, MarkOne;
    var id := Subject(a);
    MarkedRow(t, id);
    RecordsStay(log, [], t[id], MarkOne(t, id)[id], id);
    assert log + [] == log;
    hide ClaimedInTime, Cleared;
  }

  lemma BeginKeeps(w: World, s: Step)
    requires Inv(w) && s.BeginTool? && At(w, s.e) && w.approvers[s.e].Starting?
    ensures Inv(DoBegin(w, s))
  {
    var claim := w.approvers[s.e].claim;
    StartingKnows(w, s.e);
    SoleHolder(w, s.e);
    hide Inv, ApproverOk, HeldOk, RESTARTING;
    var row := w.rows[claim.id];
    if s.active {
      var event := Ran(claim.id, claim.args);
      LogGrows(w.rows, w.log, event);
      RecordsStay(w.log, [event], row, row, claim.id);
      RunningIsOk(w.rows, w.log + [event], claim);
      ApproverStep(w, s.e, w.rows, [event], Running(claim));
    } else {
      FailMarkingIsOk(w.rows, w.log, claim.id, RESTARTING);
      LocalStep(w, s.e, FailMarking(claim.id, RESTARTING));
    }
  }

  /** A run about to start its tool holds a row that was claimed in time and then permitted. */
  lemma StartingKnows(w: World, e: nat)
    requires Inv(w) && At(w, e) && w.approvers[e].Starting?
    ensures var claim := w.approvers[e].claim;
      && claim.id in w.rows && w.rows[claim.id].state in {State.Executing, Failed}
      && Bound(claim, w.rows[claim.id]) && NotRun(w.log, claim.id)
      && ClaimedInTime(w.log, w.rows[claim.id], claim.id) && Cleared(w.log, w.rows[claim.id], claim.id)
      && LogOk(w.rows, w.log) && WellFormed(w.rows)
  {
    Known(w, e);
  }

  lemma RunningIsOk(rows: Table, log: seq<Event>, claim: Claim)
    requires claim.id in rows && rows[claim.id].state in {State.Executing, Failed}
    requires Bound(claim, rows[claim.id]) && ClaimedInTime(log, rows[claim.id], claim.id)
    ensures ApproverOk(rows, log, Running(claim))
  {
  }

  lemma FailMarkingIsOk(rows: Table, log: seq<Event>, id: string, detail: string)
    requires id in rows && rows[id].state in {State.Claimed, State.Executing, Failed}
    requires NotRun(log, id) && ClaimedInTime(log, rows[id], id)
    ensures ApproverOk(rows, log, FailMarking(id, detail))
  {
  }

  /** An update that ends a run: its row is final afterwards. */
  lemma ClosingStep(w: World, e: nat, rows: Table, storeError: bool)
    requires Inv(w) && At(w, e) && Holds(w.approvers[e])
    requires var id := Subject(w.approvers[e]);
      id in w.rows && id in rows && rows == w.rows[id := rows[id]] && SameRequest(w.rows[id], rows[id]) &&
      ResultShape(rows[id]) && (rows[id].state == w.rows[id].state || Rank(w.rows[id].state) < Rank(rows[id].state)) &&
      (storeError || Terminal(rows[id].state))
    ensures Inv(Goto(w.(rows := rows), e, Returned(Subject(w.approvers[e]), true, storeError)))
  {
    var id := Subject(w.approvers[e]);
    SoleHolder(w, e);
    ReplaceRow(w.rows, id, rows[id]);
    LogKeeps(w.rows, rows, w.log);
    assert w.log + [] == w.log;
    ApproverStep(w, e, rows, [], Returned(id, true, storeError));
  }

  lemma StoreFailureKeeps(w: World, e: nat)
    requires Inv(w) && At(w, e)
    ensures Inv(DoStoreFailure(w, e))
  {
    var a := w.approvers[e];
    assert ApproverOk(w.rows, w.log, a);
    if !a.Starting? && !a.Running? && !a.Returned? {
      LocalStep(w, e, DoStoreFailure(w, e).approvers[e]);
    }
  }

  lemma InsertKeeps(w: World, s: Step)
    requires Inv(w) && s.InsertRow? && s.c in w.callers && w.callers[s.c].Inserting? && s.id !in w.rows
    ensures Inv(DoInsert(w, s))
  {
    var c := w.callers[s.c];
    var row := NewRow(c.client, c.tool, c.args, c.correlation, s.now);
    var rows := Insert(w.rows, s.id, row);
    if s.id in rows {
      assert WellFormed(rows);
      forall id | id in rows ensures RowOk(rows, w.log, id) {
        if id != s.id { assert RowOk(w.rows, w.log, id); }
      }
      forall e | e in w.approvers ensures ApproverOk(rows, w.log, w.approvers[e]) {
        assert ApproverOk(w.rows, w.log, w.approvers[e]);
      }
    }
  }

  lemma FailIntegrityKeeps(w: World, s: Step)
    requires Inv(w) && s.FailIntegrity?
    ensures Inv(Next(w, s))
  {
    hide INTEGRITY_FAILURE, UNREADABLE_ARGS, INTERRUPTED;
    if At(w, s.e) && w.approvers[s.e].Tampered? {
      assert ApproverOk(w.rows, w.log, w.approvers[s.e]);
      ClosingStep(w, s.e, FailTampered(w.rows, w.approvers[s.e].id, s.now), false);
    }
  }

  lemma FailParseKeeps(w: World, s: Step)
    requires Inv(w) && s.FailParse?
    ensures Inv(Next(w, s))
  {
    hide INTEGRITY_FAILURE, UNREADABLE_ARGS, INTERRUPTED;
    if At(w, s.e) && w.approvers[s.e].Unreadable? {
      assert ApproverOk(w.rows, w.log, w.approvers[s.e]);
      ClosingStep(w, s.e, FailUnreadable(w.rows, w.approvers[s.e].id, s.now), false);
    }
  }

  lemma ToolReturnsKeeps(w: World, s: Step)
    requires Inv(w) && s.ToolReturns?
    ensures Inv(Next(w, s))
  {
    if At(w, s.e) && w.approvers[s.e].Running? {
      assert ApproverOk(w.rows, w.log, w.approvers[s.e]);
      LocalStep(w, s.e, Finishing(w.approvers[s.e].claim, s.ok, s.result));
    }
  }

  lemma FinishKeeps(w: World, s: Step)
    requires Inv(w) && s.FinishRow?
    ensures Inv(Next(w, s))
  {
    hide StoredResult, Cleared, NotRun, Bound, Exclusive, LogOk;
    if At(w, s.e) && w.approvers[s.e].Finishing? {
      var a := w.approvers[s.e];
      assert ApproverOk(w.rows, w.log, a);
      ClosingStep(w, s.e, FinishOne(w.rows, a.claim.id, a.ok, StoredResult(a.result), s.now), false);
    }
  }

  lemma FailMarkKeeps(w: World, s: Step)
    requires Inv(w) && s.FailMark?
    ensures Inv(Next(w, s))
  {
    if At(w, s.e) && w.approvers[s.e].FailMarking? {
      assert ApproverOk(w.rows, w.log, w.approvers[s.e]);
      MarkRowKeeps(w, s.e, FailFinishing(w.approvers[s.e].id, w.approvers[s.e].detail, false));
    }
  }

  lemma FailFinishKeeps(w: World, s: Step)
    requires Inv(w) && s.FailFinish?
    ensures Inv(Next(w, s))
  {
    hide StoredResult, Cleared, NotRun, Bound, Exclusive, LogOk;
    if At(w, s.e) && w.approvers[s.e].FailFinishing? {
      var a := w.approvers[s.e];
      assert ApproverOk(w.rows, w.log, a);
      ClosingStep(w, s.e, FinishOne(w.rows, a.id, false, StoredResult(Failure(a.detail)), s.now), a.storeError);
    }
  }

  lemma CallKeeps(w: World, s: Step)
    requires Inv(w) && s.Call?
    ensures Inv(Next(w, s))
  {
    hide Decide, LogOk, HeldOk, WellFormed;
    if Next(w, s).log != w.log {
      LogGrows(w.rows, w.log, RanDirectly(s.client, s.tool, s.args));
      DirectRunKeeps(w, s);
    }
  }

  lemma AnswerKeeps(w: World, s: Step)
    requires Inv(w) && s.Answer?
    ensures Inv(Next(w, s))
  {
    if s.c in w.callers && w.callers[s.c].Answering? { ExpireKeeps(w, w.callers[s.c].id, s.now); }
  }

  /** The steps that touch neither rows, runs in progress nor the log. */
  lemma CallerStepKeeps(w: World, s: Step)
    requires Inv(w) && (s.SelectRow? || s.Poll? || s.CallerStops? || s.Crash? || s.Approve?)
    ensures Inv(Next(w, s))
  {
  }

  /** Every step, by whichever program, keeps the invariant. */
  lemma StepKeeps(w: World, s: Step)
    requires Inv(w)
    ensures Inv(Next(w, s))
  {
    hide Inv, Arrive, DoInsert, DoAnswer, DoClaim, DoLoad, DoCheck, DoMark, DoBegin, DoStoreFailure;
    match s
    case Call(_, _, _, _, _, _, _, _) => CallKeeps(w, s);
    case InsertRow(c, id, _) =>
      if c in w.callers && w.callers[c].Inserting? && id !in w.rows { InsertKeeps(w, s); }
    case Answer(_, _) => AnswerKeeps(w, s);
    case DenyRequest(id, now) => DenyKeeps(w, id, now);
    case ClaimRow(e, _) => if At(w, e) && w.approvers[e].Claiming? { ClaimKeeps(w, s); }
    case LoadRow(e) => if At(w, e) && w.approvers[e].Loading? { LoadKeeps(w, s); }
    case FailIntegrity(_, _) => FailIntegrityKeeps(w, s);
    case FailParse(_, _) => FailParseKeeps(w, s);
    case CheckPolicy(e, _, _) => if At(w, e) && w.approvers[e].Checking? { CheckKeeps(w, s); }
    case MarkRow(e) => if At(w, e) && w.approvers[e].Marking? { MarkKeeps(w, s); }
    case BeginTool(e, _) => if At(w, e) && w.approvers[e].Starting? { BeginKeeps(w, s); }
    case ToolReturns(_, _, _) => ToolReturnsKeeps(w, s);
    case FinishRow(_, _) => FinishKeeps(w, s);
    case FailMark(_) => FailMarkKeeps(w, s);
    case FailFinish(_, _) => FailFinishKeeps(w, s);
    case StoreFails(e) => if At(w, e) { StoreFailureKeeps(w, e); }
    case Sweep(now) => SweepKeeps(w, now);
    case Interrupt(now) => InterruptKeeps(w, now);
    case _ => CallerStepKeeps(w, s);
  }

  lemma DirectRunKeeps(w: World, s: Step)
    requires Inv(w) && s.Call? && LogOk(w.rows, w.log + [RanDirectly(s.client, s.tool, s.args)])
    ensures Inv(Note(w, RanDirectly(s.client, s.tool, s.args)))
  {
    var event := RanDirectly(s.client, s.tool, s.args);
    forall e | e in w.approvers ensures ApproverOk(w.rows, w.log + [event], w.approvers[e]) {
      ApproverKeeps(w.rows, w.rows, w.log, [event], w.approvers[e]);
    }
  }

  lemma ExpireKeeps(w: World, id: string, now: int)
    requires Inv(w)
    ensures Inv(w.(rows := ExpireOne(w.rows, id, now)))
  {
    var rows := ExpireOne(w.rows, id, now);
    if rows != w.rows {
      ReplaceRow(w.rows, id, rows[id]);
      TableStep(w, rows);
    }
  }

  lemma DenyKeeps(w: World, id: string, now: int)
    requires Inv(w)
    ensures Inv(w.(rows := DenyOne(w.rows, id, now)))
  {
    var rows := DenyOne(w.rows, id, now);
    if rows != w.rows {
      ReplaceRow(w.rows, id, rows[id]);
      TableStep(w, rows);
    }
  }

  lemma SweepKeeps(w: World, now: int)
    requires Inv(w)
    ensures Inv(w.(rows := ExpireOverdue(w.rows, now)))
  {
    var rows := ExpireOverdue(w.rows, now);
    RewriteKeepsBindings(w.rows, rows);
    TableStep(w, rows);
  }

  lemma InterruptKeeps(w: World, now: int)
    requires Inv(w)
    ensures Inv(w.(rows := FailInterrupted(w.rows, now)))
  {
    var rows := FailInterrupted(w.rows, now);
    RewriteKeepsBindings(w.rows, rows);
    TableStep(w, rows);
  }

  lemma {:induction false} RunKeeps(w: World, steps: seq<Step>)
    requires Inv(w)
    ensures Inv(Run(w, steps))
    decreases |steps|
  {
    if steps != [] {
      StepKeeps(w, steps[0]);
      RunKeeps(Next(w, steps[0]), steps[1..]);
    }
  }

  lemma InitialInv(w: World)
    requires Initial(w)
    ensures Inv(w)
  {
  }

  // ----- at most once -----

  /** In every interleaving, from every starting table: no request is claimed twice or run
      twice. Each run comes after a claim made before the row expired, and after that after
      a policy check that did not refuse, and it executes exactly the arguments the row
      stores, whose digest still matches. */
  lemma AtMostOnceExecution(w: World, steps: seq<Step>)
    requires Initial(w)
    ensures var w' := Run(w, steps);
      AtMostOneRun(w'.log) && AtMostOneClaim(w'.log) && RunsJustified(w'.rows, w'.log)
  {
    InitialInv(w);
    RunKeeps(w, steps);
  }

  /** A run that claimed its row and returned without a store failure left it final. */
  lemma FinishedRunsAreFinal(w: World, steps: seq<Step>, e: nat)
    requires Initial(w)
    requires var w' := Run(w, steps);
      At(w', e) && w'.approvers[e].Returned? && w'.approvers[e].claimed && !w'.approvers[e].storeError
    ensures var w' := Run(w, steps);
      w'.approvers[e].id in w'.rows && Terminal(w'.rows[w'.approvers[e].id].state)
  {
    InitialInv(w);
    RunKeeps(w, steps);
    assert ApproverOk(Run(w, steps).rows, Run(w, steps).log, Run(w, steps).approvers[e]);
  }

  /** A crash followed by the recovery pass leaves no request between claim and outcome. */
  lemma RecoveryLeavesNothingInFlight(w: World, now: int, later: int)
    ensures var rows := Run(w, [Crash, Interrupt(now), Sweep(later)]).rows;
      forall id :: id in rows ==>
        (rows[id].state == Pending && rows[id].expiresAt > later) || Terminal(rows[id].state)
  {
    hide Next;
    var steps := [Crash, Interrupt(now), Sweep(later)];
    RunStep(w, Crash, [Interrupt(now), Sweep(later)]);
    RunStep(Next(w, Crash), Interrupt(now), [Sweep(later)]);
    RunStep(Next(Next(w, Crash), Interrupt(now)), Sweep(later), []);
    assert steps == [Crash] + [Interrupt(now), Sweep(later)];
    assert [Interrupt(now), Sweep(later)] == [Interrupt(now)] + [Sweep(later)] && [Sweep(later)] == [Sweep(later)] + [];
    RecoveryPasses(w, now, later);
    NothingLeftInFlight(w.rows, now, later);
  }

  lemma RecoveryPasses(w: World, now: int, later: int)
    ensures Next(Next(Next(w, Crash), Interrupt(now)), Sweep(later)).rows == ExpireOverdue(FailInterrupted(w.rows, now), later)
  {
    hide Next;
    PassRows(w, now);
    PassRows(Next(w, Crash), now);
    PassRows(Next(Next(w, Crash), Interrupt(now)), later);
  }

  lemma PassRows(w: World, now: int)
    ensures Next(w, Crash).rows == w.rows
    ensures Next(w, Interrupt(now)).rows == FailInterrupted(w.rows, now)
    ensures Next(w, Sweep(now)).rows == ExpireOverdue(w.rows, now)
  {
    hide FailInterrupted, ExpireOverdue;
  }

  lemma NothingLeftInFlight(t: Table, now: int, later: int)
    ensures var rows := ExpireOverdue(FailInterrupted(t, now), later);
      forall id :: id in rows ==>
        (rows[id].state == Pending && rows[id].expiresAt > later) || Terminal(rows[id].state)
  {
  }

  lemma RunStep(w: World, s: Step, rest: seq<Step>)
    ensures Run(w, [s] + rest) == Run(Next(w, s), rest)
  {
    assert ([s] + rest)[1..] == rest;
  }
}

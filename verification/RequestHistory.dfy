/** What the programs on the approval table leave of a request over any run: its row only goes
    forward, its result is written once, retries read it back, and what callers are told. */
module RequestHistory {
  import opened Results
  import opened Json
  import opened Canonical
  import opened Approvals
  import opened Permissions
  import opened ApprovalProtocol

  // ----- the life of a row -----

  /** No step takes a row back, changes what it was created for, or removes it. */
  lemma StepGoesForward(w: World, s: Step)
    requires Inv(w)
    ensures Forward(w.rows, Next(w, s).rows)
  {
    hide INTEGRITY_FAILURE, UNREADABLE_ARGS, INTERRUPTED;
    match s
    case InsertRow(_, _, _) => InsertGoesForward(w, s);
    case FailIntegrity(e, _) =>
      if At(w, e) && w.approvers[e].Tampered? {
        assert ApproverOk(w.rows, w.log, w.approvers[e]);
        TamperedGoesForward(w, e, s.now);
      }
    case FinishRow(_, _) => FinishGoesForward(w, s);
    case FailFinish(_, _) => FailFinishGoesForward(w, s);
    case Sweep(_) => PassesGoForward(w, s);
    case Interrupt(_) => PassesGoForward(w, s);
    case MarkRow(_) => MarksGoForward(w, s);
    case FailMark(_) => MarksGoForward(w, s);
    case FailParse(_, _) => FailParseGoesForward(w, s);
    case Answer(_, _) => AnswerGoesForward(w, s);
    case DenyRequest(_, _) => DenyGoesForward(w, s);
    case ClaimRow(_, _) => ClaimGoesForward(w, s);
    case _ => RowsUntouched(w, s);
  }

  lemma InsertGoesForward(w: World, s: Step)
    requires s.InsertRow?
    ensures Forward(w.rows, Next(w, s).rows)
  {
  }

  lemma TamperedGoesForward(w: World, e: nat, now: int)
    requires Inv(w) && At(w, e) && w.approvers[e].Tampered? && ApproverOk(w.rows, w.log, w.approvers[e])
    ensures Forward(w.rows, Next(w, FailIntegrity(e, now)).rows)
  {
    hide INTEGRITY_FAILURE, UNREADABLE_ARGS, INTERRUPTED;
  }

  lemma FinishGoesForward(w: World, s: Step)
    requires s.FinishRow?
    ensures Forward(w.rows, Next(w, s).rows)
  {
    hide StoredResult;
  }

  lemma FailFinishGoesForward(w: World, s: Step)
    requires s.FailFinish?
    ensures Forward(w.rows, Next(w, s).rows)
  {
    hide StoredResult;
  }

  lemma PassesGoForward(w: World, s: Step)
    requires s.Sweep? || s.Interrupt?
    ensures Forward(w.rows, Next(w, s).rows)
  {
    hide INTEGRITY_FAILURE, UNREADABLE_ARGS, INTERRUPTED;
  }

  lemma MarksGoForward(w: World, s: Step)
    requires s.MarkRow? || s.FailMark?
    ensures Forward(w.rows, Next(w, s).rows)
  {
    hide MarkOne, Forward;
    SameForward(w.rows);
    if At(w, s.e) { MarkForward(w.rows, Subject(w.approvers[s.e])); }
  }

  lemma SameForward(t: Table)
    ensures Forward(t, t)
  {
  }

  lemma MarkForward(t: Table, id: string)
    ensures Forward(t, MarkOne(t, id))
  {
  }

  lemma FailParseGoesForward(w: World, s: Step)
    requires s.FailParse?
    ensures Forward(w.rows, Next(w, s).rows)
  {
  }

  lemma AnswerGoesForward(w: World, s: Step)
    requires s.Answer?
    ensures Forward(w.rows, Next(w, s).rows)
  {
    hide HandleOf;
  }

  lemma DenyGoesForward(w: World, s: Step)
    requires s.DenyRequest?
    ensures Forward(w.rows, Next(w, s).rows)
  {
  }

  lemma ClaimGoesForward(w: World, s: Step)
    requires s.ClaimRow?
    ensures Forward(w.rows, Next(w, s).rows)
  {
  }

  /** The steps that may change a row. */
  predicate TouchesRows(s: Step) {
    s.InsertRow? || s.FailIntegrity? || s.FinishRow? || s.FailFinish? || s.Sweep? || s.Interrupt? ||
    s.MarkRow? || s.FailMark? || s.FailParse? || s.Answer? || s.DenyRequest? || s.ClaimRow?
  }

  lemma RowsUntouched(w: World, s: Step)
    requires !TouchesRows(s)
    ensures Next(w, s).rows == w.rows
  {
    hide Objection, Parse, Decide, SelectBinding;
    if s.CheckPolicy? || s.LoadRow? || s.BeginTool? || s.StoreFails? || s.ToolReturns? {
      hide Arrive, DoSelect, DoPoll;
    } else {
      hide DoLoad, DoCheck, DoBegin, DoStoreFailure;
    }
  }

  /** Over any run a row keeps its binding and arguments, and its rank only rises: a final
      state is never left. */
  lemma {:induction false} RowsGoForward(w: World, steps: seq<Step>)
    requires Inv(w)
    ensures Forward(w.rows, Run(w, steps).rows)
    decreases |steps|
  {
    if steps != [] {
      StepGoesForward(w, steps[0]);
      StepKeeps(w, steps[0]);
      RowsGoForward(Next(w, steps[0]), steps[1..]);
      ForwardTransitive(w.rows, Next(w, steps[0]).rows, Run(w, steps).rows);
    }
  }

  lemma FinalStatesStay(w: World, steps: seq<Step>, id: string)
    requires Inv(w) && id in w.rows && Terminal(w.rows[id].state)
    ensures id in Run(w, steps).rows && Run(w, steps).rows[id].state == w.rows[id].state
  {
    RowsGoForward(w, steps);
  }

  /** One binding has one row for its whole life: whichever row it selects now is the row
      it selects after any further steps. */
  lemma BindingKeepsItsRow(w: World, steps: seq<Step>, id: string)
    requires Inv(w) && id in w.rows
    ensures var row := w.rows[id];
      SelectBinding(Run(w, steps).rows, row.client, row.tool, row.digest) == Some(id)
  {
    RowsGoForward(w, steps);
    RunKeeps(w, steps);
    var row, rows := w.rows[id], Run(w, steps).rows;
    assert SameRequest(row, rows[id]) && Binds(rows[id], row.client, row.tool, row.digest);
  }

  /** A bridge step leaves every row as it is, except that it may expire a pending one, and
      any row it adds is pending with no result. */
  predicate BridgeStep(s: Step) {
    s.Call? || s.InsertRow? || s.SelectRow? || s.Poll? || s.Answer? || s.CallerStops?
  }

  lemma BridgeOnlyInsertsOrExpires(w: World, s: Step, id: string)
    requires BridgeStep(s) && id in Next(w, s).rows
    ensures var row := Next(w, s).rows[id];
      if id in w.rows
      then row == w.rows[id] ||
           (s.Answer? && w.rows[id].state == Pending && row == w.rows[id].(state := Expired, resolvedAt := Some(s.now)))
      else s.InsertRow? && s.id == id && row.state == Pending && row.result == None && Intact(row)
  {
  }

  // ----- results -----

  function ResultFor(t: Table, id: string): Option<string> {
    if id in t then t[id].result else None
  }

  /** The unguarded integrity update is the step being taken, and it reaches row `id`. */
  ghost predicate Overwrites(w: World, s: Step, id: string) {
    s.FailIntegrity? && At(w, s.e) && w.approvers[s.e] == Tampered(id)
  }

  /** A stored result is replaced exactly when the unguarded integrity update reaches a row
      that was failed in the meantime with another result. */
  lemma ResultRewritten(w: World, s: Step, id: string)
    requires Inv(w) && ResultFor(w.rows, id).Some?
    ensures ResultFor(Next(w, s).rows, id) != ResultFor(w.rows, id) <==>
      Overwrites(w, s, id) && ResultFor(w.rows, id) != Some(INTEGRITY_FAILURE)
  {
    assert ResultShape(w.rows[id]);
    if TouchesRows(s) {
      if s.FinishRow? || s.FailFinish? { FinishKeepsResults(w, s, id); }
      else if s.Answer? || s.DenyRequest? || s.ClaimRow? || s.InsertRow? { PendingKeepsResults(w, s, id); }
      else if s.FailIntegrity? { IntegrityResults(w, s, id); }
      else { OthersKeepResults(w, s, id); }
    } else {
      RowsUntouched(w, s);
    }
  }

  lemma FinishKeepsResults(w: World, s: Step, id: string)
    requires (s.FinishRow? || s.FailFinish?) && ResultFor(w.rows, id).Some? && ResultShape(w.rows[id])
    ensures ResultFor(Next(w, s).rows, id) == ResultFor(w.rows, id)
  {
    hide StoredResult;
  }

  lemma PendingKeepsResults(w: World, s: Step, id: string)
    requires (s.Answer? || s.DenyRequest? || s.ClaimRow? || s.InsertRow?) && ResultFor(w.rows, id).Some?
    ensures ResultFor(Next(w, s).rows, id) == ResultFor(w.rows, id)
  {
    hide HandleOf;
  }

  lemma IntegrityResults(w: World, s: Step, id: string)
    requires s.FailIntegrity? && ResultFor(w.rows, id).Some?
    ensures ResultFor(Next(w, s).rows, id) ==
      if Overwrites(w, s, id) then Some(INTEGRITY_FAILURE) else ResultFor(w.rows, id)
  {
    hide INTEGRITY_FAILURE, UNREADABLE_ARGS, INTERRUPTED;
  }

  lemma OthersKeepResults(w: World, s: Step, id: string)
    requires s.Sweep? || s.Interrupt? || s.MarkRow? || s.FailMark? || s.FailParse?
    requires ResultFor(w.rows, id).Some? && ResultShape(w.rows[id])
    ensures ResultFor(Next(w, s).rows, id) == ResultFor(w.rows, id)
  {
    hide INTEGRITY_FAILURE, UNREADABLE_ARGS, INTERRUPTED;
  }

  /** Only an insert adds a row, and it adds an intact one. */
  lemma NewRowsAreIntact(w: World, s: Step, id: string)
    requires Inv(w) && id in Next(w, s).rows && id !in w.rows
    ensures Intact(Next(w, s).rows[id])
  {
    if s.InsertRow? {
    } else if TouchesRows(s) {
      NoRowsAdded(w, s);
    } else {
      RowsUntouched(w, s);
    }
  }

  lemma NoRowsAdded(w: World, s: Step)
    requires TouchesRows(s) && !s.InsertRow?
    ensures Next(w, s).rows.Keys == w.rows.Keys
  {
    hide INTEGRITY_FAILURE, UNREADABLE_ARGS, INTERRUPTED;
    hide StoredResult, HandleOf;
  }

  lemma IntactStays(w: World, s: Step, id: string)
    requires Inv(w) && id in w.rows && Intact(w.rows[id])
    ensures id in Next(w, s).rows && Intact(Next(w, s).rows[id])
  {
    hide Inv, Next;
    StepGoesForward(w, s);
    assert SameRequest(w.rows[id], Next(w, s).rows[id]);
  }

  /** On a row nobody tampered with, a result once stored is never replaced, whatever state
      the other rows are in. */
  lemma {:induction false} ResultsAreWrittenOnce(w: World, steps: seq<Step>, id: string)
    requires Inv(w) && ResultFor(w.rows, id).Some? && Intact(w.rows[id])
    ensures ResultFor(Run(w, steps).rows, id) == ResultFor(w.rows, id)
    decreases |steps|
  {
    if steps != [] {
      var s := steps[0];
      StepKeeps(w, s);
      IntactStays(w, s, id);
      ResultRewritten(w, s, id);
      if s.FailIntegrity? && At(w, s.e) && w.approvers[s.e].Tampered? {
        assert ApproverOk(w.rows, w.log, w.approvers[s.e]);
      }
      ResultsAreWrittenOnce(Next(w, s), steps[1..], id);
    }
  }

  /** Once a request has a result, every later call with the same binding, whatever happened in
      between, is answered with that result; answering it runs nothing and changes no row. */
  lemma RetryGetsTheStoredResult(w: World, steps: seq<Step>, id: string, c: nat, now: int)
    requires Inv(w) && ResultFor(w.rows, id).Some? && Intact(w.rows[id])
    requires var v := Run(w, steps);
      c in v.callers && v.callers[c].Selecting? &&
      Binds(w.rows[id], v.callers[c].client, v.callers[c].tool, v.callers[c].digest)
    ensures var v := Run(w, steps);
      var u := Next(Next(v, SelectRow(c)), Answer(c, now));
      && u.rows == v.rows && u.log == v.log
      && c in u.callers && u.callers[c].Told? && u.callers[c].handle.Ok?
      && OutcomeOf(u.callers[c].handle.value) == Executed(ReadResult(w.rows[id].result))
  {
    hide ReadResult, Inv, Run;
    assert ResultShape(w.rows[id]) by { Shapes(w, id); }
    BindingKeepsItsRow(w, steps, id);
    FinalStatesStay(w, steps, id);
    ResultsAreWrittenOnce(w, steps, id);
    AnswerFromRow(Run(w, steps), id, c, now);
  }

  lemma Shapes(w: World, id: string)
    requires Inv(w) && id in w.rows
    ensures ResultShape(w.rows[id])
  {
  }

  lemma AnswerFromRow(v: World, id: string, c: nat, now: int)
    requires c in v.callers && v.callers[c].Selecting? && id in v.rows && v.rows[id].state in {Done, Failed}
    requires SelectBinding(v.rows, v.callers[c].client, v.callers[c].tool, v.callers[c].digest) == Some(id)
    ensures var u := Next(Next(v, SelectRow(c)), Answer(c, now));
      && u.rows == v.rows && u.log == v.log
      && c in u.callers && u.callers[c].Told? && u.callers[c].handle.Ok?
      && OutcomeOf(u.callers[c].handle.value) == Executed(ReadResult(v.rows[id].result))
  {
    hide ReadResult;
    var row, created := v.rows[id], v.callers[c].created;
    assert Next(v, SelectRow(c)) == Tell(v, c, Answering(id, row, created, true));
  }

  const TAMPERED_ROW: Row :=
    Row("client", "tool", Sha256("null"), "true", "c", 0, 300, Pending, None, None)

  lemma Run4(w: World, a: Step, b: Step, c: Step, d: Step)
    ensures Run(w, [a, b, c, d]) == Next(Next(Next(Next(w, a), b), c), d)
  {
    hide Next;
    RunStep(w, a, [b, c, d]);
    RunStep(Next(w, a), b, [c, d]);
    RunStep(Next(Next(w, a), b), c, [d]);
    RunStep(Next(Next(Next(w, a), b), c), d, []);
    assert [a, b, c, d] == [a] + [b, c, d] && [b, c, d] == [b] + [c, d] && [c, d] == [c] + [d] && [d] == [d] + [];
  }

  /** An approval of a pending row, claimed in time. */
  lemma ApproveAndClaim(w: World, id: string, now: int)
    requires 0 !in w.approvers && Claimable(w.rows, id, now)
    ensures Next(Next(w, Approve(0, id)), ClaimRow(0, now)) ==
      World(w.rows[id := w.rows[id].(state := State.Claimed, resolvedAt := Some(now))],
            w.approvers[0 := Loading(id)], w.callers, w.log + [ClaimedAt(id, now)])
  {
    assert w.approvers[0 := Claiming(id)][0 := Loading(id)] == w.approvers[0 := Loading(id)];
  }

  lemma LoadTampered(w: World, id: string)
    requires 0 in w.approvers && w.approvers[0] == Loading(id) && id in w.rows && !Intact(w.rows[id])
    ensures Next(w, LoadRow(0)) == Goto(w, 0, Tampered(id))
  {
  }

  /** On a tampered row, recovery between the claim and the integrity update has its result replaced. */
  lemma ResultCanBeRewritten()
    ensures var w := World(map["a" := TAMPERED_ROW], map[], map[], []);
      Initial(w) &&
      var v := Run(w, [Approve(0, "a"), ClaimRow(0, 1), LoadRow(0), Interrupt(2)]);
      "a" in v.rows && v.rows["a"].result == Some(INTERRUPTED) &&
      "a" in Next(v, FailIntegrity(0, 3)).rows &&
      Next(v, FailIntegrity(0, 3)).rows["a"].result == Some(INTEGRITY_FAILURE)
  {
    var w := World(map["a" := TAMPERED_ROW], map[], map[], []);
    Run4(w, Approve(0, "a"), ClaimRow(0, 1), LoadRow(0), Interrupt(2));
    ApproveAndClaim(w, "a", 1);
    var u := Next(Next(w, Approve(0, "a")), ClaimRow(0, 1));
    assert !Intact(u.rows["a"]) by { assert |"null"| == |"true"| && "null"[0] != "true"[0]; }
    LoadTampered(u, "a");
    FailTamperedAfterInterrupt(Next(u, LoadRow(0)));
  }

  lemma FailTamperedAfterInterrupt(w: World)
    requires "a" in w.rows && w.rows["a"].state == State.Claimed && 0 in w.approvers && w.approvers[0] == Tampered("a")
    ensures var v := Next(w, Interrupt(2));
      "a" in v.rows && v.rows["a"].result == Some(INTERRUPTED) &&
      "a" in Next(v, FailIntegrity(0, 3)).rows &&
      Next(v, FailIntegrity(0, 3)).rows["a"].result == Some(INTEGRITY_FAILURE)
  {
    hide INTEGRITY_FAILURE, UNREADABLE_ARGS, INTERRUPTED;
  }

  // ----- what a caller is told -----

  /** Telling a caller that its pending request expired is accurate exactly when the row had
      not been decided between the read and the expiry update. */
  lemma ExpiredAnswerExact(w: World, s: Step)
    requires s.Answer? && s.c in w.callers && w.callers[s.c].Answering?
    requires var c := w.callers[s.c]; c.row.state == Pending && c.row.expiresAt <= s.now && c.id in w.rows
    ensures var id := w.callers[s.c].id; var w' := Next(w, s);
      && w'.callers[s.c].handle.Ok? && w'.callers[s.c].handle.value.state == Expired
      && (w'.rows[id].state == Expired <==> w.rows[id].state == Pending || w.rows[id].state == Expired)
  {
  }

  const CONTESTED: Row :=
    Row("client", "tool", Sha256("null"), "null", "c", 0, 300, Pending, None, None)
  const ALL_ALLOWED: Policy := Policy(Allow, Allow, Allow, Allow, Allow)
  const READY: Conditions := Conditions(true, Some(ALL_ALLOWED), Some(Tool(Trading, true, true)))

  /** From a claimed, intact row whose text is `null`, a permitted run executes. */
  lemma ClaimedRowRuns(w: World, id: string)
    requires 0 in w.approvers && w.approvers[0] == Loading(id)
    requires id in w.rows && w.rows[id].state == State.Claimed && w.rows[id].canonical == "null" && Intact(w.rows[id])
    ensures var v := Run(w, [LoadRow(0), CheckPolicy(0, READY, ALL_ALLOWED), MarkRow(0), BeginTool(0, true)]);
      v.callers == w.callers && v.log != [] && v.log[|v.log| - 1] == Ran(id, Null)
  {
    Run4(w, LoadRow(0), CheckPolicy(0, READY, ALL_ALLOWED), MarkRow(0), BeginTool(0, true));
    var row := w.rows[id];
    var claim := Claim(id, row.client, row.tool, row.correlation, Null);
    assert Parse("null") == Some(Null) by { RoundTrip(Null); }
    assert Next(w, LoadRow(0)) == Goto(w, 0, Checking(claim)) by { hide Parse; }
    CheckedRowRuns(Goto(w, 0, Checking(claim)), claim);
  }

  lemma CheckedRowRuns(w: World, claim: Claim)
    requires 0 in w.approvers && w.approvers[0] == Checking(claim)
    requires claim.id in w.rows && w.rows[claim.id].state == State.Claimed
    ensures var v := Next(Next(Next(w, CheckPolicy(0, READY, ALL_ALLOWED)), MarkRow(0)), BeginTool(0, true));
      v.callers == w.callers && v.log != [] && v.log[|v.log| - 1] == Ran(claim.id, claim.args)
  {
    hide Next, Objection;
    var u := Goto(w.(log := w.log + [Permitted(claim.id, Decision.Execute)]), 0, Marking(claim));
    CheckPasses(w, claim);
    var v := Goto(u.(rows := MarkOne(u.rows, claim.id)), 0, Starting(claim));
    MarkPasses(u, claim);
    BeginRuns(v, claim);
  }

  lemma CheckPasses(w: World, claim: Claim)
    requires 0 in w.approvers && w.approvers[0] == Checking(claim)
    ensures Next(w, CheckPolicy(0, READY, ALL_ALLOWED)) ==
      Goto(w.(log := w.log + [Permitted(claim.id, Decision.Execute)]), 0, Marking(claim))
  {
    assert Objection(READY, ALL_ALLOWED) == None;
  }

  lemma MarkPasses(w: World, claim: Claim)
    requires 0 in w.approvers && w.approvers[0] == Marking(claim)
    requires claim.id in w.rows && w.rows[claim.id].state == State.Claimed
    ensures Next(w, MarkRow(0)) == Goto(w.(rows := MarkOne(w.rows, claim.id)), 0, Starting(claim))
  {
  }

  lemma BeginRuns(w: World, claim: Claim)
    requires 0 in w.approvers && w.approvers[0] == Starting(claim)
    ensures var v := Next(w, BeginTool(0, true)); v.callers == w.callers && v.log == w.log + [Ran(claim.id, claim.args)]
  {
  }

  ghost predicate ToldExpiredButRan(w: World, v: World) {
    Initial(w) && 0 in v.callers && v.callers[0].Told? && v.callers[0].handle.Ok? &&
    v.callers[0].handle.value.state == Expired && v.log != [] && v.log[|v.log| - 1] == Ran("a", Null)
  }

  /** A caller can be told that its request expired although it was approved in time and then runs. */
  lemma ExpiredAnswerCanBeWrong()
    ensures var w := World(map["a" := CONTESTED], map[], map[], []);
      var u := Run(w, [Poll(0, "a", "client"), Approve(0, "a"), ClaimRow(0, 299), Answer(0, 300)]);
      var v := Run(u, [LoadRow(0), CheckPolicy(0, READY, ALL_ALLOWED), MarkRow(0), BeginTool(0, true)]);
      ToldExpiredButRan(w, v)
  {
    hide Next, Run;
    var w := World(map["a" := CONTESTED], map[], map[], []);
    Run4(w, Poll(0, "a", "client"), Approve(0, "a"), ClaimRow(0, 299), Answer(0, 300));
    PollReads(w);
    var w1 := Next(w, Poll(0, "a", "client"));
    ApproveAndClaim(w1, "a", 299);
    var w3 := Next(Next(w1, Approve(0, "a")), ClaimRow(0, 299));
    AnswerLate(w3);
    ClaimedRowRuns(Next(w3, Answer(0, 300)), "a");
  }

  lemma PollReads(w: World)
    requires "a" in w.rows && w.rows["a"] == CONTESTED
    ensures Next(w, Poll(0, "a", "client")) == Tell(w, 0, Answering("a", CONTESTED, false, false))
  {
  }

  lemma AnswerLate(w: World)
    requires 0 in w.callers && w.callers[0] == Answering("a", CONTESTED, false, false)
    requires "a" in w.rows && w.rows["a"].state == State.Claimed
    ensures var v := Next(w, Answer(0, 300));
      v.rows == w.rows && v.approvers == w.approvers && v.log == w.log && 0 in v.callers &&
      v.callers[0].Told? && v.callers[0].handle.Ok? && v.callers[0].handle.value.state == Expired
  {
    hide ReadResult;
  }
}

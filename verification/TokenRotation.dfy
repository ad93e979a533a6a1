/** Single-flight rotation of one-use refresh tokens: callers check the session, take a
    lock, check it again, and only then spend the refresh token. Signing in and out happen
    beside them without the lock. */
module TokenRotation {
  import opened Results

  /** A refresh token, named by when the server issued it. */
  type Token = nat

  datatype Session = Session(access: string, expiresAt: int, refresh: Token)

  predicate Usable(s: Session, margin: int, now: int) {
    s.access != "" && s.expiresAt > now + margin
  }

  /** What the server says to a refresh token. */
  datatype Response = Rotated(access: string, expiresAt: int, refresh: Token) | Refused | Failed

  /** Where one call stands. `force` marks `refresh_now`, which skips the usability checks. */
  datatype Caller =
    | Reading(margin: int)
    | Waiting(margin: int, force: bool)
    | Locked(margin: int, force: bool)
    | Spending(token: Token)
    | InFlight(token: Token)
    | Done(access: Option<string>)

  predicate HasLock(c: Caller) { c.Locked? || c.Spending? || c.InFlight? }

  datatype Event = Presented(token: Token) | Adopted(token: Token) | Rejected(token: Token)

  datatype World = World(
    session: Option<Session>, lock: Option<nat>, callers: map<nat, Caller>,
    issued: set<Token>, log: seq<Event>)

  datatype Step =
    | AskAccess(c: nat, margin: int)
    | AskRefresh(c: nat)
    | FirstRead(c: nat, now: int)
    | Acquire(c: nat)
    | Reread(c: nat, now: int, offline: bool)
    | Present(c: nat)
    | Answer(c: nat, response: Response)
    | Abandon(c: nat)
    | SignIn(access: string, expiresAt: int, refresh: Token)
    | SignOut

  function Goto(w: World, c: nat, caller: Caller): World {
    w.(callers := w.callers[c := caller], lock := if HasLock(caller) then Some(c) else if w.lock == Some(c) then None else w.lock)
  }

  function DoFirstRead(w: World, s: Step): World
    requires s.FirstRead? && s.c in w.callers && w.callers[s.c].Reading?
  {
    var margin := w.callers[s.c].margin;
    match w.session
    case None => Goto(w, s.c, Done(None))
    case Some(session) =>
      if Usable(session, margin, s.now) then Goto(w, s.c, Done(Some(session.access)))
      else Goto(w, s.c, Waiting(margin, false))
  }

  /** Another caller may have rotated while this one waited, so the session is read again. */
  function DoReread(w: World, s: Step): World
    requires s.Reread? && s.c in w.callers && w.callers[s.c].Locked?
  {
    var caller := w.callers[s.c];
    match w.session
    case None => Goto(w, s.c, Done(None))
    case Some(session) =>
      if !caller.force && Usable(session, caller.margin, s.now) then Goto(w, s.c, Done(Some(session.access)))
      else if s.offline then Goto(w, s.c, Done(None))
      else Goto(w, s.c, Spending(session.refresh))
  }

  function DoAnswer(w: World, s: Step): World
    requires s.Answer? && s.c in w.callers && w.callers[s.c].InFlight?
  {
    var token := w.callers[s.c].token;
    match s.response
    case Rotated(access, expiresAt, refresh) =>
      if refresh in w.issued then w
      else
        Goto(w, s.c, Done(Some(access)))
          .(session := Some(Session(access, expiresAt, refresh)), issued := w.issued + {refresh},
            log := w.log + [Adopted(token)])
    case Refused => Goto(w, s.c, Done(None)).(session := None, log := w.log + [Rejected(token)])
    case Failed => Goto(w, s.c, Done(None))
  }

  /** A step whose caller is not at the right point leaves the world alone; the server only
      hands out tokens it has not issued before. */
  function Next(w: World, s: Step): World {
    match s
    case AskAccess(c, margin) => if c in w.callers then w else Goto(w, c, Reading(margin))
    case AskRefresh(c) => if c in w.callers then w else Goto(w, c, Waiting(0, true))
    case FirstRead(c, _) => if c in w.callers && w.callers[c].Reading? then DoFirstRead(w, s) else w
    case Acquire(c) =>
      if c in w.callers && w.callers[c].Waiting? && w.lock == None
      then Goto(w, c, Locked(w.callers[c].margin, w.callers[c].force)) else w
    case Reread(c, _, _) => if c in w.callers && w.callers[c].Locked? then DoReread(w, s) else w
    case Present(c) =>
      if c in w.callers && w.callers[c].Spending?
      then Goto(w, c, InFlight(w.callers[c].token)).(log := w.log + [Presented(w.callers[c].token)]) else w
    case Answer(c, _) => if c in w.callers && w.callers[c].InFlight? then DoAnswer(w, s) else w
    case Abandon(c) =>
      w.(callers := w.callers - {c}, lock := if w.lock == Some(c) then None else w.lock)
    case SignIn(access, expiresAt, refresh) =>
      if refresh in w.issued then w
      else w.(session := Some(Session(access, expiresAt, refresh)), issued := w.issued + {refresh})
    case SignOut => w.(session := None)
  }

  function Run(w: World, steps: seq<Step>): World
    decreases |steps|
  {
    if steps == [] then w else Run(Next(w, steps[0]), steps[1..])
  }

  predicate Initial(w: World) {
    w.lock == None && w.callers == map[] && w.log == [] &&
    (w.session.Some? ==> w.session.value.refresh in w.issued)
  }

  // ----- the invariant -----

  predicate Retires(e: Event, token: Token) {
    (e.Adopted? || e.Rejected?) && e.token == token
  }

  ghost predicate Retired(log: seq<Event>, token: Token) {
    exists k :: 0 <= k < |log| && Retires(log[k], token)
  }

  function TokenOf(c: Caller): Option<Token> {
    match c
    case Spending(t) => Some(t)
    case InFlight(t) => Some(t)
    case _ => None
  }

  /** No token is presented after it was retired. */
  ghost predicate NeverReused(log: seq<Event>) {
    forall j, k :: 0 <= j < k < |log| && log[k].Presented? ==> !Retires(log[j], log[k].token)
  }

  ghost predicate Live(w: World, token: Token) {
    token in w.issued && !Retired(w.log, token)
  }

  ghost predicate Inv(w: World) {
    (forall c :: c in w.callers && HasLock(w.callers[c]) ==> w.lock == Some(c)) &&
    (forall e :: e in w.log ==> e.token in w.issued) &&
    (w.session.Some? ==> Live(w, w.session.value.refresh)) &&
    (forall c :: c in w.callers && TokenOf(w.callers[c]).Some? ==> Live(w, TokenOf(w.callers[c]).value)) &&
    NeverReused(w.log)
  }

  lemma RetiredGrows(log: seq<Event>, e: Event, token: Token)
    ensures Retired(log + [e], token) <==> Retired(log, token) || Retires(e, token)
  {
    if Retired(log, token) {
      var k :| 0 <= k < |log| && Retires(log[k], token);
      assert Retires((log + [e])[k], token);
    }
    if Retires(e, token) { assert Retires((log + [e])[|log|], token); }
  }

  lemma FreshNotRetired(w: World, token: Token)
    requires Inv(w) && token !in w.issued
    ensures !Retired(w.log, token)
  {
  }

  lemma AnswerKeeps(w: World, s: Step)
    requires Inv(w) && s.Answer? && s.c in w.callers && w.callers[s.c].InFlight?
    ensures Inv(DoAnswer(w, s))
  {
    var token := w.callers[s.c].token;
    var w' := DoAnswer(w, s);
    if w'.log != w.log {
      var e := w'.log[|w.log|];
      assert w'.log == w.log + [e];
      if w'.session.Some? {
        FreshNotRetired(w, w'.session.value.refresh);
        RetiredGrows(w.log, e, w'.session.value.refresh);
      }
    }
  }

  lemma StepKeeps(w: World, s: Step)
    requires Inv(w)
    ensures Inv(Next(w, s))
  {
    if s.Answer? {
      hide Inv, DoFirstRead, DoReread, DoAnswer;
      if s.c in w.callers && w.callers[s.c].InFlight? { AnswerKeeps(w, s); }
    } else if s.Present? {
      PresentKeeps(w, s);
    } else if s.SignIn? {
      SignInKeeps(w, s);
    } else {
      QuietStepKeeps(w, s);
    }
  }

  lemma PresentKeeps(w: World, s: Step)
    requires Inv(w) && s.Present?
    ensures Inv(Next(w, s))
  {
    hide DoFirstRead, DoReread, DoAnswer, Retired;
    if s.c in w.callers && w.callers[s.c].Spending? {
      var e := Presented(w.callers[s.c].token);
      forall t ensures Retired(w.log + [e], t) <==> Retired(w.log, t) { RetiredGrows(w.log, e, t); }
      assert NeverReused(w.log + [e]) by { StillNeverReused(w.log, w.callers[s.c].token); }
    }
  }

  lemma StillNeverReused(log: seq<Event>, token: Token)
    requires NeverReused(log) && !Retired(log, token)
    ensures NeverReused(log + [Presented(token)])
  {
  }

  lemma SignInKeeps(w: World, s: Step)
    requires Inv(w) && s.SignIn?
    ensures Inv(Next(w, s))
  {
    hide DoFirstRead, DoReread, DoAnswer, NeverReused;
    if s.refresh !in w.issued { FreshNotRetired(w, s.refresh); }
  }

  /** The steps that neither touch the log nor hand out a token. */
  lemma QuietStepKeeps(w: World, s: Step)
    requires Inv(w) && !s.Answer? && !s.Present? && !s.SignIn?
    ensures Inv(Next(w, s))
  {
    hide DoAnswer, NeverReused, Retired;
  }

  lemma {:induction false} RunKeeps(w: World, steps: seq<Step>)
    requires Inv(w)
    ensures Inv(Run(w, steps))
    decreases |steps|
  {
    if steps != [] {
      StepKeeps(w, steps[0]);
      RunKeeps(Next(w, steps[0]), steps[1..]);
    }
  }

  /** Over any interleaving: at most one refresh is in flight, and a token whose rotation was
      adopted or which was refused is never presented again. */
  lemma SingleFlight(w: World, steps: seq<Step>)
    requires Initial(w)
    ensures var w' := Run(w, steps);
      && NeverReused(w'.log)
      && forall c, d :: c in w'.callers && d in w'.callers && w'.callers[c].InFlight? && w'.callers[d].InFlight? ==> c == d
  {
    RunKeeps(w, steps);
  }

  // ----- one rotation serves everyone waiting -----

  /** Nothing is being spent and nobody forces a refresh. */
  predicate Calm(w: World, s: Session) {
    w.session == Some(s) &&
    forall c :: c in w.callers ==>
      TokenOf(w.callers[c]) == None && (w.callers[c].Waiting? || w.callers[c].Locked? ==> !w.callers[c].force)
  }

  /** A step of ordinary callers at a moment when the session outlives their margin. */
  predicate Timely(w: World, s: Session, step: Step) {
    !step.AskRefresh? && !step.SignIn? && !step.SignOut? &&
    (step.FirstRead? && step.c in w.callers && w.callers[step.c].Reading? ==>
      Usable(s, w.callers[step.c].margin, step.now)) &&
    (step.Reread? && step.c in w.callers && w.callers[step.c].Locked? ==>
      Usable(s, w.callers[step.c].margin, step.now))
  }

  predicate TimelyRun(w: World, s: Session, steps: seq<Step>)
    decreases |steps|
  {
    steps == [] || (Timely(w, s, steps[0]) && TimelyRun(Next(w, steps[0]), s, steps[1..]))
  }

  /** Every caller that finishes in the run gets the session's token, and no request is made. */
  lemma {:induction false} OneRotationServesAll(w: World, s: Session, steps: seq<Step>, c: nat)
    requires Calm(w, s) && TimelyRun(w, s, steps)
    ensures var w' := Run(w, steps);
      && w'.log == w.log && w'.session == Some(s) && Calm(w', s)
      && (c in w'.callers && w'.callers[c].Done? ==>
            w'.callers[c].access == Some(s.access) || (c in w.callers && w.callers[c] == w'.callers[c]))
    decreases |steps|
  {
    if steps != [] {
      var v := Next(w, steps[0]);
      assert Calm(v, s) && v.log == w.log;
      OneRotationServesAll(v, s, steps[1..], c);
    }
  }

  /** The rotation itself: with everyone else waiting for an ordinary token, the one answer
      leaves exactly the calm session that serves them. */
  lemma RotationCalms(w: World, c: nat, access: string, expiresAt: int, refresh: Token)
    requires Inv(w) && c in w.callers && w.callers[c].InFlight? && refresh !in w.issued
    requires forall d :: d in w.callers && d != c && w.callers[d].Waiting? ==> !w.callers[d].force
    ensures var s := Session(access, expiresAt, refresh);
      var w' := Next(w, Answer(c, Rotated(access, expiresAt, refresh)));
      Calm(w', s) && w'.callers[c] == Done(Some(access)) && w'.lock == None
  {
  }

  // ----- signing out -----

  /** A session appears where there was none only by signing in, or when a refresh that was
      already in flight is answered. */
  lemma SessionAppearsOnlyBy(w: World, s: Step)
    requires w.session == None
    ensures Next(w, s).session.Some? <==>
      (s.SignIn? && s.refresh !in w.issued) ||
      (s.Answer? && s.c in w.callers && w.callers[s.c].InFlight? && s.response.Rotated? && s.response.refresh !in w.issued)
  {
  }

  predicate NothingSpent(w: World) {
    forall c :: c in w.callers ==> TokenOf(w.callers[c]) == None
  }

  /** Signing out lasts, whatever callers do, as long as no refresh was under way. */
  lemma {:induction false} SignedOutStays(w: World, steps: seq<Step>)
    requires w.session == None && NothingSpent(w) && forall s :: s in steps ==> !s.SignIn?
    ensures Run(w, steps).session == None
    decreases |steps|
  {
    if steps != [] {
      assert steps[0] in steps && forall s :: s in steps[1..] ==> s in steps;
      assert NothingSpent(Next(w, steps[0])) && Next(w, steps[0]).session == None;
      SignedOutStays(Next(w, steps[0]), steps[1..]);
    }
  }

  /** Otherwise the answer to the refresh brings the session back. */
  lemma SignOutCanBeUndone(w: World, c: nat, access: string, expiresAt: int, refresh: Token)
    requires c in w.callers && w.callers[c].InFlight? && refresh !in w.issued
    ensures var v := Run(w, [SignOut, Answer(c, Rotated(access, expiresAt, refresh))]);
      v.session == Some(Session(access, expiresAt, refresh))
  {
    var steps := [SignOut, Answer(c, Rotated(access, expiresAt, refresh))];
    var signedOut := Next(w, SignOut);
    assert steps[1..] == [steps[1]] && [steps[1]][1..] == [];
    assert Run(signedOut, [steps[1]]) == Next(signedOut, steps[1]) by {
      assert Run(Next(signedOut, steps[1]), []) == Next(signedOut, steps[1]);
    }
  }

  // ----- one call on its own -----

  class Account {
    var session: Option<Session>

    constructor (restored: Option<Session>)
      ensures session == restored
    {
      session := restored;
    }

    /** Return the current token while it lasts; otherwise spend the refresh token once and
        keep what comes back. Nothing is spent without a session or while offline. */
    method AccessToken(margin: int, now: int, later: int, offline: bool, server: Token -> Response)
      returns (access: Option<string>, spent: Option<Token>)
      modifies this
      ensures old(session) == None ==> access == None && spent == None && session == None
      ensures old(session).Some? && (Usable(old(session).value, margin, now) || Usable(old(session).value, margin, later)) ==>
        access == Some(old(session).value.access) && spent == None && session == old(session)
      ensures old(session).Some? && !Usable(old(session).value, margin, now) && !Usable(old(session).value, margin, later) ==>
        (if offline then access == None && spent == None && session == old(session)
         else spent == Some(old(session).value.refresh) && Settled(old(session), server(spent.value), access, session))
    {
      if session == None {
        return None, None;
      }
      if Usable(session.value, margin, now) {
        return Some(session.value.access), None;
      }
      if Usable(session.value, margin, later) {
        return Some(session.value.access), None;
      }
      access, spent := RefreshSession(offline, server);
    }

    method RefreshSession(offline: bool, server: Token -> Response)
      returns (access: Option<string>, spent: Option<Token>)
      requires session.Some?
      modifies this
      ensures if offline then access == None && spent == None && session == old(session)
        else spent == Some(old(session).value.refresh) && Settled(old(session), server(spent.value), access, session)
    {
      if offline {
        return None, None;
      }
      spent := Some(session.value.refresh);
      match server(session.value.refresh) {
        case Rotated(token, expiresAt, refresh) =>
          session := Some(Session(token, expiresAt, refresh));
          access := Some(token);
        case Refused =>
          session := None;
          access := None;
        case Failed =>
          access := None;
      }
    }
  }

  /** The new pair replaces the old one, a refusal ends the session, a failure changes nothing. */
  predicate Settled(before: Option<Session>, r: Response, access: Option<string>, after: Option<Session>) {
    match r
    case Rotated(token, expiresAt, refresh) => access == Some(token) && after == Some(Session(token, expiresAt, refresh))
    case Refused => access == None && after == None
    case Failed => access == None && after == before
  }
}

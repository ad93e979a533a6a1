/** Crash-safe replacement of the configuration file on Unix: write a sibling temp file,
    sync it, fix its mode, rename it over the destination. Any number of writers in the
    process interleave, temp files of earlier processes lie around, and the machine may
    stop after any step. */
module AtomicWrite {
  import opened Results

  type Mode = bv12

  /** The permission bits 0400 and 0600. */
  const OWNER_READ: Mode := 0x100
  const OWNER_RW: Mode := 0x180
  const MAX_TEMP_ATTEMPTS: nat := 16
  const TOKEN_LIMIT: nat := 0x1_0000_0000_0000_0000

  /** Nobody but the owner may read or write. */
  predicate OwnerOnly(m: Mode) { m & OWNER_RW == m }

  datatype File = File(content: string, mode: Mode, synced: bool)

  /** A temp file beside the destination, named after a process id and a token. */
  datatype Temp = Temp(pid: nat, token: nat)

  /** The mode a replacement gets: the owner bits of the existing file if it is readable. */
  function ReplacementMode(existing: Option<File>): (m: Mode)
    ensures OwnerOnly(m) && (m == OWNER_RW || m == OWNER_READ)
  {
    match existing
    case Some(f) => if f.mode & OWNER_READ != 0 then f.mode & OWNER_RW else OWNER_RW
    case None => OWNER_RW
  }

  /** The `i`th name tried from token `first` on. */
  function Candidate(pid: nat, first: nat, i: nat): Temp {
    Temp(pid, (first + i) % TOKEN_LIMIT)
  }

  // ----- writers -----

  datatype Writer =
    | Statting(body: string)
    | Drawing(body: string, mode: Mode, attempts: nat)
    | Opening(body: string, mode: Mode, attempts: nat, token: nat)
    | Writing(body: string, mode: Mode, temp: Temp)
    | Syncing(body: string, mode: Mode, temp: Temp)
    | Chmodding(body: string, mode: Mode, temp: Temp)
    | Renaming(body: string, mode: Mode, temp: Temp)
    | SyncingDir(body: string)
    | Cleaning(body: string, temp: Temp)
    | Returned(body: string, ok: bool, leftover: Option<Temp>)

  function Owned(w: Writer): Option<Temp> {
    match w
    case Writing(_, _, t) => Some(t)
    case Syncing(_, _, t) => Some(t)
    case Chmodding(_, _, t) => Some(t)
    case Renaming(_, _, t) => Some(t)
    case Cleaning(_, t) => Some(t)
    case Returned(_, _, t) => t
    case _ => None
  }

  /** `versions` are the destinations a crash may expose: the one last made durable and
      every later one, the current one last. `bodies` are the documents handed in so far. */
  datatype World = World(
    versions: seq<Option<File>>, temps: map<Temp, File>, writers: map<nat, Writer>,
    pid: nat, token: nat, bodies: set<string>)

  function Dest(w: World): Option<File>
    requires w.versions != []
  {
    w.versions[|w.versions| - 1]
  }

  datatype Step =
    | Begin(n: nat, body: string)
    | Stat(n: nat)
    | Draw(n: nat)
    | Open(n: nat, umask: Mode, fails: bool)
    | Write(n: nat, written: nat, ok: bool)
    | Sync(n: nat, ok: bool)
    | Chmod(n: nat, ok: bool)
    | Rename(n: nat, ok: bool)
    | SyncDir(n: nat, ok: bool)
    | Clean(n: nat, ok: bool)
    | Crash(survivor: nat, lost: set<Temp>, garbled: string, pid: nat)

  function Goto(w: World, n: nat, writer: Writer): World {
    w.(writers := w.writers[n := writer])
  }

  function DoOpen(w: World, s: Step): World
    requires s.Open? && s.n in w.writers && w.writers[s.n].Opening?
  {
    var a := w.writers[s.n];
    var candidate := Temp(w.pid, a.token);
    if candidate in w.temps then
      if a.attempts + 1 >= MAX_TEMP_ATTEMPTS then Goto(w, s.n, Returned(a.body, false, None))
      else Goto(w, s.n, Drawing(a.body, a.mode, a.attempts + 1))
    else if s.fails then Goto(w, s.n, Returned(a.body, false, None))
    else
      Goto(w.(temps := w.temps[candidate := File("", a.mode & !s.umask, false)]), s.n,
           Writing(a.body, a.mode, candidate))
  }

  function DoRename(w: World, s: Step): World
    requires s.Rename? && s.n in w.writers && w.writers[s.n].Renaming? && w.writers[s.n].temp in w.temps
  {
    var a := w.writers[s.n];
    if s.ok then
      Goto(w.(versions := w.versions + [Some(w.temps[a.temp])], temps := w.temps - {a.temp}), s.n, SyncingDir(a.body))
    else Goto(w, s.n, Cleaning(a.body, a.temp))
  }

  /** After a crash nothing runs, the destination is any version not yet made durable or the
      durable one, unsynced temp files hold anything or are gone, and synced ones are intact. */
  function DoCrash(w: World, s: Step): World
    requires s.Crash? && w.versions != []
  {
    var survivor := w.versions[if s.survivor < |w.versions| then s.survivor else 0];
    var temps := map t | t in w.temps && (w.temps[t].synced || t !in s.lost) ::
      if w.temps[t].synced then w.temps[t] else w.temps[t].(content := s.garbled);
    World([survivor], temps, map[], s.pid, 0, w.bodies)
  }

  /** `write_all`: the whole body, or some of it and then a failure. */
  function DoWrite(w: World, s: Step): World
    requires s.Write? && s.n in w.writers && w.writers[s.n].Writing? && w.writers[s.n].temp in w.temps
  {
    var a := w.writers[s.n];
    var text := if s.ok || s.written >= |a.body| then a.body else a.body[..s.written];
    Goto(w.(temps := w.temps[a.temp := w.temps[a.temp].(content := text)]), s.n,
         if s.ok then Syncing(a.body, a.mode, a.temp) else Cleaning(a.body, a.temp))
  }

  function DoSync(w: World, s: Step): World
    requires s.Sync? && s.n in w.writers && w.writers[s.n].Syncing? && w.writers[s.n].temp in w.temps
  {
    var a := w.writers[s.n];
    if s.ok then
      Goto(w.(temps := w.temps[a.temp := w.temps[a.temp].(synced := true)]), s.n, Chmodding(a.body, a.mode, a.temp))
    else Goto(w, s.n, Cleaning(a.body, a.temp))
  }

  function DoChmod(w: World, s: Step): World
    requires s.Chmod? && s.n in w.writers && w.writers[s.n].Chmodding? && w.writers[s.n].temp in w.temps
  {
    var a := w.writers[s.n];
    if s.ok then
      Goto(w.(temps := w.temps[a.temp := w.temps[a.temp].(mode := a.mode)]), s.n, Renaming(a.body, a.mode, a.temp))
    else Goto(w, s.n, Cleaning(a.body, a.temp))
  }

  function DoSyncDir(w: World, s: Step): World
    requires s.SyncDir? && s.n in w.writers && w.writers[s.n].SyncingDir? && w.versions != []
  {
    Goto(if s.ok then w.(versions := [Dest(w)]) else w, s.n, Returned(w.writers[s.n].body, true, None))
  }

  function DoClean(w: World, s: Step): World
    requires s.Clean? && s.n in w.writers && w.writers[s.n].Cleaning?
  {
    var a := w.writers[s.n];
    if s.ok then Goto(w.(temps := w.temps - {a.temp}), s.n, Returned(a.body, false, None))
    else Goto(w, s.n, Returned(a.body, false, Some(a.temp)))
  }

  /** Is writer `n` at a point where it holds an existing temp file? */
  predicate Holding(w: World, n: nat) {
    n in w.writers && Owned(w.writers[n]).Some? && Owned(w.writers[n]).value in w.temps
  }

  /** A step whose writer is not at the right point leaves the world alone. */
  function Next(w: World, s: Step): World
    requires w.versions != []
  {
    match s
    case Begin(n, body) =>
      if n in w.writers then w else Goto(w.(bodies := w.bodies + {body}), n, Statting(body))
    case Stat(n) =>
      if n in w.writers && w.writers[n].Statting?
      then Goto(w, n, Drawing(w.writers[n].body, ReplacementMode(Dest(w)), 0)) else w
    case Draw(n) =>
      if n in w.writers && w.writers[n].Drawing?
      then Goto(w.(token := (w.token + 1) % TOKEN_LIMIT), n,
                Opening(w.writers[n].body, w.writers[n].mode, w.writers[n].attempts, w.token)) else w
    case Open(n, _, _) => if n in w.writers && w.writers[n].Opening? then DoOpen(w, s) else w
    case Write(n, _, _) => if Holding(w, n) && w.writers[n].Writing? then DoWrite(w, s) else w
    case Sync(n, _) => if Holding(w, n) && w.writers[n].Syncing? then DoSync(w, s) else w
    case Chmod(n, _) => if Holding(w, n) && w.writers[n].Chmodding? then DoChmod(w, s) else w
    case Rename(n, _) => if Holding(w, n) && w.writers[n].Renaming? then DoRename(w, s) else w
    case SyncDir(n, _) => if n in w.writers && w.writers[n].SyncingDir? then DoSyncDir(w, s) else w
    case Clean(n, _) => if Holding(w, n) && w.writers[n].Cleaning? then DoClean(w, s) else w
    case Crash(_, _, _, _) => DoCrash(w, s)
  }

  function Run(w: World, steps: seq<Step>): World
    requires w.versions != []
    decreases |steps|
  {
    if steps == [] then w else Run(Next(w, steps[0]), steps[1..])
  }

  /** Any destination, any leftovers of earlier processes, nothing running. */
  predicate Initial(w: World) {
    |w.versions| == 1 && w.writers == map[] && w.bodies == {}
  }

  // ----- the invariant -----

  /** The original destination, or one writer's whole document, synced, in an owner-only mode. */
  predicate GoodVersion(v: Option<File>, original: Option<File>, bodies: set<string>) {
    v == original ||
    (v.Some? && v.value.content in bodies && v.value.synced && (v.value.mode == OWNER_RW || v.value.mode == OWNER_READ))
  }

  predicate GoodMode(m: Mode) { m == OWNER_RW || m == OWNER_READ }

  predicate WriterOk(w: World, a: Writer) {
    a.body in w.bodies &&
    (Owned(a).Some? ==> Owned(a).value in w.temps && OwnerOnly(w.temps[Owned(a).value].mode)) &&
    (match a
     case Drawing(_, m, _) => GoodMode(m)
     case Opening(_, m, _, _) => GoodMode(m)
     case Writing(_, m, _) => GoodMode(m)
     case Syncing(_, m, t) => GoodMode(m) && w.temps[t].content == a.body
     case Chmodding(_, m, t) => GoodMode(m) && w.temps[t].content == a.body && w.temps[t].synced
     case Renaming(_, m, t) =>
       GoodMode(m) && w.temps[t].content == a.body && w.temps[t].synced && w.temps[t].mode == m
     case _ => true)
  }

  predicate Separate(w: World) {
    forall m, n :: m in w.writers && n in w.writers && m != n && Owned(w.writers[m]).Some? ==>
      Owned(w.writers[m]) != Owned(w.writers[n])
  }

  predicate Inv(w: World, original: Option<File>) {
    w.versions != [] &&
    (forall v :: v in w.versions ==> GoodVersion(v, original, w.bodies)) &&
    (forall n :: n in w.writers ==> WriterOk(w, w.writers[n])) &&
    Separate(w)
  }

  lemma MaskedModeIsOwnerOnly(m: Mode, umask: Mode)
    requires GoodMode(m)
    ensures OwnerOnly(m & !umask)
  {
  }

  /** A step of one writer that changes at most its own temp file. */
  lemma WriterStep(w: World, w': World, n: nat, original: Option<File>)
    requires Inv(w, original) && n in w.writers && n in w'.writers
    requires w'.writers == w.writers[n := w'.writers[n]] && w'.bodies == w.bodies
    requires w'.versions != [] && forall v :: v in w'.versions ==> GoodVersion(v, original, w.bodies)
    requires WriterOk(w', w'.writers[n])
    requires Owned(w'.writers[n]).Some? ==>
      Owned(w'.writers[n]) == Owned(w.writers[n]) || Owned(w'.writers[n]).value !in w.temps
    requires forall t :: t in w.temps && Owned(w.writers[n]) != Some(t) ==> t in w'.temps && w'.temps[t] == w.temps[t]
    ensures Inv(w', original)
  {
    forall m | m in w'.writers ensures WriterOk(w', w'.writers[m]) {
      if m != n { assert WriterOk(w, w.writers[m]); }
    }
    forall l, m | l in w'.writers && m in w'.writers && l != m && Owned(w'.writers[l]).Some?
      ensures Owned(w'.writers[l]) != Owned(w'.writers[m])
    {
      assert l != n ==> WriterOk(w, w.writers[l]);
      assert m != n ==> WriterOk(w, w.writers[m]);
    }
  }

  lemma OpenKeeps(w: World, s: Step, original: Option<File>)
    requires Inv(w, original) && s.Open? && s.n in w.writers && w.writers[s.n].Opening?
    ensures Inv(DoOpen(w, s), original)
  {
    var a := w.writers[s.n];
    assert WriterOk(w, a);
    MaskedModeIsOwnerOnly(a.mode, s.umask);
    WriterStep(w, DoOpen(w, s), s.n, original);
  }

  lemma WriteKeeps(w: World, s: Step, original: Option<File>)
    requires Inv(w, original) && s.Write? && Holding(w, s.n) && w.writers[s.n].Writing?
    ensures Inv(DoWrite(w, s), original)
  {
    assert WriterOk(w, w.writers[s.n]);
    WriterStep(w, DoWrite(w, s), s.n, original);
  }

  lemma SyncKeeps(w: World, s: Step, original: Option<File>)
    requires Inv(w, original) && s.Sync? && Holding(w, s.n) && w.writers[s.n].Syncing?
    ensures Inv(DoSync(w, s), original)
  {
    assert WriterOk(w, w.writers[s.n]);
    WriterStep(w, DoSync(w, s), s.n, original);
  }

  lemma ChmodKeeps(w: World, s: Step, original: Option<File>)
    requires Inv(w, original) && s.Chmod? && Holding(w, s.n) && w.writers[s.n].Chmodding?
    ensures Inv(DoChmod(w, s), original)
  {
    assert WriterOk(w, w.writers[s.n]);
    WriterStep(w, DoChmod(w, s), s.n, original);
  }

  lemma RenameKeeps(w: World, s: Step, original: Option<File>)
    requires Inv(w, original) && s.Rename? && Holding(w, s.n) && w.writers[s.n].Renaming?
    ensures Inv(DoRename(w, s), original)
  {
    assert WriterOk(w, w.writers[s.n]);
    WriterStep(w, DoRename(w, s), s.n, original);
  }

  lemma CleanKeeps(w: World, s: Step, original: Option<File>)
    requires Inv(w, original) && s.Clean? && Holding(w, s.n) && w.writers[s.n].Cleaning?
    ensures Inv(DoClean(w, s), original)
  {
    assert WriterOk(w, w.writers[s.n]);
    WriterStep(w, DoClean(w, s), s.n, original);
  }

  lemma LocalStepKeeps(w: World, s: Step, original: Option<File>)
    requires Inv(w, original) && (s.Stat? || s.Draw? || s.SyncDir?)
    ensures Inv(Next(w, s), original)
  {
    if s.n in w.writers && Next(w, s) != w {
      assert WriterOk(w, w.writers[s.n]);
      WriterStep(w, Next(w, s), s.n, original);
    }
  }

  lemma BeginKeeps(w: World, n: nat, body: string, original: Option<File>)
    requires Inv(w, original)
    ensures Inv(Next(w, Begin(n, body)), original)
  {
    forall m | m in w.writers ensures WriterOk(Next(w, Begin(n, body)), w.writers[m]) {
      assert WriterOk(w, w.writers[m]);
    }
  }

  lemma StepKeeps(w: World, s: Step, original: Option<File>)
    requires Inv(w, original)
    ensures Inv(Next(w, s), original)
  {
    match s
    case Begin(n, body) => BeginKeeps(w, n, body, original);
    case Crash(_, _, _, _) =>
    case Open(n, _, _) => if n in w.writers && w.writers[n].Opening? { OpenKeeps(w, s, original); }
    case Write(n, _, _) => if Holding(w, n) && w.writers[n].Writing? { WriteKeeps(w, s, original); }
    case Sync(n, _) => if Holding(w, n) && w.writers[n].Syncing? { SyncKeeps(w, s, original); }
    case Chmod(n, _) => if Holding(w, n) && w.writers[n].Chmodding? { ChmodKeeps(w, s, original); }
    case Rename(n, _) => if Holding(w, n) && w.writers[n].Renaming? { RenameKeeps(w, s, original); }
    case Clean(n, _) => if Holding(w, n) && w.writers[n].Cleaning? { CleanKeeps(w, s, original); }
    case _ => LocalStepKeeps(w, s, original);
  }

  lemma {:induction false} RunKeeps(w: World, steps: seq<Step>, original: Option<File>)
    requires Inv(w, original)
    ensures Inv(Run(w, steps), original)
    decreases |steps|
  {
    if steps != [] {
      StepKeeps(w, steps[0], original);
      RunKeeps(Next(w, steps[0]), steps[1..], original);
    }
  }

  // ----- the promises -----

  /** After any steps, crashes included, the destination is the original or one writer's
      complete document in an owner-only mode; no half-written file is ever visible. */
  lemma DestinationIsWhole(w: World, steps: seq<Step>)
    requires Initial(w)
    ensures var w' := Run(w, steps);
      w'.versions != [] && GoodVersion(Dest(w'), Dest(w), w'.bodies)
  {
    RunKeeps(w, steps, Dest(w));
  }

  /** Every document on disk under a writer's temp name is readable by the owner alone. */
  lemma TempsAreOwnerOnly(w: World, steps: seq<Step>, n: nat)
    requires Initial(w)
    requires n in Run(w, steps).writers && Owned(Run(w, steps).writers[n]).Some?
    ensures var w' := Run(w, steps); var t := Owned(w'.writers[n]).value;
      t in w'.temps && OwnerOnly(w'.temps[t].mode)
  {
    RunKeeps(w, steps, Dest(w));
    assert WriterOk(Run(w, steps), Run(w, steps).writers[n]);
  }

  /** A writer that returns leaves no temp file behind unless removing it failed. */
  lemma ReturnLeavesNoTemp(w: World, s: Step, original: Option<File>)
    requires Inv(w, original) && !s.Crash? && !s.Begin? && s.n in w.writers
    requires !w.writers[s.n].Returned? && Next(w, s).writers[s.n].Returned?
    ensures var w' := Next(w, s);
      match Owned(w.writers[s.n])
      case Some(t) => t !in w'.temps <==> w'.writers[s.n].leftover == None
      case None => w'.temps == w.temps && w'.writers[s.n].leftover == None
  {
    assert WriterOk(w, w.writers[s.n]);
  }

  predicate Unowned(w: World, t: Temp) {
    forall n :: n in w.writers ==> Owned(w.writers[n]) != Some(t)
  }

  /** What one step does to a temp file no live writer owns: nothing, unless it is a crash and
      the file was never synced. */
  lemma StrangerStep(w: World, s: Step, t: Temp, original: Option<File>)
    requires Inv(w, original) && t in w.temps && Unowned(w, t) && (w.temps[t].synced || !s.Crash?)
    ensures var w' := Next(w, s); t in w'.temps && w'.temps[t] == w.temps[t] && Unowned(w', t)
  {
    if !s.Crash? && s.n in w.writers { assert WriterOk(w, w.writers[s.n]); }
    hide Inv, ReplacementMode;
    if s.Open? || s.Rename? || s.Crash? {
      hide DoWrite, DoSync, DoChmod, DoSyncDir, DoClean;
      NameOrCrashStep(w, s, t);
    } else {
      hide DoOpen, DoRename, DoCrash;
    }
  }

  lemma NameOrCrashStep(w: World, s: Step, t: Temp)
    requires w.versions != [] && t in w.temps && Unowned(w, t) && (w.temps[t].synced || !s.Crash?)
    requires s.Open? || s.Rename? || s.Crash?
    ensures var w' := Next(w, s); t in w'.temps && w'.temps[t] == w.temps[t] && Unowned(w', t)
  {
    hide DoWrite, DoSync, DoChmod, DoSyncDir, DoClean;
  }

  predicate NoCrash(steps: seq<Step>) {
    forall s :: s in steps ==> !s.Crash?
  }

  /** No crash of the run loses this file. */
  predicate NeverLost(steps: seq<Step>, t: Temp) {
    forall s :: s in steps && s.Crash? ==> t !in s.lost
  }

  /** A temp file no live writer owns is never created, overwritten or removed, whatever its
      name and whoever left it; only a crash can touch one that was never synced. */
  lemma {:induction false} StrangersAreNeverTouched(w: World, steps: seq<Step>, t: Temp, original: Option<File>)
    requires Inv(w, original) && t in w.temps && Unowned(w, t)
    requires w.temps[t].synced || NoCrash(steps)
    ensures t in Run(w, steps).temps && Run(w, steps).temps[t] == w.temps[t] && Unowned(Run(w, steps), t)
    decreases |steps|
  {
    if steps != [] {
      StrangerStep(w, steps[0], t, original);
      StepKeeps(w, steps[0], original);
      assert forall s :: s in steps[1..] ==> s in steps;
      StrangersAreNeverTouched(Next(w, steps[0]), steps[1..], t, original);
    }
  }

  /** The content is what it was, or what some crash of the run left in an unsynced file. */
  predicate Remains(was: File, now: File, steps: seq<Step>) {
    now == was || (!was.synced && exists s :: s in steps && s.Crash? && now == was.(content := s.garbled))
  }

  /** Through any number of crashes: a temp file no live writer owns stays as long as no crash
      loses it, unowned and with its mode, and only crashes have changed what an unsynced one
      holds. */
  lemma {:induction false} CrashesGarbleOnlyUnsynced(w: World, steps: seq<Step>, t: Temp, original: Option<File>)
    requires Inv(w, original) && t in w.temps && Unowned(w, t)
    requires w.temps[t].synced || NeverLost(steps, t)
    ensures var w' := Run(w, steps); t in w'.temps && Unowned(w', t) && Remains(w.temps[t], w'.temps[t], steps)
    decreases |steps|
  {
    if steps != [] {
      var s, rest := steps[0], steps[1..];
      assert w.versions != [];
      hide Inv, Unowned, Next, Remains;
      assert forall r :: r in rest ==> r in steps;
      if !s.Crash? || w.temps[t].synced { StrangerStep(w, s, t, original); } else { CrashOnStranger(w, s, t); }
      StepKeeps(w, s, original);
      assert Next(w, s).versions != [] by { InvHasVersions(Next(w, s), original); }
      SameSynced(w, Next(w, s), s, t);
      CrashesGarbleOnlyUnsynced(Next(w, s), rest, t, original);
      StillRemains(w.temps[t], Next(w, s).temps[t], Run(w, steps).temps[t], steps);
    }
  }

  lemma InvHasVersions(w: World, original: Option<File>)
    requires Inv(w, original)
    ensures w.versions != []
  {
  }

  lemma SameSynced(w: World, w': World, s: Step, t: Temp)
    requires t in w.temps && t in w'.temps && (w'.temps[t] == w.temps[t] || Remains(w.temps[t], w'.temps[t], [s]))
    ensures w'.temps[t].synced == w.temps[t].synced && Remains(w.temps[t], w'.temps[t], [s])
  {
  }

  lemma StillRemains(was: File, next: File, now: File, steps: seq<Step>)
    requires steps != [] && Remains(was, next, [steps[0]]) && Remains(next, now, steps[1..])
    ensures Remains(was, now, steps)
  {
    assert steps[0] in steps && forall r :: r in steps[1..] ==> r in steps;
  }

  /** A crash loses a temp file exactly if it was never synced and is among the lost ones; one
      that stays has no owner afterwards. */
  lemma CrashOnStranger(w: World, s: Step, t: Temp)
    requires w.versions != [] && s.Crash? && t in w.temps
    ensures var w' := Next(w, s);
      && (t !in w'.temps <==> !w.temps[t].synced && t in s.lost)
      && (t in w'.temps ==> Unowned(w', t) && Remains(w.temps[t], w'.temps[t], [s]))
  {
    assert s in [s];
  }

  /** A successful rename publishes exactly the writer's document, in the mode it computed,
      and uses up its temp file. */
  lemma RenamePublishes(w: World, n: nat, original: Option<File>)
    requires Inv(w, original) && n in w.writers && w.writers[n].Renaming?
    ensures var a := w.writers[n]; var w' := Next(w, Rename(n, true));
      w'.versions != [] && Dest(w') == Some(File(a.body, a.mode, true)) && a.temp !in w'.temps
  {
    assert WriterOk(w, w.writers[n]);
  }

  // ----- one writer, start to finish -----

  /** Where a single call is made to fail, if anywhere. */
  datatype Fault = NoFault | OpenFault | WriteFault(written: nat) | SyncFault | ChmodFault | RenameFault

  /** Is `t` one of the names tried from token `first` on, free, and every earlier one taken? */
  ghost predicate FirstFree(temps: map<Temp, File>, pid: nat, first: nat, t: Temp) {
    t !in temps &&
    exists i :: 0 <= i < MAX_TEMP_ATTEMPTS && t == Candidate(pid, first, i) && AllTaken(temps, pid, first, i)
  }

  ghost predicate AllTaken(temps: map<Temp, File>, pid: nat, first: nat, n: nat) {
    forall j :: 0 <= j < n ==> Candidate(pid, first, j) in temps
  }

  class Directory {
    var dest: Option<File>
    var temps: map<Temp, File>
    var pid: nat
    var token: nat

    /** The first of at most sixteen candidate names that is free; taken names are stepped
        over and never created. */
    method OpenTemp(mode: Mode, umask: Mode, fails: bool) returns (r: Option<Temp>)
      requires token < TOKEN_LIMIT
      modifies this`temps, this`token
      ensures r.Some? ==>
        !fails && r.value !in old(temps) && temps == old(temps)[r.value := File("", mode & !umask, false)]
      ensures r.Some? ==> FirstFree(old(temps), pid, old(token), r.value)
      ensures r.None? ==> temps == old(temps)
      ensures r.None? && !fails ==> AllTaken(temps, pid, old(token), MAX_TEMP_ATTEMPTS)
      ensures token < TOKEN_LIMIT
    {
      var attempts := 0;
      while attempts < MAX_TEMP_ATTEMPTS
        invariant attempts <= MAX_TEMP_ATTEMPTS && temps == old(temps) && token < TOKEN_LIMIT
        invariant token == (old(token) + attempts) % TOKEN_LIMIT
        invariant AllTaken(temps, pid, old(token), attempts)
      {
        var candidate := Temp(pid, token);
        assert candidate == Candidate(pid, old(token), attempts);
        token := (token + 1) % TOKEN_LIMIT;
        if candidate !in temps {
          if fails {
            return None;
          }
          assert FirstFree(temps, pid, old(token), candidate);
          temps := temps[candidate := File("", mode & !umask, false)];
          return Some(candidate);
        }
        attempts := attempts + 1;
      }
      r := None;
    }

    /** Remove the temp file of a failed attempt; nobody looks at whether that worked. */
    method CleanUp(temp: Temp, fails: bool)
      modifies this`temps
      ensures temps == if fails then old(temps) else old(temps) - {temp}
    {
      if !fails {
        temps := temps - {temp};
      }
    }

    /** All or nothing: on success only the destination has changed, to the whole document in
        an owner-only mode; on failure nothing has, except that a temp file which could not be
        removed is left behind, readable by the owner alone. */
    method WriteConfigAtomic(body: string, umask: Mode, fault: Fault, cleanFails: bool) returns (ok: bool)
      requires token < TOKEN_LIMIT
      modifies this
      ensures token < TOKEN_LIMIT && pid == old(pid)
      ensures ok || !cleanFails ==> temps == old(temps)
      ensures temps == old(temps) || LeftOne(old(temps), temps)
      ensures dest == (if ok then Some(File(body, ReplacementMode(old(dest)), true)) else old(dest))
      ensures fault != NoFault ==> !ok
      ensures fault == NoFault && !ok ==> AllTaken(old(temps), pid, old(token), MAX_TEMP_ATTEMPTS)
    {
      var mode := ReplacementMode(dest);
      var created := OpenTemp(mode, umask, fault == OpenFault);
      if created.None? {
        return false;
      }
      var temp := created.value;
      MaskedModeIsOwnerOnly(mode, umask);
      if fault.WriteFault? || fault.SyncFault? {
        var part := if fault.WriteFault? && fault.written < |body| then body[..fault.written] else body;
        temps := temps[temp := temps[temp].(content := part)];
        CleanUp(temp, cleanFails);
        OneMore(old(temps), temp, temps);
        return false;
      }
      temps := temps[temp := temps[temp].(content := body, synced := true)];
      if fault.ChmodFault? {
        CleanUp(temp, cleanFails);
        OneMore(old(temps), temp, temps);
        return false;
      }
      temps := temps[temp := temps[temp].(mode := mode)];
      if fault.RenameFault? {
        CleanUp(temp, cleanFails);
        OneMore(old(temps), temp, temps);
        return false;
      }
      dest, temps := Some(temps[temp]), temps - {temp};
      OneMore(old(temps), temp, temps);
      ok := true;
    }
  }

  /** Is there one more temp file, for the owner's eyes only, and every other one as it was? */
  ghost predicate LeftOne(before: map<Temp, File>, after: map<Temp, File>) {
    exists t :: t !in before && t in after && OwnerOnly(after[t].mode) && after == before[t := after[t]]
  }

  lemma OneMore(before: map<Temp, File>, t: Temp, after: map<Temp, File>)
    requires t !in before && after - {t} == before
    ensures t !in after ==> after == before
    ensures t in after && OwnerOnly(after[t].mode) ==> LeftOne(before, after)
  {
    if t in after { assert after == before[t := after[t]]; } else { assert after - {t} == after; }
  }
}

/** The pairing-table migration that replaces each pairing's coarse scope by its own
    permission policy, one autocommitted SQL statement at a time. */
module SchemaMigration {
  import opened Results
  import opened Permissions

  /** A pairing row; a column the table does not have holds the empty text. */
  datatype Row = Row(scope: string, permissions: string, name: string, agentKind: string,
                     createdAt: int, lastUsedAt: Option<int>, revokedAt: Option<int>)

  datatype Table = Table(hasScope: bool, hasPermissions: bool, rows: map<string, Row>)

  ghost predicate WellFormed(t: Table) {
    forall id :: id in t.rows ==>
      (!t.hasScope ==> t.rows[id].scope == "") && (!t.hasPermissions ==> t.rows[id].permissions == "")
  }

  /** The policy that grants what a scope granted. */
  function PolicyForScope(scope: string): Policy {
    var trading := if scope == "trade" then Allow else Deny;
    var operate := if scope == "trade" || scope == "operate" then Allow else Deny;
    Policy(Allow, Allow, trading, operate, operate)
  }

  // ----- the statements -----

  /** `ALTER TABLE pairings ADD COLUMN permissions TEXT NOT NULL DEFAULT ''`. */
  function AddPermissions(t: Table): Table {
    t.(hasPermissions := true, rows := map id | id in t.rows :: t.rows[id].(permissions := ""))
  }

  /** `UPDATE pairings SET permissions = ? WHERE client_id = ?`. */
  function SetPermissions(t: Table, id: string, text: string): Table {
    if id in t.rows then t.(rows := t.rows[id := t.rows[id].(permissions := text)]) else t
  }

  /** `ALTER TABLE pairings DROP COLUMN scope`. */
  function DropScope(t: Table): Table {
    t.(hasScope := false, rows := map id | id in t.rows :: t.rows[id].(scope := ""))
  }

  /** Does `todo` list each row without a policy, once, with its scope, in some order? */
  ghost predicate Selects(t: Table, todo: seq<(string, string)>) {
    (forall k :: 0 <= k < |todo| ==>
      todo[k].0 in t.rows && t.rows[todo[k].0].permissions == "" && t.rows[todo[k].0].scope == todo[k].1) &&
    (forall j, k :: 0 <= j < k < |todo| ==> todo[j].0 != todo[k].0) &&
    (forall id :: id in t.rows && t.rows[id].permissions == "" ==>
      exists k :: 0 <= k < |todo| && todo[k].0 == id)
  }

  // ----- what the migration is for -----

  /** The table a migration must end with: rows that already have a policy keep it, the
      others get that of their scope, and nothing else about a row changes. */
  function Migrated(row: Row): Row {
    row.(scope := "", permissions := if row.permissions == "" then ToJson(PolicyForScope(row.scope)) else row.permissions)
  }

  function Target(t: Table): Table {
    if !t.hasScope then t
    else Table(false, true, map id | id in t.rows :: Migrated(t.rows[id]))
  }

  // ----- interrupted runs -----

  /** Where a run of the migration stands; a process that stopped stands nowhere. */
  datatype Progress =
    | Stopped
    | Checked
    | Added
    | Updating(todo: seq<(string, string)>)
    | Completed

  datatype Db = Db(table: Table, progress: Progress)

  datatype Step = Begin | Add | Select(todo: seq<(string, string)>) | Update | Drop | Crash

  /** One statement of the running migration, or a crash. A step out of turn does nothing. */
  ghost function Next(db: Db, step: Step): Db {
    match step
    case Begin => if db.progress != Stopped then db else db.(progress := if db.table.hasScope then Checked else Completed)
    case Add =>
      if db.progress != Checked then db
      else Db(if db.table.hasPermissions then db.table else AddPermissions(db.table), Added)
    case Select(todo) =>
      if db.progress != Added || !Selects(db.table, todo) then db else db.(progress := Updating(todo))
    case Update =>
      if !db.progress.Updating? || db.progress.todo == [] then db
      else
        var (id, scope) := db.progress.todo[0];
        Db(SetPermissions(db.table, id, ToJson(PolicyForScope(scope))), Updating(db.progress.todo[1..]))
    case Drop =>
      if db.progress != Updating([]) then db else Db(DropScope(db.table), Completed)
    case Crash => db.(progress := Stopped)
  }

  ghost function Run(db: Db, steps: seq<Step>): Db
    decreases |steps|
  {
    if steps == [] then db else Run(Next(db, steps[0]), steps[1..])
  }

  /** What every statement keeps: the destination, and what the progress says about the table. */
  ghost predicate Inv(db: Db, target: Table) {
    WellFormed(db.table) && Target(db.table) == target &&
    match db.progress
    case Stopped => true
    case Checked => db.table.hasScope
    case Added => db.table.hasScope && db.table.hasPermissions
    case Updating(todo) => db.table.hasScope && db.table.hasPermissions && Selects(db.table, todo)
    case Completed => !db.table.hasScope
  }

  lemma AddKeeps(t: Table)
    requires WellFormed(t) && t.hasScope && !t.hasPermissions
    ensures AddPermissions(t) == t.(hasPermissions := true)
    ensures WellFormed(AddPermissions(t)) && Target(AddPermissions(t)) == Target(t)
  {
    assert AddPermissions(t).rows == t.rows;
  }

  lemma UpdateKeeps(t: Table, todo: seq<(string, string)>)
    requires WellFormed(t) && t.hasScope && t.hasPermissions && todo != [] && Selects(t, todo)
    ensures var t' := SetPermissions(t, todo[0].0, ToJson(PolicyForScope(todo[0].1)));
      WellFormed(t') && Target(t') == Target(t) && Selects(t', todo[1..]) && t'.rows.Keys == t.rows.Keys
  {
    hide ToJson, PolicyForScope;
    var (id, scope) := todo[0];
    PolicyRoundTrip(PolicyForScope(scope));
    SelectsRest(t, todo, ToJson(PolicyForScope(scope)));
    hide Target;
    SetKeepsTarget(t, id);
  }

  lemma SetKeepsTarget(t: Table, id: string)
    requires WellFormed(t) && t.hasScope && t.hasPermissions && id in t.rows && t.rows[id].permissions == ""
    ensures var text := ToJson(PolicyForScope(t.rows[id].scope));
      var t' := SetPermissions(t, id, text);
      text != "" ==> WellFormed(t') && Target(t') == Target(t) && t'.rows.Keys == t.rows.Keys
  {
    hide ToJson, PolicyForScope;
    var text := ToJson(PolicyForScope(t.rows[id].scope));
    var t' := SetPermissions(t, id, text);
    if text != "" {
      assert Migrated(t'.rows[id]) == Migrated(t.rows[id]);
      assert Target(t').rows == Target(t).rows;
    }
  }

  lemma SelectsRest(t: Table, todo: seq<(string, string)>, text: string)
    requires todo != [] && Selects(t, todo) && text != ""
    ensures Selects(SetPermissions(t, todo[0].0, text), todo[1..])
  {
    var t' := SetPermissions(t, todo[0].0, text);
    forall id | id in t'.rows && t'.rows[id].permissions == ""
      ensures exists k :: 0 <= k < |todo[1..]| && todo[1..][k].0 == id
    {
      assert id != todo[0].0 && t.rows[id].permissions == "";
      var k :| 0 <= k < |todo| && todo[k].0 == id;
      assert todo[1..][k - 1].0 == id;
    }
  }

  lemma DropKeeps(t: Table)
    requires WellFormed(t) && t.hasScope && t.hasPermissions && Selects(t, [])
    ensures WellFormed(DropScope(t)) && DropScope(t) == Target(t)
  {
    assert forall id :: id in t.rows ==> t.rows[id].permissions != "";
    assert DropScope(t).rows == Target(t).rows;
  }

  lemma StepKeeps(db: Db, step: Step, target: Table)
    requires Inv(db, target)
    ensures Inv(Next(db, step), target)
  {
    hide WellFormed, Target, Selects, AddPermissions, SetPermissions, DropScope, ToJson, PolicyForScope;
    match step
    case Add => if db.progress == Checked && !db.table.hasPermissions { AddKeeps(db.table); }
    case Update =>
      if db.progress.Updating? && db.progress.todo != [] {
        UpdateKeeps(db.table, db.progress.todo);
        SetKeepsColumns(db.table, db.progress.todo[0].0, ToJson(PolicyForScope(db.progress.todo[0].1)));
      }
    case Drop => if db.progress == Updating([]) { DropKeeps(db.table); DropsScope(db.table); }
    case _ =>
  }

  lemma SetKeepsColumns(t: Table, id: string, text: string)
    ensures var t' := SetPermissions(t, id, text); t'.hasScope == t.hasScope && t'.hasPermissions == t.hasPermissions
  {
  }

  lemma DropsScope(t: Table)
    ensures !DropScope(t).hasScope && Target(DropScope(t)) == DropScope(t)
  {
  }

  lemma {:induction false} RunKeeps(db: Db, steps: seq<Step>, target: Table)
    requires Inv(db, target)
    ensures Inv(Run(db, steps), target)
    decreases |steps|
  {
    if steps != [] {
      StepKeeps(db, steps[0], target);
      RunKeeps(Next(db, steps[0]), steps[1..], target);
    }
  }

  /** However often the migration was stopped and wherever, what is left still leads to the
      table an uninterrupted run makes, and a run that completed has made it. */
  lemma InterruptionsConverge(t: Table, steps: seq<Step>)
    requires WellFormed(t)
    ensures var db := Run(Db(t, Stopped), steps);
      && WellFormed(db.table) && Target(db.table) == Target(t)
      && (db.progress == Completed ==> db.table == Target(t))
  {
    RunKeeps(Db(t, Stopped), steps, Target(t));
  }

  /** No row appears or disappears on the way. */
  lemma RowsStay(t: Table, steps: seq<Step>)
    requires WellFormed(t)
    ensures Run(Db(t, Stopped), steps).table.rows.Keys == t.rows.Keys
  {
    InterruptionsConverge(t, steps);
    var db := Run(Db(t, Stopped), steps);
    assert Target(db.table).rows.Keys == db.table.rows.Keys && Target(t).rows.Keys == t.rows.Keys;
  }

  /** After any interruptions and one completed run, each row of a version 1 table holds, as
      the text the policy reader accepts, exactly the policy of its scope, and the rest of the
      row is untouched. */
  lemma EachRowHoldsItsPolicy(t: Table, steps: seq<Step>, id: string)
    requires WellFormed(t) && t.hasScope && !t.hasPermissions && id in t.rows
    requires Run(Db(t, Stopped), steps).progress == Completed
    ensures var rows := Run(Db(t, Stopped), steps).table.rows;
      && id in rows
      && FromJson(rows[id].permissions) == Some(PolicyForScope(t.rows[id].scope))
      && rows[id].(scope := t.rows[id].scope, permissions := "") == t.rows[id]
  {
    hide FromJson, ToJson, PolicyForScope;
    InterruptionsConverge(t, steps);
    PolicyRoundTrip(PolicyForScope(t.rows[id].scope));
  }

  /** A migrated pairing can do what its scope allowed: only `trade` trades, only `trade` and
      `operate` change the configuration or the system, every scope reads. */
  lemma ScopeKeepsItsPower(scope: string, tool: Tool, inApp: Policy)
    ensures var d := Decide(tool, Mcp(PolicyForScope(scope)), inApp);
      && d != RequireApproval
      && (d == Execute <==>
            match tool.category
            case Trading => scope == "trade"
            case Config | System => scope == "trade" || scope == "operate"
            case Analysis | Portfolio => true)
  {
  }

  // ----- the migration itself -----

  /** The pairing database, changed statement by statement. */
  class PairingDb {
    var table: Table

    ghost predicate Valid() reads this { WellFormed(table) }

    /** `SELECT client_id, scope FROM pairings WHERE permissions = ''`, in some order. */
    method SelectWithoutPolicy() returns (todo: seq<(string, string)>)
      ensures Selects(table, todo)
    {
      todo := [];
      var ids := table.rows.Keys;
      ghost var seen: set<string> := {};
      while ids != {}
        invariant ids <= table.rows.Keys && seen == table.rows.Keys - ids
        invariant forall k :: 0 <= k < |todo| ==>
          todo[k].0 in seen && table.rows[todo[k].0].permissions == "" && table.rows[todo[k].0].scope == todo[k].1
        invariant forall j, k :: 0 <= j < k < |todo| ==> todo[j].0 != todo[k].0
        invariant forall id :: id in seen && table.rows[id].permissions == "" ==> exists k :: 0 <= k < |todo| && todo[k].0 == id
      {
        var id :| id in ids;
        ids := ids - {id};
        seen := seen + {id};
        if table.rows[id].permissions == "" {
          ghost var earlier := todo;
          todo := todo + [(id, table.rows[id].scope)];
          assert todo[|earlier|].0 == id;
          assert forall k :: 0 <= k < |earlier| ==> todo[k] == earlier[k];
        }
      }
    }

    /** Migrate from whatever an earlier run left. */
    method MigrateScopeToPermissions()
      requires Valid()
      modifies this
      ensures Valid() && table == Target(old(table))
    {
      hide ToJson, PolicyForScope, Selects, Migrated;
      if !table.hasScope { return; }
      if !table.hasPermissions {
        AddKeeps(table);
        table := AddPermissions(table);
      }
      var todo := SelectWithoutPolicy();
      while todo != []
        invariant WellFormed(table) && table.hasScope && table.hasPermissions
        invariant Selects(table, todo) && Target(table) == Target(old(table))
        decreases |todo|
      {
        var (id, scope) := todo[0];
        UpdateKeeps(table, todo);
        table := SetPermissions(table, id, ToJson(PolicyForScope(scope)));
        todo := todo[1..];
      }
      DropKeeps(table);
      table := DropScope(table);
    }
  }
}

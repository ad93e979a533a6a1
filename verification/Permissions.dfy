/** Per-category permission levels and the one authorization decision every agent-facing
    tool passes through. */
module Permissions {
  import opened Results
  import opened Json
  import opened JsonPath

  /** Ordered from least to most capable. */
  datatype Level = Deny | AskUser | Allow

  datatype Category = Analysis | Portfolio | Trading | Config | System

  datatype Policy = Policy(analysis: Level, portfolio: Level, trading: Level, config: Level, system: Level)
  {
    function Get(category: Category): Level {
      match category
      case Analysis => analysis
      case Portfolio => portfolio
      case Trading => trading
      case Config => config
      case System => system
    }
  }

  datatype Tool = Tool(category: Category, mutating: bool, requiresConfirmation: bool)

  datatype Source = Assistant | ScheduledReadOnly | ScheduledFull | Mcp(permissions: Policy)

  datatype Decision = Execute | RequireApproval | Refuse

  /** A paired connection brings its own policy; everything else uses the in-app one. */
  function EffectivePermission(category: Category, source: Source, inApp: Policy): Level {
    if source.Mcp? then source.permissions.Get(category) else inApp.Get(category)
  }

  function Decide(tool: Tool, source: Source, inApp: Policy): Decision {
    var permission := EffectivePermission(tool.category, source, inApp);
    if permission == Deny then Refuse
    else match source
      case ScheduledReadOnly => if !tool.mutating then Execute else Refuse
      case ScheduledFull => if permission == Allow then Execute else RequireApproval
      case Mcp(_) => if permission == Allow then Execute else RequireApproval
      case Assistant =>
        if tool.requiresConfirmation || permission == AskUser then RequireApproval else Execute
  }

  function Strength(d: Decision): nat {
    match d
    case Refuse => 0
    case RequireApproval => 1
    case Execute => 2
  }

  function Power(l: Level): nat {
    match l
    case Deny => 0
    case AskUser => 1
    case Allow => 2
  }

  /** A paired connection's policy alone decides, one category at a time: changing the in-app
      policy or another category changes nothing, and raising a level never weakens a decision. */
  lemma PairedDecision(tool: Tool, p: Policy, q: Policy, inApp: Policy, inApp': Policy)
    ensures Strength(Decide(tool, Mcp(p), inApp)) == Power(p.Get(tool.category))
    ensures p.Get(tool.category) == q.Get(tool.category) ==>
      Decide(tool, Mcp(p), inApp) == Decide(tool, Mcp(q), inApp')
    ensures Power(p.Get(tool.category)) <= Power(q.Get(tool.category)) ==>
      Strength(Decide(tool, Mcp(p), inApp)) <= Strength(Decide(tool, Mcp(q), inApp))
  {
  }

  /** A denied category runs for nobody, and read-only automation never mutates. */
  lemma DeniedNeverRuns(tool: Tool, source: Source, inApp: Policy)
    ensures EffectivePermission(tool.category, source, inApp) == Deny ==> Decide(tool, source, inApp) == Refuse
    ensures source == ScheduledReadOnly && tool.mutating ==> Decide(tool, source, inApp) == Refuse
    ensures source == Assistant && tool.requiresConfirmation ==> Decide(tool, source, inApp) != Execute
  {
  }

  // ----- the stored policy -----

  function LevelText(l: Level): string {
    match l
    case Deny => "deny"
    case AskUser => "ask_user"
    case Allow => "allow"
  }

  function LevelOf(v: Value): Option<Level> {
    if v == Str("deny") then Some(Deny)
    else if v == Str("ask_user") then Some(AskUser)
    else if v == Str("allow") then Some(Allow)
    else None
  }

  function PolicyValue(p: Policy): Value {
    Object([
      Field("analysis", Str(LevelText(p.analysis))),
      Field("portfolio", Str(LevelText(p.portfolio))),
      Field("trading", Str(LevelText(p.trading))),
      Field("config", Str(LevelText(p.config))),
      Field("system", Str(LevelText(p.system)))
    ])
  }

  /** The policy text a pairing row stores. */
  function ToJson(p: Policy): string {
    Print(PolicyValue(p))
  }

  /** The level a policy object gives one category; a missing or repeated key is an error. */
  function LevelAt(fields: seq<Field>, key: string): Option<Level> {
    var i := FieldIndex(fields, key);
    if i == |fields| || FieldIndex(fields[i + 1..], key) < |fields| - i - 1 then None else LevelOf(fields[i].value)
  }

  function PolicyOf(levels: seq<Option<Level>>): Option<Policy>
    requires |levels| == 5
  {
    if exists i :: 0 <= i < 5 && levels[i] == None then None
    else Some(Policy(levels[0].value, levels[1].value, levels[2].value, levels[3].value, levels[4].value))
  }

  /** Read a stored policy: an object with the five keys among its own, or a list of five levels. */
  function FromJson(text: string): Option<Policy> {
    match Parse(text)
    case Some(Object(fields)) =>
      PolicyOf([LevelAt(fields, "analysis"), LevelAt(fields, "portfolio"), LevelAt(fields, "trading"),
                LevelAt(fields, "config"), LevelAt(fields, "system")])
    case Some(Array(items)) => if |items| == 5 then PolicyOf(seq(5, i requires 0 <= i < 5 => LevelOf(items[i]))) else None
    case _ => None
  }

  /** What is stored for a policy is never empty and reads back as that policy. */
  lemma PolicyRoundTrip(p: Policy)
    ensures ToJson(p) != ""
    ensures FromJson(ToJson(p)) == Some(p)
  {
    hide Parse, Print, Valid, LevelAt, LevelOf, LevelText;
    var fields := PolicyValue(p).fields;
    PolicyKeys(p);
    ValidLevels(fields);
    RoundTrip(PolicyValue(p));
    PrintStart(PolicyValue(p));
    LevelRoundTrip(p.analysis);
    LevelRoundTrip(p.portfolio);
    LevelRoundTrip(p.trading);
    LevelRoundTrip(p.config);
    LevelRoundTrip(p.system);
    OnlyAt(fields, 0);
    OnlyAt(fields, 1);
    OnlyAt(fields, 2);
    OnlyAt(fields, 3);
    OnlyAt(fields, 4);
  }

  lemma LevelRoundTrip(l: Level)
    ensures LevelOf(Str(LevelText(l))) == Some(l)
  {
    assert "deny"[0] == 'd' && "ask_user"[1] == 's' && "allow"[1] == 'l';
  }

  lemma PolicyKeys(p: Policy)
    ensures UniqueKeys(PolicyValue(p).fields)
  {
    hide LevelText;
    var keys := ["analysis", "portfolio", "trading", "config", "system"];
    assert keys[0][0] == 'a' && keys[1][0] == 'p' && keys[2][0] == 't' && keys[3][0] == 'c' && keys[4][0] == 's';
    assert forall i :: 0 <= i < 5 ==> PolicyValue(p).fields[i].key == keys[i];
  }

  lemma ValidLevels(fields: seq<Field>)
    requires |fields| == 5 && UniqueKeys(fields) && forall i :: 0 <= i < 5 ==> fields[i].value.Str?
    ensures Valid(Object(fields))
  {
    ValidStrings(fields);
  }

  lemma {:induction false} ValidStrings(fields: seq<Field>)
    requires forall i :: 0 <= i < |fields| ==> fields[i].value.Str?
    ensures ValidFields(fields)
  {
    if fields != [] { ValidStrings(fields[1..]); }
  }

  lemma OnlyAt(fields: seq<Field>, i: nat)
    requires UniqueKeys(fields) && i < |fields|
    ensures LevelAt(fields, fields[i].key) == LevelOf(fields[i].value)
  {
    var j := FieldIndex(fields, fields[i].key);
    assert j == i;
    var k := FieldIndex(fields[i + 1..], fields[i].key);
    var later := fields[i + 1..];
    assert forall m :: 0 <= m < |later| ==> later[m].key != fields[i].key;
    assert k == |fields| - i - 1;
  }
}

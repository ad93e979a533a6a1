/** The one-time merge of the legacy `[ai]` and `[agents]` configuration sections into the
    sections that replaced them. */
module LegacyConfig {
  import opened Results

  datatype Toml = Bool(b: bool) | Integer(i: int) | Str(s: string) | Table(entries: map<string, Toml>) | Other

  type Path = seq<string>

  /** The value the file carries at a dotted path, if every segment leads through a table. */
  function Leaf(root: map<string, Toml>, path: Path): Option<Toml>
    decreases |path|
  {
    if path == [] || path[0] !in root then None
    else if |path| == 1 then Some(root[path[0]])
    else if root[path[0]].Table? then Leaf(root[path[0]].entries, path[1..])
    else None
  }

  datatype Kind = ABool | AString | Unsigned(max: nat)

  const U8: Kind := Unsigned(0xFF)
  const U32: Kind := Unsigned(0xFFFF_FFFF)
  const U64: Kind := Unsigned(0xFFFF_FFFF_FFFF_FFFF)

  predicate Fits(kind: Kind, v: Toml) {
    match kind
    case ABool => v.Bool?
    case AString => v.Str?
    case Unsigned(max) => v.Integer? && 0 <= v.i <= max
  }

  // ----- what moves where -----

  datatype Rule = Rule(source: Path, dest: Path, kind: Kind)

  /** A field of a legacy section and the field of the new section it becomes. */
  datatype Rename = Rename(legacy: string, field: string, kind: Kind)

  const LLM: seq<Rename> := [Rename("enabled", "enabled", ABool), Rename("default_provider", "default_provider", AString)]

  const FILTERING: seq<Rename> := [
    Rename("filtering_enabled", "filtering_enabled", ABool),
    Rename("filtering_min_confidence", "min_confidence", U8),
    Rename("filtering_fallback_pass", "fallback_pass", ABool),
    Rename("filtering_use_cache", "use_cache", ABool),
    Rename("entry_analysis_enabled", "entry_analysis_enabled", ABool),
    Rename("exit_analysis_enabled", "exit_analysis_enabled", ABool),
    Rename("ai_trailing_stop_enabled", "trailing_stop_enabled", ABool),
    Rename("trading_bypass_cache", "trading_bypass_cache", ABool)]

  const BACKGROUND: seq<Rename> := [
    Rename("auto_blacklist_enabled", "auto_blacklist_enabled", ABool),
    Rename("auto_blacklist_min_confidence", "auto_blacklist_min_confidence", U8),
    Rename("background_check_enabled", "background_check_enabled", ABool),
    Rename("background_check_interval_seconds", "background_check_interval_seconds", U64),
    Rename("background_batch_size", "background_batch_size", U32),
    Rename("max_evaluations_per_minute", "max_evaluations_per_minute", U32),
    Rename("cache_ttl_seconds", "cache_ttl_seconds", U64)]

  const ANALYSIS: seq<Rename> := FILTERING + BACKGROUND

  const ASSISTANT: seq<Rename> := [
    Rename("chat_enabled", "enabled", ABool),
    Rename("chat_max_session_messages", "max_session_messages", U32),
    Rename("chat_auto_summarize", "auto_summarize", ABool),
    Rename("event_triggers_enabled", "event_triggers_enabled", ABool),
    Rename("scheduled_tasks_enabled", "scheduled_tasks_enabled", ABool),
    Rename("scheduled_tasks_check_interval_seconds", "check_interval_seconds", U64),
    Rename("scheduled_tasks_max_concurrent", "max_concurrent", U32),
    Rename("scheduled_tasks_default_timeout_seconds", "default_timeout_seconds", U64)]

  const PERMISSIONS: seq<Rename> := [
    Rename("tool_permissions_analysis", "analysis", AString),
    Rename("tool_permissions_portfolio", "portfolio", AString),
    Rename("tool_permissions_trading", "trading", AString),
    Rename("tool_permissions_config", "config", AString),
    Rename("tool_permissions_system", "system", AString)]

  const AGENTS: seq<Rename> := [Rename("enabled", "enabled", ABool)]

  const API_KEYED: seq<string> :=
    ["openai", "anthropic", "groq", "deepseek", "gemini", "together", "openrouter", "mistral"]

  const PROVIDERS: seq<string> := API_KEYED + ["ollama"]

  function SectionRules(legacySection: string, section: string, renames: seq<Rename>): (rules: seq<Rule>)
    ensures |rules| == |renames|
    ensures forall i :: 0 <= i < |rules| ==>
      rules[i] == Rule([legacySection, renames[i].legacy], [section, renames[i].field], renames[i].kind)
  {
    seq(|renames|, i requires 0 <= i < |renames| =>
      Rule([legacySection, renames[i].legacy], [section, renames[i].field], renames[i].kind))
  }

  /** The leaves of one provider; a provider has a key or, for Ollama, an address. */
  function ProviderLeaves(name: string): seq<Rename> {
    [Rename("enabled", "enabled", ABool),
     if name == "ollama" then Rename("base_url", "base_url", AString) else Rename("api_key", "api_key", AString),
     Rename("model", "model", AString),
     Rename("rate_limit_per_minute", "rate_limit_per_minute", U32)]
  }

  function LeafRules(name: string, leaves: seq<Rename>): (rules: seq<Rule>)
    ensures |rules| == |leaves|
    ensures forall i :: 0 <= i < |rules| ==>
      rules[i] == Rule(["ai", "providers", name, leaves[i].legacy], ["llm", "providers", name, leaves[i].field], leaves[i].kind)
  {
    seq(|leaves|, i requires 0 <= i < |leaves| =>
      Rule(["ai", "providers", name, leaves[i].legacy], ["llm", "providers", name, leaves[i].field], leaves[i].kind))
  }

  function ProviderRules(names: seq<string>): seq<Rule> {
    if names == [] then []
    else ProviderRules(names[..|names| - 1]) + LeafRules(names[|names| - 1], ProviderLeaves(names[|names| - 1]))
  }

  function LlmRules(): seq<Rule> { SectionRules("ai", "llm", LLM) }

  function LaterRules(): seq<Rule> {
    SectionRules("ai", "llm_analysis", ANALYSIS) + SectionRules("ai", "assistant", ASSISTANT) +
    SectionRules("ai", "agent_control", PERMISSIONS)
  }

  function AgentRules(): seq<Rule> { SectionRules("agents", "agent_control", AGENTS) }

  function AiRules(): seq<Rule> { LlmRules() + ProviderRules(PROVIDERS) + LaterRules() }

  function AllRules(): seq<Rule> { AiRules() + AgentRules() }

  // ----- the merge -----

  type Config = map<Path, Toml>

  /** A legacy value moves exactly when the file has it and does not set the field that replaced it. */
  predicate Moves(root: map<string, Toml>, rule: Rule) {
    Leaf(root, rule.source).Some? && Leaf(root, rule.dest).None?
  }

  function Moved(root: map<string, Toml>, rules: seq<Rule>, config: Config): Config {
    if rules == [] then config
    else
      var earlier := Moved(root, rules[..|rules| - 1], config);
      var rule := rules[|rules| - 1];
      if Moves(root, rule) then earlier[rule.dest := Leaf(root, rule.source).value] else earlier
  }

  /** Every value that moves has the type its new field needs. */
  predicate MovesFit(root: map<string, Toml>, rules: seq<Rule>) {
    forall i :: 0 <= i < |rules| && Moves(root, rules[i]) ==> Fits(rules[i].kind, Leaf(root, rules[i].source).value)
  }

  /** A typed section decodes: it is a table and each field the file has is of its type,
      whether or not it will move. */
  predicate Decodes(root: map<string, Toml>, section: string, rules: seq<Rule>) {
    section in root ==>
      root[section].Table? &&
      forall i :: 0 <= i < |rules| && Leaf(root, rules[i].source).Some? ==>
        Fits(rules[i].kind, Leaf(root, rules[i].source).value)
  }

  predicate DistinctDests(rules: seq<Rule>) {
    forall i, j :: 0 <= i < j < |rules| ==> rules[i].dest != rules[j].dest
  }

  /** What every field holds after a merge. */
  lemma {:induction false} MovedIs(root: map<string, Toml>, rules: seq<Rule>, config: Config)
    requires DistinctDests(rules)
    ensures var after := Moved(root, rules, config);
      && (forall i :: 0 <= i < |rules| && Moves(root, rules[i]) ==>
            rules[i].dest in after && after[rules[i].dest] == Leaf(root, rules[i].source).value)
      && (forall p :: (forall i :: 0 <= i < |rules| && rules[i].dest == p ==> !Moves(root, rules[i])) ==>
            ((p in after <==> p in config) && (p in config ==> after[p] == config[p])))
  {
    hide Leaf;
    if rules != [] {
      var shorter := rules[..|rules| - 1];
      MovedIs(root, shorter, config);
      var after := Moved(root, rules, config);
      var earlier := Moved(root, shorter, config);
      forall p | forall i :: 0 <= i < |rules| && rules[i].dest == p ==> !Moves(root, rules[i])
        ensures (p in after <==> p in config) && (p in config ==> after[p] == config[p])
      {
        assert forall i :: 0 <= i < |shorter| && shorter[i].dest == p ==> !Moves(root, shorter[i]) by {
          assert forall i :: 0 <= i < |shorter| ==> shorter[i] == rules[i];
        }
      }
      forall i | 0 <= i < |rules| && Moves(root, rules[i])
        ensures rules[i].dest in after && after[rules[i].dest] == Leaf(root, rules[i].source).value
      {
        if i < |shorter| { assert shorter[i] == rules[i]; }
      }
    }
  }

  lemma {:induction false} MovedConcat(root: map<string, Toml>, a: seq<Rule>, b: seq<Rule>, config: Config)
    ensures Moved(root, a + b, config) == Moved(root, b, Moved(root, a, config))
    decreases |b|
  {
    if b == [] {
      assert a + b == a;
    } else {
      var all := a + b;
      MovedConcat(root, a, b[..|b| - 1], config);
      assert all[..|all| - 1] == a + b[..|b| - 1];
    }
  }

  // ----- the table moves nothing onto the same field twice -----

  /** The length of a name and its first character; enough to tell the names of a section apart. */
  function Mark(s: string): int {
    if s == "" then 0 else 1000 * |s| + s[0] as int
  }

  function Marks(renames: seq<Rename>): (r: seq<int>)
    ensures |r| == |renames| && forall i :: 0 <= i < |r| ==> r[i] == Mark(renames[i].field)
  {
    seq(|renames|, i requires 0 <= i < |renames| => Mark(renames[i].field))
  }

  predicate Different(marks: seq<int>) {
    forall i, j :: 0 <= i < j < |marks| ==> marks[i] != marks[j]
  }

  lemma SectionDistinct(legacySection: string, section: string, renames: seq<Rename>)
    requires Different(Marks(renames))
    ensures DistinctDests(SectionRules(legacySection, section, renames))
  {
    var rules := SectionRules(legacySection, section, renames);
    forall i, j | 0 <= i < j < |rules| ensures rules[i].dest != rules[j].dest {
      assert Marks(renames)[i] != Marks(renames)[j];
      assert rules[i].dest[1] == renames[i].field && rules[j].dest[1] == renames[j].field;
    }
  }

  lemma AnalysisDiffer()
    ensures Different(Marks(ANALYSIS))
  {
    hide Mark;
    FilteringMarks();
    BackgroundMarks();
    assert Marks(ANALYSIS) == Marks(FILTERING) + Marks(BACKGROUND);
    hide Marks, FILTERING, BACKGROUND;
    ConcatDifferent(Marks(FILTERING), Marks(BACKGROUND));
  }

  lemma ConcatDifferent(a: seq<int>, b: seq<int>)
    requires Different(a) && Different(b) && forall x, y :: x in a && y in b ==> x != y
    ensures Different(a + b)
  {
    var c := a + b;
    forall i, j | 0 <= i < j < |c| ensures c[i] != c[j] {
      if i < |a| <= j { assert c[i] in a && c[j] in b; }
    }
  }

  lemma FilteringMarks()
    ensures Marks(FILTERING) == [17102, 14109, 13102, 9117, 22101, 21101, 21116, 20116]
  {
    assert |FILTERING| == 8;
  }

  lemma BackgroundMarks()
    ensures Marks(BACKGROUND) == [22097, 29097, 24098, 33098, 21098, 26109, 17099]
  {
    assert |BACKGROUND| == 7;
  }

  lemma AssistantDiffer()
    ensures Different(Marks(ASSISTANT))
  {
    assert |ASSISTANT| == 8;
  }

  lemma OthersDiffer()
    ensures Different(Marks(LLM)) && Different(Marks(PERMISSIONS + AGENTS))
  {
    assert |LLM| == 2 && |PERMISSIONS| == 5 && |AGENTS| == 1;
  }

  /** Which group of fields a path belongs to: its depth and the length of its section's name. */
  function Group(path: Path): int {
    if path == [] then 0 else 100 * |path| + |path[0]|
  }

  predicate InGroups(rules: seq<Rule>, groups: set<int>) {
    forall i :: 0 <= i < |rules| ==> Group(rules[i].dest) in groups
  }

  lemma ConcatDistinct(a: seq<Rule>, b: seq<Rule>, inA: set<int>, inB: set<int>)
    requires DistinctDests(a) && DistinctDests(b) && InGroups(a, inA) && InGroups(b, inB) && inA !! inB
    ensures DistinctDests(a + b) && InGroups(a + b, inA + inB)
  {
    hide Group;
    var all := a + b;
    forall i, j | 0 <= i < j < |all| ensures all[i].dest != all[j].dest {
      if i < |a| <= j { assert Group(all[i].dest) in inA && Group(all[j].dest) in inB; }
    }
  }

  predicate DistinctNames(names: seq<string>) {
    forall i, j :: 0 <= i < j < |names| ==> names[i] != names[j]
  }

  lemma LeavesDiffer(name: string)
    ensures DistinctDests(LeafRules(name, ProviderLeaves(name)))
    ensures forall i :: 0 <= i < 4 ==>
      var dest := LeafRules(name, ProviderLeaves(name))[i].dest; |dest| == 4 && dest[0] == "llm" && dest[2] == name
  {
    var leaves := ProviderLeaves(name);
    assert Mark(leaves[0].field) == 7101 && Mark(leaves[1].field) in {7097, 8098};
    assert Mark(leaves[2].field) == 5109 && Mark(leaves[3].field) == 21114;
    var rules := LeafRules(name, leaves);
    forall i, j | 0 <= i < j < 4 ensures rules[i].dest != rules[j].dest {
      assert rules[i].dest[3] == leaves[i].field && rules[j].dest[3] == leaves[j].field;
    }
  }

  lemma {:induction false} ProvidersDiffer(names: seq<string>)
    requires DistinctNames(names)
    ensures DistinctDests(ProviderRules(names))
    ensures forall i :: 0 <= i < |ProviderRules(names)| ==>
      var dest := ProviderRules(names)[i].dest; |dest| == 4 && dest[0] == "llm" && dest[2] in names
  {
    hide LeafRules, ProviderLeaves;
    if names != [] {
      var shorter := names[..|names| - 1];
      var name := names[|names| - 1];
      ProvidersDiffer(shorter);
      LeavesDiffer(name);
      var a, b := ProviderRules(shorter), LeafRules(name, ProviderLeaves(name));
      var all := a + b;
      assert ProviderRules(names) == all && name !in shorter;
      forall i, j | 0 <= i < j < |all| ensures all[i].dest != all[j].dest {
        if i < |a| <= j { assert all[i].dest[2] in shorter && all[j].dest[2] == name; }
      }
    }
  }

  lemma ProviderNamesDiffer()
    ensures DistinctNames(PROVIDERS)
  {
    assert |PROVIDERS| == 9;
    assert PROVIDERS[0][1] == 'p' && PROVIDERS[8][1] == 'l';
    assert forall i :: 0 <= i < 9 ==> Mark(PROVIDERS[i]) == [6111, 9097, 4103, 8100, 6103, 8116, 10111, 7109, 6111][i];
  }

  /** No two legacy values are ever merged into the same field. */
  lemma NothingCollides()
    ensures DistinctDests(AllRules())
  {
    hide Marks, ProviderRules;
    AnalysisDiffer();
    AssistantDiffer();
    OthersDiffer();
    SectionDistinct("ai", "llm", LLM);
    ProviderNamesDiffer();
    ProvidersDiffer(PROVIDERS);
    hide PROVIDERS, LLM, ANALYSIS, ASSISTANT, PERMISSIONS, AGENTS;
    SectionDistinct("ai", "llm_analysis", ANALYSIS);
    SectionDistinct("ai", "assistant", ASSISTANT);
    SectionDistinct("ai", "agent_control", PERMISSIONS + AGENTS);
    AgentControlDistinct();
    var a, b, c, d := LlmRules(), ProviderRules(PROVIDERS), SectionRules("ai", "llm_analysis", ANALYSIS), SectionRules("ai", "assistant", ASSISTANT);
    var e := SectionRules("ai", "agent_control", PERMISSIONS) + AgentRules();
    ConcatDistinct(a, b, {203}, {403});
    ConcatDistinct(a + b, c, {203, 403}, {212});
    ConcatDistinct(a + b + c, d, {203, 403, 212}, {209});
    ConcatDistinct(a + b + c + d, e, {203, 403, 212, 209}, {213});
    assert AllRules() == a + b + c + d + e;
  }

  lemma AgentControlDistinct()
    requires Different(Marks(PERMISSIONS + AGENTS))
    ensures DistinctDests(SectionRules("ai", "agent_control", PERMISSIONS) + AgentRules())
  {
    var e := SectionRules("ai", "agent_control", PERMISSIONS) + AgentRules();
    var both := SectionRules("ai", "agent_control", PERMISSIONS + AGENTS);
    SectionDistinct("ai", "agent_control", PERMISSIONS + AGENTS);
    assert forall i :: 0 <= i < |e| ==> e[i].dest == both[i].dest;
  }

  // ----- what the merge promises -----

  /** The configuration as parsed before the merge: what the file sets, and defaults elsewhere. */
  ghost predicate ParsedFrom(config: Config, root: map<string, Toml>, defaults: Config) {
    config.Keys == defaults.Keys &&
    forall p :: p in config ==> config[p] == if Leaf(root, p).Some? then Leaf(root, p).value else defaults[p]
  }

  /** After the merge a replaced field holds what the file sets it to, else the legacy value,
      else its default. */
  lemma MergePrecedence(root: map<string, Toml>, defaults: Config, config: Config, i: nat)
    requires ParsedFrom(config, root, defaults) && i < |AllRules()| && AllRules()[i].dest in defaults
    ensures var rule := AllRules()[i];
      var after := Moved(root, AllRules(), config);
      rule.dest in after && after[rule.dest] ==
        if Leaf(root, rule.dest).Some? then Leaf(root, rule.dest).value
        else if Leaf(root, rule.source).Some? then Leaf(root, rule.source).value
        else defaults[rule.dest]
  {
    hide Leaf, AllRules, Moved;
    NothingCollides();
    MovedIs(root, AllRules(), config);
    var rule := AllRules()[i];
    if !Moves(root, rule) {
      assert forall j :: 0 <= j < |AllRules()| && AllRules()[j].dest == rule.dest ==> j == i;
    }
  }

  /** Every other field keeps its value, and no field appears that the parse did not make. */
  lemma MergeFrame(root: map<string, Toml>, config: Config, p: Path)
    requires forall i :: 0 <= i < |AllRules()| ==> AllRules()[i].dest != p
    ensures var after := Moved(root, AllRules(), config);
      (p in after <==> p in config) && (p in config ==> after[p] == config[p])
  {
    hide Leaf, AllRules, Moved;
    NothingCollides();
    MovedIs(root, AllRules(), config);
  }

  /** A file without the legacy sections, such as one written after a merge, moves nothing. */
  lemma {:induction false} NothingMoves(root: map<string, Toml>, rules: seq<Rule>, config: Config)
    requires forall i :: 0 <= i < |rules| ==> rules[i].source != [] && rules[i].source[0] !in root
    ensures Moved(root, rules, config) == config && MovesFit(root, rules)
  {
    if rules != [] {
      NothingMoves(root, rules[..|rules| - 1], config);
    }
  }

  // ----- the merge itself -----

  lemma {:induction false} ProviderSources(names: seq<string>)
    ensures forall i :: 0 <= i < |ProviderRules(names)| ==>
      var source := ProviderRules(names)[i].source; source != [] && source[0] == "ai"
  {
    hide ProviderLeaves;
    if names != [] { ProviderSources(names[..|names| - 1]); }
  }

  lemma WithoutAi(root: map<string, Toml>, config: Config)
    requires "ai" !in root
    ensures Moved(root, AiRules(), config) == config && MovesFit(root, ProviderRules(PROVIDERS))
  {
    hide Moved, Leaf, ProviderRules, MovesFit, LLM, ANALYSIS, ASSISTANT, PERMISSIONS, PROVIDERS;
    ProviderSources(PROVIDERS);
    NothingMoves(root, ProviderRules(PROVIDERS), config);
    NothingMoves(root, AiRules(), config);
  }

  lemma WithoutAgents(root: map<string, Toml>, config: Config)
    requires "agents" !in root
    ensures Moved(root, AgentRules(), config) == config
  {
    NothingMoves(root, AgentRules(), config);
  }

  /** When does the merge go through? Both legacy sections must decode, even in fields that
      will not move; a provider's value is looked at only if it moves. */
  predicate Succeeds(root: map<string, Toml>) {
    Decodes(root, "ai", LlmRules() + LaterRules()) && Decodes(root, "agents", AgentRules()) &&
    MovesFit(root, ProviderRules(PROVIDERS))
  }

  datatype Error = Malformed(section: string) | WrongType(provider: string)

  /** The configuration under construction. */
  class ConfigCell {
    var leaves: Config

    /** Fill the fields of the rules in order, stopping at a value of the wrong type. */
    method Fill(root: map<string, Toml>, rules: seq<Rule>) returns (ok: bool)
      modifies this
      ensures ok <==> MovesFit(root, rules)
      ensures ok ==> leaves == Moved(root, rules, old(leaves))
      ensures !ok ==> exists k ::
        0 <= k < |rules| && Moves(root, rules[k]) && !Fits(rules[k].kind, Leaf(root, rules[k].source).value) &&
        MovesFit(root, rules[..k]) && leaves == Moved(root, rules[..k], old(leaves))
    {
      hide Leaf, Fits;
      var k := 0;
      while k < |rules|
        invariant k <= |rules| && MovesFit(root, rules[..k]) && leaves == Moved(root, rules[..k], old(leaves))
      {
        assert rules[..k + 1][..k] == rules[..k];
        if Moves(root, rules[k]) {
          if !Fits(rules[k].kind, Leaf(root, rules[k].source).value) { return false; }
          leaves := leaves[rules[k].dest := Leaf(root, rules[k].source).value];
        }
        k := k + 1;
      }
      assert rules[..k] == rules;
      return true;
    }

    /** Every leaf of every provider on its own. */
    method FillProviders(root: map<string, Toml>) returns (ok: bool, failed: string)
      modifies this
      ensures ok <==> MovesFit(root, ProviderRules(PROVIDERS))
      ensures ok ==> leaves == Moved(root, ProviderRules(PROVIDERS), old(leaves))
    {
      hide Leaf, Fits, Moved, ProviderLeaves, LeafRules, API_KEYED;
      ghost var config := leaves;
      ProvidersSoFar(root, 0, config);
      failed := "";
      var n := 0;
      while n < |PROVIDERS|
        invariant n <= |PROVIDERS| && MovesFit(root, ProviderRules(PROVIDERS[..n]))
        invariant leaves == Moved(root, ProviderRules(PROVIDERS[..n]), config)
      {
        ProvidersSoFar(root, n, config);
        var done := Fill(root, LeafRules(PROVIDERS[n], ProviderLeaves(PROVIDERS[n])));
        if !done {
          return false, PROVIDERS[n];
        }
        n := n + 1;
      }
      assert PROVIDERS[..n] == PROVIDERS;
      return true, "";
    }

    method MigrateLegacySections(root: map<string, Toml>) returns (r: Result<bool, Error>)
      modifies this
      ensures r.Ok? <==> Succeeds(root)
      ensures r == Ok(false) <==> "ai" !in root && "agents" !in root
      ensures r.Ok? ==> leaves == Moved(root, AllRules(), old(leaves))
    {
      hide Leaf, Fits, Moved, MovesFit, ProviderRules, LLM, ANALYSIS, ASSISTANT, PERMISSIONS, PROVIDERS;
      ghost var config := leaves;
      MovedConcat(root, AiRules(), AgentRules(), config);
      MovedConcat(root, LlmRules() + ProviderRules(PROVIDERS), LaterRules(), config);
      MovedConcat(root, LlmRules(), ProviderRules(PROVIDERS), config);
      if "ai" !in root { WithoutAi(root, config); }
      if "agents" !in root { WithoutAgents(root, Moved(root, AiRules(), config)); }
      if "ai" !in root && "agents" !in root { return Ok(false); }
      if "ai" in root {
        if !Decodes(root, "ai", LlmRules() + LaterRules()) { return Err(Malformed("ai")); }
        DecodedFits(root, "ai", LlmRules() + LaterRules());
        FitsParts(root, LlmRules(), LaterRules());
        var ok := Fill(root, LlmRules());
        var failed;
        ok, failed := FillProviders(root);
        if !ok { return Err(WrongType(failed)); }
        ok := Fill(root, LaterRules());
      }
      if "agents" in root {
        if !Decodes(root, "agents", AgentRules()) { return Err(Malformed("agents")); }
        DecodedFits(root, "agents", AgentRules());
        var ok := Fill(root, AgentRules());
      }
      return Ok(true);
    }
  }

  lemma ProvidersSoFar(root: map<string, Toml>, n: nat, config: Config)
    requires n <= |PROVIDERS|
    ensures n == 0 ==> ProviderRules(PROVIDERS[..n]) == [] && Moved(root, [], config) == config
    ensures n < |PROVIDERS| ==>
      var before := ProviderRules(PROVIDERS[..n]);
      var rules := LeafRules(PROVIDERS[n], ProviderLeaves(PROVIDERS[n]));
      && ProviderRules(PROVIDERS[..n + 1]) == before + rules
      && Moved(root, before + rules, config) == Moved(root, rules, Moved(root, before, config))
      && (MovesFit(root, before + rules) <==> MovesFit(root, before) && MovesFit(root, rules))
      && (MovesFit(root, ProviderRules(PROVIDERS)) ==> MovesFit(root, before + rules))
  {
    hide PROVIDERS, LeafRules, ProviderLeaves;
    if n < |PROVIDERS| {
      assert PROVIDERS[..n + 1][..n] == PROVIDERS[..n];
      var before := ProviderRules(PROVIDERS[..n]);
      var rules := LeafRules(PROVIDERS[n], ProviderLeaves(PROVIDERS[n]));
      MovedConcat(root, before, rules, config);
      FitsParts(root, before, rules);
      PrefixOfProviders(PROVIDERS, n + 1);
    }
  }

  lemma {:induction false} PrefixOfProviders(names: seq<string>, n: nat)
    requires n <= |names|
    ensures ProviderRules(names[..n]) <= ProviderRules(names)
  {
    hide LeafRules, ProviderLeaves;
    if n < |names| {
      PrefixOfProviders(names[..|names| - 1], n);
      assert names[..|names| - 1][..n] == names[..n];
    } else {
      assert names[..n] == names;
    }
  }

  lemma FitsParts(root: map<string, Toml>, a: seq<Rule>, b: seq<Rule>)
    ensures MovesFit(root, a + b) <==> MovesFit(root, a) && MovesFit(root, b)
  {
    hide Leaf, Fits;
    var all := a + b;
    assert forall i :: 0 <= i < |b| ==> all[|a| + i] == b[i];
    assert forall i :: 0 <= i < |a| ==> all[i] == a[i];
  }

  lemma DecodedFits(root: map<string, Toml>, section: string, rules: seq<Rule>)
    requires section in root && Decodes(root, section, rules)
    ensures MovesFit(root, rules)
  {
  }
}

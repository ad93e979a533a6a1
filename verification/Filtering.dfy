/** One filtering run: the decision for a token, the loop that sorts the tokens into passed and
    rejected, and the decision histories of the snapshot. */
module Filtering {
  import opened Results
  import opened Text

  datatype DataSource = DexScreener | GeckoTerminal | Rugcheck | Unknown

  /** Why a token is rejected; the evaluators' own reasons are named by text. */
  datatype Rejection =
    | DexScreenerDataMissing
    | GeckoTerminalDataMissing
    | RugcheckDataMissing
    | Failed(reason: string)

  /** What each evaluator answers for a token: nothing if it accepts. */
  datatype Answers = Answers(
    meta: Option<string>, onchain: Option<string>, dexscreener: Option<string>, geckoterminal: Option<string>,
    rugcheck: Option<string>, llm: Option<string>)

  datatype Token = Token(mint: string, symbol: string, dataSource: DataSource, hasRugData: bool, answers: Answers)

  datatype Config = Config(dexscreener: bool, geckoterminal: bool, rugcheck: bool)

  // ----- the decision for one token -----

  function Fail(answer: Option<string>): Option<Rejection> {
    if answer.Some? then Some(Failed(answer.value)) else None
  }

  /** The filter pipeline, stage by stage, as it runs. */
  method ApplyAllFilters(token: Token, config: Config) returns (r: Option<Rejection>)
    ensures r == Verdict(token, config)
  {
    ghost var stages := Stages(token, config);
    FirstOfFive(stages);
    hide FirstFailure;
    if token.answers.meta.Some? { return Fail(token.answers.meta); }
    if token.answers.onchain.Some? { return Fail(token.answers.onchain); }
    var marketDataSeen := false;
    if config.dexscreener && token.dataSource == DexScreener {
      if token.answers.dexscreener.Some? { return Fail(token.answers.dexscreener); }
      marketDataSeen := true;
    }
    if config.geckoterminal && token.dataSource == GeckoTerminal {
      if token.answers.geckoterminal.Some? { return Fail(token.answers.geckoterminal); }
      marketDataSeen := true;
    }
    if !marketDataSeen {
      if config.dexscreener { return Some(DexScreenerDataMissing); }
      if config.geckoterminal { return Some(GeckoTerminalDataMissing); }
    }
    if config.rugcheck {
      if !token.hasRugData { return Some(RugcheckDataMissing); }
      if token.answers.rugcheck.Some? { return Fail(token.answers.rugcheck); }
    }
    return Fail(token.answers.llm);
  }

  /** Does an enabled market source cover the token? */
  predicate Covered(token: Token, config: Config) {
    (config.dexscreener && token.dataSource == DexScreener) || (config.geckoterminal && token.dataSource == GeckoTerminal)
  }

  /** What the one market source that matters says of the token. */
  function MarketVerdict(token: Token, config: Config): Option<Rejection> {
    if Covered(token, config) then
      Fail(if token.dataSource == DexScreener then token.answers.dexscreener else token.answers.geckoterminal)
    else if config.dexscreener then Some(DexScreenerDataMissing)
    else if config.geckoterminal then Some(GeckoTerminalDataMissing)
    else None
  }

  function RugVerdict(token: Token, config: Config): Option<Rejection> {
    if !config.rugcheck then None
    else if !token.hasRugData then Some(RugcheckDataMissing)
    else Fail(token.answers.rugcheck)
  }

  /** The five stages in order. */
  function Stages(token: Token, config: Config): seq<Option<Rejection>> {
    [Fail(token.answers.meta), Fail(token.answers.onchain), MarketVerdict(token, config),
     RugVerdict(token, config), Fail(token.answers.llm)]
  }

  /** The first failure of a list of stages. */
  function FirstFailure(stages: seq<Option<Rejection>>): (r: Option<Rejection>)
    ensures r == None <==> forall i :: 0 <= i < |stages| ==> stages[i] == None
    ensures r.Some? ==>
      exists i :: 0 <= i < |stages| && stages[i] == r && forall j :: 0 <= j < i ==> stages[j] == None
  {
    if stages == [] then None
    else if stages[0].Some? then stages[0]
    else
      var r := FirstFailure(stages[1..]);
      assert r.Some? ==> exists i :: 0 <= i < |stages| - 1 && stages[1..][i] == stages[i + 1] == r;
      r
  }

  function Verdict(token: Token, config: Config): Option<Rejection> {
    FirstFailure(Stages(token, config))
  }

  lemma FirstOfFive(stages: seq<Option<Rejection>>)
    requires |stages| == 5
    ensures FirstFailure(stages) ==
      if stages[0].Some? then stages[0] else if stages[1].Some? then stages[1] else if stages[2].Some? then stages[2]
      else if stages[3].Some? then stages[3] else stages[4]
  {
  }

  /** A token passes exactly if every evaluator that applies to it accepts it and, when any
      market source is enabled, an enabled one covers it. */
  lemma PassesIff(token: Token, config: Config)
    ensures var a := token.answers;
      Verdict(token, config) == None <==>
        && a.meta == None && a.onchain == None && a.llm == None
        && (config.dexscreener && token.dataSource == DexScreener ==> a.dexscreener == None)
        && (config.geckoterminal && token.dataSource == GeckoTerminal ==> a.geckoterminal == None)
        && (config.dexscreener || config.geckoterminal ==> Covered(token, config))
        && (config.rugcheck ==> token.hasRugData && a.rugcheck == None)
  {
    FirstOfFive(Stages(token, config));
    hide FirstFailure;
  }

  /** Exactly when a token is rejected for lack of data, and for which source. */
  lemma MissingDataIff(token: Token, config: Config)
    ensures var v := Verdict(token, config);
      var reached := token.answers.meta == None && token.answers.onchain == None;
      && (v == Some(DexScreenerDataMissing) <==> reached && !Covered(token, config) && config.dexscreener)
      && (v == Some(GeckoTerminalDataMissing) <==>
            reached && !Covered(token, config) && !config.dexscreener && config.geckoterminal)
      && (v == Some(RugcheckDataMissing) <==>
            reached && MarketVerdict(token, config) == None && config.rugcheck && !token.hasRugData)
  {
    FirstOfFive(Stages(token, config));
    hide FirstFailure;
  }

  // ----- counting rejections -----

  function SumOf(keys: seq<Rejection>, counts: map<Rejection, nat>): nat
    requires forall k :: k in keys ==> k in counts
  {
    if keys == [] then 0 else counts[keys[0]] + SumOf(keys[1..], counts)
  }

  /** Each reason is counted as often as it was recorded. */
  ghost predicate Counts(counts: map<Rejection, nat>, reasons: seq<Rejection>) {
    (forall r :: r in counts <==> r in reasons) &&
    forall r :: r in counts ==> counts[r] == multiset(reasons)[r]
  }

  predicate Distinct<T(==)>(keys: seq<T>) {
    forall i, j :: 0 <= i < j < |keys| ==> keys[i] != keys[j]
  }

  /** Listed in any order, the counts of all reasons add up to the number of rejections. */
  lemma {:induction false} CountsAddUp(keys: seq<Rejection>, counts: map<Rejection, nat>, reasons: seq<Rejection>)
    requires Counts(counts, reasons) && Distinct(keys) && forall r :: r in keys <==> r in counts
    ensures SumOf(keys, counts) == |reasons|
    decreases |keys|
  {
    if keys == [] {
      NonEmptyHas(reasons);
    } else {
      var k := keys[0];
      var others := Without(reasons, k);
      var fewer := counts - {k};
      WithoutCounts(reasons, k);
      assert forall r :: r in keys[1..] <==> r in fewer by {
        assert keys == [k] + keys[1..];
      }
      CountsAddUp(keys[1..], fewer, others);
      SumIgnores(keys[1..], counts, fewer);
    }
  }

  lemma NonEmptyHas(reasons: seq<Rejection>)
    ensures reasons != [] ==> exists r :: r in reasons
  {
    if reasons != [] { assert reasons[0] in reasons; }
  }

  function Without(reasons: seq<Rejection>, k: Rejection): seq<Rejection> {
    if reasons == [] then []
    else if reasons[0] == k then Without(reasons[1..], k)
    else [reasons[0]] + Without(reasons[1..], k)
  }

  lemma {:induction false} WithoutCounts(reasons: seq<Rejection>, k: Rejection)
    ensures |Without(reasons, k)| + multiset(reasons)[k] == |reasons|
    ensures forall r :: r != k ==> multiset(Without(reasons, k))[r] == multiset(reasons)[r]
    ensures k !in Without(reasons, k) && forall r :: r != k ==> (r in Without(reasons, k) <==> r in reasons)
  {
    if reasons != [] {
      WithoutCounts(reasons[1..], k);
      assert reasons == [reasons[0]] + reasons[1..];
    }
  }

  lemma {:induction false} SumIgnores(keys: seq<Rejection>, counts: map<Rejection, nat>, fewer: map<Rejection, nat>)
    requires forall k :: k in keys ==> k in fewer && k in counts && fewer[k] == counts[k]
    ensures SumOf(keys, counts) == SumOf(keys, fewer)
  {
    if keys != [] { SumIgnores(keys[1..], counts, fewer); }
  }

  /** The counters of a run; `reasons` is every rejection recorded so far. */
  class FilteringStats {
    var totalProcessed: nat
    var passed: nat
    var rejected: nat
    var rejectionCounts: map<Rejection, nat>
    ghost var reasons: seq<Rejection>

    ghost predicate Valid() reads this {
      totalProcessed == passed + rejected && rejected == |reasons| && Counts(rejectionCounts, reasons)
    }

    constructor ()
      ensures Valid() && totalProcessed == 0 && reasons == []
    {
      totalProcessed, passed, rejected, rejectionCounts, reasons := 0, 0, 0, map[], [];
    }

    method RecordPass()
      requires Valid()
      modifies this
      ensures Valid() && passed == old(passed) + 1 && reasons == old(reasons)
    {
      totalProcessed, passed := totalProcessed + 1, passed + 1;
    }

    method RecordRejection(reason: Rejection)
      requires Valid()
      modifies this
      ensures Valid() && passed == old(passed) && reasons == old(reasons) + [reason]
    {
      totalProcessed, rejected := totalProcessed + 1, rejected + 1;
      if reason in rejectionCounts {
        rejectionCounts := rejectionCounts[reason := rejectionCounts[reason] + 1];
      } else {
        rejectionCounts := rejectionCounts[reason := 1];
      }
      reasons := reasons + [reason];
    }
  }

  // ----- the run -----

  datatype Decision = Decision(mint: string, symbol: string, reason: Option<Rejection>, time: int)

  /** What a run collects and publishes. */
  datatype Snapshot = Snapshot(
    filteredMints: seq<string>, rejectedMints: seq<string>, passed: seq<Decision>, rejected: seq<Decision>,
    entries: map<string, Token>)

  /** The tokens of a load by mint; of several with one mint the last stays. */
  function Kept(tokens: seq<Token>): map<string, Token> {
    if tokens == [] then map[]
    else
      var last := tokens[|tokens| - 1];
      Kept(tokens[..|tokens| - 1])[last.mint := last]
  }

  /** The order in which a run goes through its tokens: each once. */
  ghost predicate Enumerates(order: seq<string>, tokens: map<string, Token>) {
    Distinct(order) && forall mint :: mint in order <==> mint in tokens
  }

  function DecisionFor(token: Token, mint: string, verdict: Option<Rejection>, times: map<string, int>, now: string -> int): Decision {
    Decision(mint, token.symbol, verdict, if mint in times then times[mint] else now(mint))
  }

  /** The decisions on the mints of `order` that pass, or those on the ones that do not. */
  function Decisions(order: seq<string>, tokens: map<string, Token>, config: Config, times: map<string, int>,
                     now: string -> int, passing: bool): seq<Decision>
    requires forall mint :: mint in order ==> mint in tokens
  {
    if order == [] then []
    else
      var earlier := Decisions(order[..|order| - 1], tokens, config, times, now, passing);
      var mint := order[|order| - 1];
      var verdict := Verdict(tokens[mint], config);
      if verdict.None? == passing
      then earlier + [DecisionFor(tokens[mint], mint, verdict, times, now)]
      else earlier
  }

  function Mints(decisions: seq<Decision>): (r: seq<string>)
    ensures |r| == |decisions|
  {
    seq(|decisions|, i requires 0 <= i < |decisions| => decisions[i].mint)
  }

  function Reasons(decisions: seq<Decision>): (r: seq<Rejection>)
    requires forall d :: d in decisions ==> d.reason.Some?
    ensures |r| == |decisions|
  {
    seq(|decisions|, i requires 0 <= i < |decisions| => decisions[i].reason.value)
  }

  predicate IsDecisionOf(d: Decision, tokens: map<string, Token>, config: Config, times: map<string, int>, now: string -> int) {
    d.mint in tokens && d.reason == Verdict(tokens[d.mint], config) && d.symbol == tokens[d.mint].symbol &&
    d.time == if d.mint in times then times[d.mint] else now(d.mint)
  }

  predicate OnePerMint(ds: seq<Decision>) {
    forall i, j :: 0 <= i < j < |ds| ==> ds[i].mint != ds[j].mint
  }

  lemma OneMore(earlier: seq<Decision>, d: Decision)
    ensures Mints(earlier + [d]) == Mints(earlier) + [d.mint]
    ensures OnePerMint(earlier) && d.mint !in Mints(earlier) ==> OnePerMint(earlier + [d])
  {
    var ds := earlier + [d];
    if OnePerMint(earlier) && d.mint !in Mints(earlier) {
      forall i, j | 0 <= i < j < |ds| ensures ds[i].mint != ds[j].mint {
        if j == |earlier| { assert ds[i].mint == Mints(earlier)[i]; }
      }
    }
  }

  /** A decision list holds one decision for each mint that passes (or does not), with the
      verdict on its token and the time of the earlier decision when there is one. */
  lemma {:induction false} DecisionsAre(order: seq<string>, tokens: map<string, Token>, config: Config,
                                        times: map<string, int>, now: string -> int, passing: bool)
    requires Distinct(order) && forall mint :: mint in order ==> mint in tokens
    ensures var ds := Decisions(order, tokens, config, times, now, passing);
      && OnePerMint(ds)
      && (forall mint :: mint in Mints(ds) <==> mint in order && (Verdict(tokens[mint], config) == None) == passing)
      && (forall d :: d in ds ==> IsDecisionOf(d, tokens, config, times, now))
  {
    if order != [] {
      var shorter := order[..|order| - 1];
      var mint := order[|order| - 1];
      assert order == shorter + [mint];
      DecisionsAre(shorter, tokens, config, times, now, passing);
      var earlier := Decisions(shorter, tokens, config, times, now, passing);
      var ds := Decisions(order, tokens, config, times, now, passing);
      assert mint !in shorter;
      hide OnePerMint, Mints;
      OneMore(earlier, DecisionFor(tokens[mint], mint, Verdict(tokens[mint], config), times, now));
    } else {
      assert Mints([]) == [];
    }
  }

  /** Passed and rejected mints partition the loaded ones, each appearing once. */
  lemma {:induction false} RunPartitions(order: seq<string>, tokens: map<string, Token>, config: Config,
                        passTimes: map<string, int>, rejectTimes: map<string, int>, now: string -> int)
    requires Enumerates(order, tokens)
    ensures var passed := Mints(Decisions(order, tokens, config, passTimes, now, true));
      var rejected := Mints(Decisions(order, tokens, config, rejectTimes, now, false));
      && Distinct(passed) && Distinct(rejected)
      && (forall mint :: mint in tokens <==> mint in passed || mint in rejected)
      && (forall mint :: !(mint in passed && mint in rejected))
      && (forall mint :: mint in passed ==> Verdict(tokens[mint], config) == None)
      && (forall mint :: mint in rejected ==> Verdict(tokens[mint], config) != None)
  {
    hide Verdict, IsDecisionOf, Decisions;
    DecisionsAre(order, tokens, config, passTimes, now, true);
    DecisionsAre(order, tokens, config, rejectTimes, now, false);
  }

  /** One turn of the loop. */
  lemma DecisionsStep(order: seq<string>, i: nat, tokens: map<string, Token>, config: Config, times: map<string, int>,
                      now: string -> int, passing: bool)
    requires i < |order| && forall mint :: mint in order ==> mint in tokens
    ensures var verdict := Verdict(tokens[order[i]], config);
      var earlier := Decisions(order[..i], tokens, config, times, now, passing);
      var ds := Decisions(order[..i + 1], tokens, config, times, now, passing);
      && ds == (if verdict.None? == passing then earlier + [DecisionFor(tokens[order[i]], order[i], verdict, times, now)]
                else earlier)
      && Mints(ds) == (if verdict.None? == passing then Mints(earlier) + [order[i]] else Mints(earlier))
  {
    hide Verdict;
    assert order[..i + 1][..i] == order[..i];
  }

  /** The reasons recorded are those of the rejections listed, in order. */
  predicate Recorded(reasons: seq<Rejection>, decisions: seq<Decision>) {
    |reasons| == |decisions| && forall i :: 0 <= i < |reasons| ==> decisions[i].reason == Some(reasons[i])
  }

  lemma RecordedOneMore(reasons: seq<Rejection>, decisions: seq<Decision>, d: Decision)
    requires d.reason.Some? && Recorded(reasons, decisions)
    ensures Recorded(reasons + [d.reason.value], decisions + [d])
  {
  }

  lemma RecordedAre(reasons: seq<Rejection>, decisions: seq<Decision>)
    requires Recorded(reasons, decisions)
    ensures (forall d :: d in decisions ==> d.reason.Some?) && Reasons(decisions) == reasons
  {
  }

  lemma StartsEmpty(order: seq<string>, tokens: map<string, Token>, config: Config,
                    passTimes: map<string, int>, rejectTimes: map<string, int>, now: string -> int)
    ensures Decisions([], tokens, config, passTimes, now, true) == [] && Decisions([], tokens, config, rejectTimes, now, false) == []
    ensures Covers(map[], [], tokens)
    ensures Mints([]) == [] && Recorded([], []) && order[..0] == [] && order[..|order|] == order
  {
  }

  /** The tokens of these mints and no others. */
  ghost predicate Covers(entries: map<string, Token>, mints: seq<string>, tokens: map<string, Token>) {
    (forall mint :: mint in entries <==> mint in mints) &&
    forall mint :: mint in entries ==> mint in tokens && entries[mint] == tokens[mint]
  }

  lemma CoversOneMore(entries: map<string, Token>, mints: seq<string>, tokens: map<string, Token>, mint: string)
    requires Covers(entries, mints, tokens) && mint in tokens
    ensures Covers(entries[mint := tokens[mint]], mints + [mint], tokens)
  {
  }

  lemma CoversAll(entries: map<string, Token>, order: seq<string>, tokens: map<string, Token>)
    requires Covers(entries, order, tokens) && Enumerates(order, tokens)
    ensures entries == tokens
  {
  }

  /** The classification loop. */
  method Classify(tokens: map<string, Token>, order: seq<string>, config: Config, passTimes: map<string, int>,
                  rejectTimes: map<string, int>, now: string -> int) returns (o: Snapshot, stats: FilteringStats)
    requires Enumerates(order, tokens)
    ensures o.passed == Decisions(order, tokens, config, passTimes, now, true) && o.filteredMints == Mints(o.passed)
    ensures o.rejected == Decisions(order, tokens, config, rejectTimes, now, false) && o.rejectedMints == Mints(o.rejected)
    ensures o.entries == tokens
    ensures fresh(stats) && stats.Valid()
    ensures stats.totalProcessed == |order| && stats.passed == |o.passed| && stats.rejected == |o.rejected|
    ensures (forall d :: d in o.rejected ==> d.reason.Some?) && Counts(stats.rejectionCounts, Reasons(o.rejected))
  {
    hide Verdict, Decisions, Mints, Reasons, Counts, Distinct, Covers, Recorded;
    StartsEmpty(order, tokens, config, passTimes, rejectTimes, now);
    stats := new FilteringStats();
    var filteredMints: seq<string>, rejectedMints: seq<string> := [], [];
    var passed: seq<Decision>, rejected: seq<Decision> := [], [];
    var entries: map<string, Token> := map[];
    var i := 0;
    while i < |order|
      invariant i <= |order| && fresh(stats) && stats.Valid()
      invariant passed == Decisions(order[..i], tokens, config, passTimes, now, true)
      invariant rejected == Decisions(order[..i], tokens, config, rejectTimes, now, false)
      invariant filteredMints == Mints(passed) && rejectedMints == Mints(rejected)
      invariant Covers(entries, order[..i], tokens)
      invariant stats.totalProcessed == i && stats.passed == |passed|
      invariant Recorded(stats.reasons, rejected)
    {
      var mint := order[i];
      DecisionsStep(order, i, tokens, config, passTimes, now, true);
      DecisionsStep(order, i, tokens, config, rejectTimes, now, false);
      assert order[..i + 1] == order[..i] + [mint];
      var token := tokens[mint];
      CoversOneMore(entries, order[..i], tokens, mint);
      entries := entries[mint := token];
      var verdict := ApplyAllFilters(token, config);
      if verdict.None? {
        filteredMints := filteredMints + [mint];
        stats.RecordPass();
        passed := passed + [DecisionFor(token, mint, verdict, passTimes, now)];
      } else {
        RecordedOneMore(stats.reasons, rejected, DecisionFor(token, mint, verdict, rejectTimes, now));
        stats.RecordRejection(verdict.value);
        rejectedMints := rejectedMints + [mint];
        rejected := rejected + [DecisionFor(token, mint, verdict, rejectTimes, now)];
      }
      i := i + 1;
    }
    CoversAll(entries, order, tokens);
    RecordedAre(stats.reasons, rejected);
    o := Snapshot(filteredMints, rejectedMints, passed, rejected, entries);
  }

  // ----- the decision histories -----

  const MAX_DECISION_HISTORY: nat := 1000

  /** May `a` stand before `b`: later first, and by mint among equals. */
  predicate Ranks(a: Decision, b: Decision) {
    a.time > b.time || (a.time == b.time && !Less(b.mint, a.mint))
  }

  ghost predicate Ordered(ds: seq<Decision>) {
    forall i, j :: 0 <= i < j < |ds| ==> Ranks(ds[i], ds[j])
  }

  function Insert(d: Decision, ds: seq<Decision>): seq<Decision> {
    if ds == [] || Ranks(d, ds[0]) then [d] + ds else [ds[0]] + Insert(d, ds[1..])
  }

  function Ranked(ds: seq<Decision>): seq<Decision> {
    if ds == [] then [] else Insert(ds[0], Ranked(ds[1..]))
  }

  /** The kept part of a ranking. */
  function History(ds: seq<Decision>): seq<Decision> {
    var ranked := Ranked(ds);
    if |ranked| > MAX_DECISION_HISTORY then ranked[..MAX_DECISION_HISTORY] else ranked
  }

  lemma RanksTotal(a: Decision, b: Decision)
    ensures Ranks(a, b) || Ranks(b, a)
    ensures Ranks(a, b) && Ranks(b, a) ==> a.mint == b.mint
  {
    LessTotal(a.mint, b.mint);
    if Less(a.mint, b.mint) && Less(b.mint, a.mint) {
      LessTransitive(a.mint, b.mint, a.mint);
      LessIrreflexive(a.mint);
    }
  }

  lemma RanksTransitive(a: Decision, b: Decision, c: Decision)
    requires Ranks(a, b) && Ranks(b, c)
    ensures Ranks(a, c)
  {
    if a.time == c.time && Less(c.mint, a.mint) {
      LessTotal(a.mint, b.mint);
      if Less(a.mint, b.mint) { LessTransitive(c.mint, a.mint, b.mint); }
    }
  }

  lemma {:induction false} InsertKeeps(d: Decision, ds: seq<Decision>)
    requires Ordered(ds)
    ensures Ordered(Insert(d, ds)) && multiset(Insert(d, ds)) == multiset(ds) + multiset{d}
  {
    hide Ranks;
    if ds != [] {
      RanksTotal(d, ds[0]);
      assert ds == [ds[0]] + ds[1..];
      if Ranks(d, ds[0]) {
        forall j | 0 <= j < |ds| ensures Ranks(d, ds[j]) {
          if j > 0 { RanksTransitive(d, ds[0], ds[j]); }
        }
      } else {
        var rest := Insert(d, ds[1..]);
        InsertKeeps(d, ds[1..]);
        forall j | 0 <= j < |rest| ensures Ranks(ds[0], rest[j]) {
          assert rest[j] in multiset(rest);
          assert rest[j] == d || rest[j] in ds[1..];
        }
      }
    }
  }

  lemma {:induction false} RankedIs(ds: seq<Decision>)
    ensures Ordered(Ranked(ds)) && multiset(Ranked(ds)) == multiset(ds) && |Ranked(ds)| == |ds|
  {
    if ds != [] {
      RankedIs(ds[1..]);
      InsertKeeps(ds[0], Ranked(ds[1..]));
      assert ds == [ds[0]] + ds[1..];
    }
    assert |multiset(Ranked(ds))| == |multiset(ds)|;
  }

  /** With one decision per mint the order leaves no choice: any sorting gives this ranking. */
  lemma {:induction false} RankingIsUnique(a: seq<Decision>, b: seq<Decision>)
    requires Ordered(a) && Ordered(b) && multiset(a) == multiset(b) && OnePerMint(a)
    ensures a == b
    decreases |a|
  {
    hide Ordered, OnePerMint;
    assert |multiset(a)| == |a| && |multiset(b)| == |b|;
    if a != [] {
      FirstIsUnique(a, b);
      TailOf(a);
      TailOf(b);
      RankingIsUnique(a[1..], b[1..]);
    }
  }

  lemma TailOf(ds: seq<Decision>)
    requires ds != []
    ensures ds == [ds[0]] + ds[1..] && multiset(ds[1..]) == multiset(ds) - multiset{ds[0]}
    ensures Ordered(ds) ==> Ordered(ds[1..])
    ensures OnePerMint(ds) ==> OnePerMint(ds[1..])
  {
    hide Ranks;
    assert ds == [ds[0]] + ds[1..];
  }

  lemma SameMintSamePlace(ds: seq<Decision>, i: nat, j: nat)
    requires OnePerMint(ds) && i < |ds| && j < |ds|
    ensures ds[i].mint == ds[j].mint ==> i == j
  {
  }

  lemma FirstIsUnique(a: seq<Decision>, b: seq<Decision>)
    requires Ordered(a) && Ordered(b) && multiset(a) == multiset(b) && OnePerMint(a) && a != [] && b != []
    ensures a[0] == b[0]
  {
    hide Ranks;
    assert a[0] in multiset(b) && b[0] in multiset(a);
    var i :| 0 <= i < |b| && b[i] == a[0];
    var j :| 0 <= j < |a| && a[j] == b[0];
    if i > 0 && j > 0 { RanksTotal(a[0], b[0]); }
  }

  /** A history is in order and holds the best 1000 decisions: it and what was dropped make up
      the whole list, and nothing dropped ranks strictly before anything kept. */
  lemma HistoryIsTheBest(ds: seq<Decision>)
    ensures var h := History(ds);
      && Ordered(h) && |h| == (if |ds| <= MAX_DECISION_HISTORY then |ds| else MAX_DECISION_HISTORY)
      && exists dropped: seq<Decision> ::
           multiset(ds) == multiset(h) + multiset(dropped) &&
           forall k, d :: k in h && d in dropped ==> Ranks(k, d)
  {
    hide Ranks;
    RankedIs(ds);
    var ranked := Ranked(ds);
    var h := History(ds);
    var dropped := ranked[|h|..];
    assert ranked == h + dropped;
    forall k, d | k in h && d in dropped ensures Ranks(k, d) {
      var i :| 0 <= i < |h| && h[i] == k;
      var j :| 0 <= j < |dropped| && dropped[j] == d;
      assert ranked[i] == k && ranked[|h| + j] == d;
    }
    assert multiset(ds) == multiset(h) + multiset(dropped);
  }

  /** The times of an earlier history; of several decisions on one mint the last counts. */
  function Times(ds: seq<Decision>): map<string, int> {
    if ds == [] then map[]
    else Times(ds[..|ds| - 1])[ds[|ds| - 1].mint := ds[|ds| - 1].time]
  }

  lemma {:induction false} TimesAre(ds: seq<Decision>)
    ensures forall mint :: mint in Times(ds) <==> mint in Mints(ds)
    ensures OnePerMint(ds) ==> forall d :: d in ds ==> d.mint in Times(ds) && Times(ds)[d.mint] == d.time
  {
    if ds != [] {
      var shorter := ds[..|ds| - 1];
      assert ds == shorter + [ds[|ds| - 1]];
      assert Mints(ds) == Mints(shorter) + [ds[|ds| - 1].mint];
      TimesAre(shorter);
      if OnePerMint(ds) {
        forall d | d in shorter ensures d.mint != ds[|ds| - 1].mint {
          var i :| 0 <= i < |shorter| && shorter[i] == d;
          assert ds[i] == d;
        }
      }
    }
  }

  /** A run, from the loaded tokens and the previous snapshot to the next one. */
  method ComputeSnapshot(tokens: seq<Token>, order: seq<string>, config: Config, previous: Option<Snapshot>,
                         now: string -> int) returns (s: Snapshot, stats: FilteringStats)
    requires Enumerates(order, Kept(tokens))
    ensures var before := if previous.Some? then previous.value else Snapshot([], [], [], [], map[]);
      var passed := Decisions(order, Kept(tokens), config, Times(before.passed), now, true);
      var rejected := Decisions(order, Kept(tokens), config, Times(before.rejected), now, false);
      s == Snapshot(Mints(passed), Mints(rejected), History(passed), History(rejected), Kept(tokens))
    ensures fresh(stats) && stats.Valid() && stats.passed == |s.filteredMints| && stats.rejected == |s.rejectedMints|
  {
    hide Decisions, Mints, Reasons, Counts, Distinct, Enumerates;
    var kept := Kept(tokens);
    var passTimes: map<string, int>, rejectTimes: map<string, int> := map[], map[];
    if previous.Some? {
      passTimes := Times(previous.value.passed);
      rejectTimes := Times(previous.value.rejected);
    } else {
      assert Times([]) == map[];
    }
    var run: Snapshot;
    run, stats := Classify(kept, order, config, passTimes, rejectTimes, now);
    s := run.(passed := History(run.passed), rejected := History(run.rejected));
  }

  /** A token decided the same way as in the previous snapshot keeps the time of that decision
      as long as the history still lists it, and gets a new one otherwise. */
  lemma DecisionKeepsItsTime(order: seq<string>, tokens: map<string, Token>, config: Config, previous: seq<Decision>,
                             now: string -> int, passing: bool, d: Decision)
    requires Distinct(order) && forall mint :: mint in order ==> mint in tokens
    requires OnePerMint(previous)
    requires d in Decisions(order, tokens, config, Times(previous), now, passing)
    ensures forall e :: e in previous && e.mint == d.mint ==> d.time == e.time
    ensures d.mint !in Mints(previous) ==> d.time == now(d.mint)
  {
    hide Verdict;
    TimesAre(previous);
    DecisionsAre(order, tokens, config, Times(previous), now, passing);
  }

  /** The histories of a snapshot again list each mint once, so the next run can rely on it. */
  lemma HistoriesStayDistinct(ds: seq<Decision>)
    requires OnePerMint(ds)
    ensures OnePerMint(History(ds))
  {
    RankedIs(ds);
    var ranked := Ranked(ds);
    forall i, j | 0 <= i < j < |ranked| ensures ranked[i].mint != ranked[j].mint {
      PairsCarryOver(ds, ranked, i, j);
    }
  }

  /** Two entries of a permutation stem from two entries of the list. */
  lemma PairsCarryOver(ds: seq<Decision>, ranked: seq<Decision>, i: nat, j: nat)
    requires multiset(ds) == multiset(ranked) && OnePerMint(ds) && i < j < |ranked|
    ensures ranked[i].mint != ranked[j].mint
  {
    var a, b := ranked[i], ranked[j];
    assert a in multiset(ds) && b in multiset(ds);
    AppearsOnce(ds, a);
    assert ranked == ranked[..i] + [a] + ranked[i + 1..j] + [b] + ranked[j + 1..];
    assert a == b ==> multiset(ranked)[a] >= 2;
    var k :| 0 <= k < |ds| && ds[k] == a;
    var l :| 0 <= l < |ds| && ds[l] == b;
    SameMintSamePlace(ds, k, l);
  }

  lemma {:induction false} AppearsOnce(ds: seq<Decision>, d: Decision)
    requires OnePerMint(ds)
    ensures multiset(ds)[d] <= 1
    decreases |ds|
  {
    if ds != [] {
      var rest := ds[1..];
      assert ds == [ds[0]] + rest;
      assert forall i, j :: 0 <= i < j < |rest| ==> rest[i].mint != rest[j].mint;
      AppearsOnce(rest, d);
      assert forall k :: 0 <= k < |rest| ==> rest[k].mint != ds[0].mint;
    }
  }
}

/** How a filtering run gathers why each token is blacklisted, and makes the tokens' own flags
    agree with it. */
module Blacklist {
  import opened Results

  datatype Reason = Reason(category: string, reason: string, detail: Option<string>)

  datatype TokenRecord = TokenRecord(mint: string, reason: string, source: string)
  datatype PoolRecord = PoolRecord(poolId: string, reason: string, tokenMint: Option<string>, programId: Option<string>)
  datatype AccountRecord = AccountRecord(
    account: string, reason: string, source: Option<string>, poolId: Option<string>, tokenMint: Option<string>)

  /** The three listings; one that could not be loaded counts as empty. */
  datatype Listings = Listings(
    tokens: Option<seq<TokenRecord>>, pools: Option<seq<PoolRecord>>, accounts: Option<seq<AccountRecord>>)

  type Reasons = map<string, seq<Reason>>

  const DATABASE: Reason := Reason("token", "database", None)

  function TokenReason(r: TokenRecord): Reason {
    Reason("token", r.reason, if r.source == "" then None else Some(r.source))
  }

  function PoolReason(r: PoolRecord): Reason {
    Reason("pool", r.reason,
           if r.poolId != "" then Some("pool=" + r.poolId)
           else if r.programId.Some? then Some("program=" + r.programId.value) else None)
  }

  function AccountReason(r: AccountRecord): Reason {
    Reason("account", r.reason,
           if r.source.Some? then Some(r.account + " (" + r.source.value + ")")
           else if r.poolId.Some? then Some("pool=" + r.poolId.value + ", account=" + r.account)
           else Some(r.account))
  }

  /** Do the listings give `mint` this reason? Pool and account records without a mint, or with
      an empty one, concern no token. */
  ghost predicate Listed(l: Listings, mint: string, info: Reason) {
    (l.tokens.Some? && exists r :: r in l.tokens.value && r.mint == mint && TokenReason(r) == info) ||
    (mint != "" &&
      ((l.pools.Some? && exists r :: r in l.pools.value && r.tokenMint == Some(mint) && PoolReason(r) == info) ||
       (l.accounts.Some? && exists r :: r in l.accounts.value && r.tokenMint == Some(mint) && AccountReason(r) == info)))
  }

  /** Each mint that has an entry has at least one reason, and none twice. */
  ghost predicate Tidy(m: Reasons) {
    forall mint :: mint in m ==>
      m[mint] != [] && forall i, j :: 0 <= i < j < |m[mint]| ==> m[mint][i] != m[mint][j]
  }

  predicate Has(m: Reasons, mint: string, info: Reason) {
    mint in m && info in m[mint]
  }

  /** Add a reason unless the mint has it already. */
  function Push(m: Reasons, mint: string, info: Reason): (m': Reasons)
    ensures Has(m', mint, info)
    ensures forall k, i :: Has(m', k, i) <==> Has(m, k, i) || (k == mint && i == info)
    ensures Tidy(m) ==> Tidy(m')
    ensures m'.Keys == m.Keys + {mint}
  {
    var had := if mint in m then m[mint] else [];
    m[mint := if info in had then had else had + [info]]
  }

  /** Gather the reasons of the three listings. */
  method Aggregate(l: Listings) returns (m: Reasons)
    ensures Tidy(m)
    ensures forall mint, info :: Has(m, mint, info) <==> Listed(l, mint, info)
  {
    m := map[];
    if l.tokens.Some? {
      var i := 0;
      while i < |l.tokens.value|
        invariant i <= |l.tokens.value| && Tidy(m)
        invariant forall mint, info :: Has(m, mint, info) <==>
          exists r :: r in l.tokens.value[..i] && r.mint == mint && TokenReason(r) == info
      {
        var r := l.tokens.value[i];
        assert l.tokens.value[..i + 1] == l.tokens.value[..i] + [r];
        m := Push(m, r.mint, TokenReason(r));
        i := i + 1;
      }
      assert l.tokens.value[..i] == l.tokens.value;
    }
    ghost var afterTokens := m;
    if l.pools.Some? {
      var i := 0;
      while i < |l.pools.value|
        invariant i <= |l.pools.value| && Tidy(m)
        invariant forall mint, info :: Has(m, mint, info) <==> (Has(afterTokens, mint, info) ||
          (mint != "" && exists r :: r in l.pools.value[..i] && r.tokenMint == Some(mint) && PoolReason(r) == info))
      {
        var r := l.pools.value[i];
        assert l.pools.value[..i + 1] == l.pools.value[..i] + [r];
        if r.tokenMint.Some? && r.tokenMint.value != "" {
          m := Push(m, r.tokenMint.value, PoolReason(r));
        }
        i := i + 1;
      }
      assert l.pools.value[..i] == l.pools.value;
    }
    ghost var afterPools := m;
    if l.accounts.Some? {
      var i := 0;
      while i < |l.accounts.value|
        invariant i <= |l.accounts.value| && Tidy(m)
        invariant forall mint, info :: Has(m, mint, info) <==> (Has(afterPools, mint, info) ||
          (mint != "" && exists r :: r in l.accounts.value[..i] && r.tokenMint == Some(mint) && AccountReason(r) == info))
      {
        var r := l.accounts.value[i];
        assert l.accounts.value[..i + 1] == l.accounts.value[..i] + [r];
        if r.tokenMint.Some? && r.tokenMint.value != "" {
          m := Push(m, r.tokenMint.value, AccountReason(r));
        }
        i := i + 1;
      }
      assert l.accounts.value[..i] == l.accounts.value;
    }
  }

  // ----- the tokens' own flags -----

  datatype Flag = Flag(mint: string, blacklisted: bool)

  /** No later token of the list has this one's mint; such a token is the one a run keeps. */
  ghost predicate LastOfItsMint(tokens: seq<Flag>, i: nat)
    requires i < |tokens|
  {
    forall j :: i < j < |tokens| ==> tokens[j].mint != tokens[i].mint
  }

  /** Is `mint` flagged by the token store? */
  predicate Flagged(tokens: seq<Flag>, mint: string) {
    Flag(mint, true) in tokens
  }

  /** Make flags and reasons agree: a token with reasons is flagged, and a flagged token
      without any gets the reason that the database flags it. */
  method Normalize(tokens: array<Flag>, reasons: Reasons) returns (m: Reasons)
    requires Tidy(reasons)
    modifies tokens
    ensures Tidy(m)
    ensures forall mint, info :: Has(m, mint, info) <==>
      Has(reasons, mint, info) || (mint !in reasons && info == DATABASE && Flagged(old(tokens[..]), mint))
    ensures forall i :: 0 <= i < tokens.Length ==>
      tokens[i].mint == old(tokens[i].mint) && (old(tokens[i].blacklisted) ==> tokens[i].blacklisted)
    ensures forall i :: 0 <= i < tokens.Length ==>
      (tokens[i].blacklisted ==> tokens[i].mint in m) &&
      (LastOfItsMint(tokens[..], i) ==> (tokens[i].blacklisted <==> tokens[i].mint in m))
  {
    hide Tidy;
    m := reasons;
    var blacklist := reasons.Keys;
    ghost var was := tokens[..];
    var i := 0;
    while i < tokens.Length
      invariant i <= tokens.Length && blacklist == m.Keys && Tidy(m) && reasons.Keys <= m.Keys
      invariant forall j :: i <= j < tokens.Length ==> tokens[j] == was[j]
      invariant forall j :: 0 <= j < i ==> tokens[j].mint == was[j].mint && (was[j].blacklisted ==> tokens[j].blacklisted)
      invariant forall j :: 0 <= j < i && tokens[j].blacklisted ==> tokens[j].mint in m
      invariant forall j :: 0 <= j < i && tokens[j].mint in m ==>
        tokens[j].blacklisted || exists k :: j < k < i && tokens[k].mint == tokens[j].mint
      invariant forall mint, info :: Has(m, mint, info) <==>
        Has(reasons, mint, info) || (mint !in reasons && info == DATABASE && Flagged(was[..i], mint))
    {
      assert was[..i + 1] == was[..i] + [was[i]];
      var token := tokens[i];
      if token.mint in blacklist {
        if !token.blacklisted {
          tokens[i] := token.(blacklisted := true);
        }
        assert token.mint !in reasons ==> Has(m, token.mint, DATABASE) by { HasSome(m, token.mint); }
      } else if token.blacklisted {
        m := Push(m, token.mint, DATABASE);
        blacklist := blacklist + {token.mint};
      }
      i := i + 1;
    }
    assert was[..i] == was;
  }

  lemma HasSome(m: Reasons, mint: string)
    requires Tidy(m) && mint in m
    ensures Has(m, mint, m[mint][0])
  {
  }

  /** A mint has an entry exactly if a listing or the token store gives it a reason. */
  lemma BlacklistedIff(l: Listings, tokens: seq<Flag>, gathered: Reasons, m: Reasons, mint: string)
    requires Tidy(gathered) && Tidy(m)
    requires forall mint, info :: Has(gathered, mint, info) <==> Listed(l, mint, info)
    requires forall mint, info :: Has(m, mint, info) <==>
      Has(gathered, mint, info) || (mint !in gathered && info == DATABASE && Flagged(tokens, mint))
    ensures mint in m <==> (exists info :: Listed(l, mint, info)) || Flagged(tokens, mint)
  {
    if mint in m { HasSome(m, mint); }
    if mint in gathered { HasSome(gathered, mint); assert Has(m, mint, gathered[mint][0]); }
    if Flagged(tokens, mint) && mint !in gathered { assert Has(m, mint, DATABASE); }
    if info :| Listed(l, mint, info) { assert Has(gathered, mint, info); }
  }
}

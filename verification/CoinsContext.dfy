/**
 The registry of activated coins: a map of coins and a map from platform coins to the tokens that
 depend on them, with activation, passive mode and cascading removal.

 Each operation holds the locks of both maps while it runs and is one step. The configuration of
 the wallet fixes the platform of every ticker.
 */
module CoinsContext {
  import opened Wrappers

  type Ticker = string

  datatype Coin = Coin(ticker: Ticker, platform: Ticker) {
    predicate IsPlatform() {
      ticker == platform
    }
  }

  /** A registered coin and its flag for external requests. */
  datatype Entry = Entry(coin: Coin, flag: bool) {
    /** Tokens are always available. */
    predicate IsAvailable() {
      !coin.IsPlatform() || flag
    }

    function UpdateIsAvailable(to: bool): Entry {
      if coin.IsPlatform() then this.(flag := to) else this
    }
  }

  datatype RegisterError = CoinIsInitializedAlready | PlatformIsAlreadyActivated | NoSuchCoin

  datatype State = State(coins: map<Ticker, Entry>, tokens: map<Ticker, set<Ticker>>)

  // ---------------------------------------------------------------------------------------
  // The operations on the two maps
  // ---------------------------------------------------------------------------------------

  function AddToken(s: State, coin: Coin): (State, Result<(), RegisterError>) {
    if coin.ticker in s.coins then (s, Err(CoinIsInitializedAlready))
    else
      var tokens := if coin.platform in s.tokens
                    then s.tokens[coin.platform := s.tokens[coin.platform] + {coin.ticker}] else s.tokens;
      (State(s.coins[coin.ticker := Entry(coin, true)], tokens), Ok(()))
  }

  function TickersOf(coins: seq<Coin>): set<Ticker> {
    set c | c in coins :: c.ticker
  }

  /** Registers the coins that are not registered yet. */
  function InsertMissing(coins: map<Ticker, Entry>, tokens: seq<Coin>): map<Ticker, Entry> {
    if tokens == [] then coins
    else
      var rest := InsertMissing(coins, tokens[..|tokens| - 1]);
      var last := tokens[|tokens| - 1];
      if last.ticker in rest then rest else rest[last.ticker := Entry(last, true)]
  }

  function AddPlatformWithTokens(s: State, platform: Coin, tokens: seq<Coin>, nft: Option<Coin>)
    : (State, Result<(), RegisterError>)
  {
    var p := platform.ticker;
    if p in s.coins && s.coins[p].IsAvailable() then (s, Err(PlatformIsAlreadyActivated))
    else
      var own := if p in s.coins then s.coins[p].UpdateIsAvailable(true) else Entry(platform, true);
      var listed := InsertMissing(s.coins[p := own], tokens);
      var coins := if nft.Some? then listed[nft.value.ticker := Entry(nft.value, true)] else listed;
      var tickers := if nft.Some? then TickersOf(tokens) + {nft.value.ticker} else TickersOf(tokens);
      var known := if p in s.tokens then s.tokens[p] else {};
      (State(coins, s.tokens[p := known + tickers]), Ok(()))
  }

  function GetDependentTokens(s: State, ticker: Ticker): set<Ticker> {
    if ticker in s.tokens then s.tokens[ticker] else {}
  }

  function RemoveCoin(s: State, coin: Coin): State {
    if coin.IsPlatform() then
      State(s.coins - GetDependentTokens(s, coin.ticker) - {coin.ticker}, s.tokens - {coin.ticker})
    else
      State(s.coins - {coin.ticker},
            if coin.platform in s.tokens
            then s.tokens[coin.platform := s.tokens[coin.platform] - {coin.ticker}] else s.tokens)
  }

  function RegisterCoin(s: State, coin: Coin): (State, Result<(), RegisterError>) {
    if coin.ticker in s.coins then (s, Err(CoinIsInitializedAlready))
    else
      (State(s.coins[coin.ticker := Entry(coin, true)],
             if coin.IsPlatform() && coin.ticker !in s.tokens then s.tokens[coin.ticker := {}] else s.tokens),
       Ok(()))
  }

  /** Makes a platform with dependent tokens passive, and removes any other coin; true if passive. */
  function DisableCoin(s: State, ticker: Ticker, force: bool): (State, Result<bool, RegisterError>) {
    if ticker !in s.coins || (!s.coins[ticker].IsAvailable() && !force) then (s, Err(NoSuchCoin))
    else if GetDependentTokens(s, ticker) != {} && !force then
      (s.(coins := s.coins[ticker := s.coins[ticker].UpdateIsAvailable(false)]), Ok(true))
    else (RemoveCoin(s, s.coins[ticker].coin), Ok(false))
  }

  /** Finds a coin for external requests. */
  function Find(s: State, ticker: Ticker): Option<Coin> {
    if ticker in s.coins && s.coins[ticker].IsAvailable() then Some(s.coins[ticker].coin) else None
  }

  // ---------------------------------------------------------------------------------------
  // The registry object
  // ---------------------------------------------------------------------------------------

  class Registry {
    var coins: map<Ticker, Entry>
    var platformCoinTokens: map<Ticker, set<Ticker>>

    constructor ()
      ensures Value() == State(map[], map[])
    {
      coins, platformCoinTokens := map[], map[];
    }

    function Value(): State
      reads this
    {
      State(coins, platformCoinTokens)
    }

    method Add(coin: Coin) returns (r: Result<(), RegisterError>)
      modifies this
      ensures (Value(), r) == AddToken(old(Value()), coin)
    {
      if coin.ticker in coins {
        return Err(CoinIsInitializedAlready);
      }
      if coin.platform in platformCoinTokens {
        platformCoinTokens :=
          platformCoinTokens[coin.platform := platformCoinTokens[coin.platform] + {coin.ticker}];
      }
      coins := coins[coin.ticker := Entry(coin, true)];
      return Ok(());
    }

    method AddPlatform(platform: Coin, tokens: seq<Coin>, nft: Option<Coin>) returns (r: Result<(), RegisterError>)
      modifies this
      ensures (Value(), r) == AddPlatformWithTokens(old(Value()), platform, tokens, nft)
    {
      var p := platform.ticker;
      if p in coins {
        if coins[p].IsAvailable() {
          return Err(PlatformIsAlreadyActivated);
        }
        coins := coins[p := coins[p].UpdateIsAvailable(true)];
      } else {
        coins := coins[p := Entry(platform, true)];
      }
      ghost var before := coins;
      var tokenTickers := {};
      for i := 0 to |tokens|
        invariant tokenTickers == TickersOf(tokens[..i])
        invariant coins == InsertMissing(before, tokens[..i])
        invariant platformCoinTokens == old(platformCoinTokens)
      {
        var token := tokens[i];
        assert tokens[..i + 1] == tokens[..i] + [token];
        tokenTickers := tokenTickers + {token.ticker};
        if token.ticker !in coins {
          coins := coins[token.ticker := Entry(token, true)];
        }
      }
      assert tokens[..|tokens|] == tokens;
      if nft.Some? {
        tokenTickers := tokenTickers + {nft.value.ticker};
        coins := coins[nft.value.ticker := Entry(nft.value, true)];
      }
      var known := if p in platformCoinTokens then platformCoinTokens[p] else {};
      platformCoinTokens := platformCoinTokens[p := known + tokenTickers];
      return Ok(());
    }

    method Remove(coin: Coin)
      modifies this
      ensures Value() == RemoveCoin(old(Value()), coin)
    {
      if coin.IsPlatform() {
        if coin.ticker in platformCoinTokens {
          var tokensToRemove := platformCoinTokens[coin.ticker];
          platformCoinTokens := platformCoinTokens - {coin.ticker};
          ghost var removed := {};
          while tokensToRemove != {}
            invariant removed + tokensToRemove == old(platformCoinTokens)[coin.ticker]
            invariant coins == old(coins) - removed
            invariant platformCoinTokens == old(platformCoinTokens) - {coin.ticker}
            decreases |tokensToRemove|
          {
            var token :| token in tokensToRemove;
            tokensToRemove := tokensToRemove - {token};
            removed := removed + {token};
            coins := coins - {token};
          }
        }
      } else if coin.platform in platformCoinTokens {
        platformCoinTokens :=
          platformCoinTokens[coin.platform := platformCoinTokens[coin.platform] - {coin.ticker}];
      }
      coins := coins - {coin.ticker};
    }

    method Register(coin: Coin) returns (r: Result<(), RegisterError>)
      modifies this
      ensures (Value(), r) == RegisterCoin(old(Value()), coin)
    {
      if coin.ticker in coins {
        return Err(CoinIsInitializedAlready);
      }
      coins := coins[coin.ticker := Entry(coin, true)];
      if coin.IsPlatform() && coin.ticker !in platformCoinTokens {
        platformCoinTokens := platformCoinTokens[coin.ticker := {}];
      }
      return Ok(());
    }

    method Disable(ticker: Ticker, force: bool) returns (r: Result<bool, RegisterError>)
      modifies this
      ensures (Value(), r) == DisableCoin(old(Value()), ticker, force)
    {
      if ticker !in coins {
        return Err(NoSuchCoin);
      }
      var entry := coins[ticker];
      if !entry.IsAvailable() && !force {
        return Err(NoSuchCoin);
      }
      if GetDependentTokens(Value(), ticker) != {} && !force {
        coins := coins[ticker := entry.UpdateIsAvailable(false)];
        return Ok(true);
      }
      Remove(entry.coin);
      return Ok(false);
    }
  }

  // ---------------------------------------------------------------------------------------
  // The invariant
  // ---------------------------------------------------------------------------------------

  /** The configured platform of a ticker; a platform coin is its own platform. */
  type Config = Ticker -> Ticker

  predicate Configured(config: Config, coin: Coin) {
    coin.platform == config(coin.ticker) && config(coin.platform) == coin.platform
  }

  /** Every coin is registered under its own ticker and as it is configured. */
  ghost predicate IsRegistered(config: Config, s: State, t: Ticker) {
    t in s.coins && s.coins[t].coin.ticker == t && Configured(config, s.coins[t].coin)
  }

  ghost predicate IsListed(config: Config, s: State, t: Ticker) {
    config(t) in s.tokens && t in s.tokens[config(t)]
  }

  /** The tokens listed under a platform are registered and belong to it. */
  ghost predicate ListsOwnTokens(config: Config, s: State, p: Ticker)
    requires p in s.tokens
  {
    forall t :: t in s.tokens[p] ==> t in s.coins && t != p && config(t) == p
  }

  /** The tokens that are listed and the tokens that are registered are the same. */
  ghost predicate TokensInv(config: Config, s: State) {
    && (forall t :: t in s.coins ==> IsRegistered(config, s, t))
    && (forall p :: p in s.tokens ==> config(p) == p)
    && (forall p :: p in s.tokens ==> ListsOwnTokens(config, s, p))
    && (forall t :: t in s.coins && config(t) != t ==> IsListed(config, s, t))
  }

  /** A platform that lists tokens and is not registered. */
  predicate IsOrphan(s: State, p: Ticker) {
    p in s.tokens && p !in s.coins
  }

  ghost predicate Inv(config: Config, s: State) {
    TokensInv(config, s) && forall p :: p in s.tokens ==> !IsOrphan(s, p)
  }

  datatype Op =
    | OpAdd(coin: Coin)
    | OpAddPlatform(platform: Coin, tokens: seq<Coin>, nft: Option<Coin>)
    | OpRemove(coin: Coin)
    | OpRegister(coin: Coin)
    | OpDisable(ticker: Ticker, force: bool)

  function Apply(s: State, op: Op): State {
    match op
    case OpAdd(c) => AddToken(s, c).0
    case OpAddPlatform(p, ts, nft) => AddPlatformWithTokens(s, p, ts, nft).0
    case OpRemove(c) => RemoveCoin(s, c)
    case OpRegister(c) => RegisterCoin(s, c).0
    case OpDisable(t, force) => DisableCoin(s, t, force).0
  }

  predicate IsTokenOf(config: Config, p: Ticker, c: Coin) {
    Configured(config, c) && c.platform == p && c.ticker != p
  }

  /** What the registry assumes: a token comes after its platform, and not through `OpRegister`. */
  predicate Allowed(config: Config, s: State, op: Op) {
    match op
    case OpAdd(c) => Configured(config, c) && !c.IsPlatform() && c.platform in s.tokens
    case OpAddPlatform(p, ts, nft) =>
      && Configured(config, p) && p.IsPlatform()
      && (forall i :: 0 <= i < |ts| ==> IsTokenOf(config, p.ticker, ts[i]))
      && (nft.Some? ==> IsTokenOf(config, p.ticker, nft.value))
    case OpRemove(c) => Configured(config, c)
    case OpRegister(c) => Configured(config, c) && c.IsPlatform()
    case OpDisable(_, _) => true
  }

  lemma {:induction false} InsertMissingIs(coins: map<Ticker, Entry>, tokens: seq<Coin>)
    ensures var r := InsertMissing(coins, tokens);
            && r.Keys == coins.Keys + TickersOf(tokens)
            && (forall t :: t in coins ==> r[t] == coins[t])
            && (forall t :: t in r && t !in coins ==> r[t].coin in tokens && r[t].coin.ticker == t && r[t].flag)
  {
    if tokens != [] {
      var n := |tokens| - 1;
      InsertMissingIs(coins, tokens[..n]);
      assert tokens == tokens[..n] + [tokens[n]];
      assert TickersOf(tokens) == TickersOf(tokens[..n]) + {tokens[n].ticker};
    }
  }

  lemma AddKeepsTokens(config: Config, s: State, c: Coin)
    requires TokensInv(config, s) && Allowed(config, s, OpAdd(c))
    ensures TokensInv(config, AddToken(s, c).0)
  {
    var s' := AddToken(s, c).0;
    if c.ticker !in s.coins {
      forall t | t in s'.coins ensures IsRegistered(config, s', t) {
        assert t in s.coins ==> IsRegistered(config, s, t);
      }
      forall p | p in s'.tokens ensures ListsOwnTokens(config, s', p) {
        assert ListsOwnTokens(config, s, p);
      }
      forall t | t in s'.coins && config(t) != t ensures IsListed(config, s', t) {
        assert t in s.coins ==> IsListed(config, s, t);
      }
    }
  }

  lemma RegisterKeepsTokens(config: Config, s: State, c: Coin)
    requires TokensInv(config, s) && Allowed(config, s, OpRegister(c))
    ensures TokensInv(config, RegisterCoin(s, c).0)
  {
    var s' := RegisterCoin(s, c).0;
    if c.ticker !in s.coins {
      forall t | t in s'.coins ensures IsRegistered(config, s', t) {
        assert t in s.coins ==> IsRegistered(config, s, t);
      }
      forall p | p in s'.tokens ensures ListsOwnTokens(config, s', p) {
        assert p in s.tokens ==> ListsOwnTokens(config, s, p);
      }
      forall t | t in s'.coins && config(t) != t ensures IsListed(config, s', t) {
        assert IsListed(config, s, t);
      }
    }
  }

  lemma RemovePlatformKeepsTokens(config: Config, s: State, c: Coin)
    requires TokensInv(config, s) && Configured(config, c) && c.IsPlatform()
    ensures TokensInv(config, RemoveCoin(s, c))
  {
    var s' := RemoveCoin(s, c);
    forall t | t in s'.coins ensures IsRegistered(config, s', t) {
      assert IsRegistered(config, s, t);
    }
    forall p | p in s'.tokens ensures config(p) == p && ListsOwnTokens(config, s', p) {
      assert ListsOwnTokens(config, s, p);
      if c.ticker in s.tokens {
        assert ListsOwnTokens(config, s, c.ticker);
      }
    }
    forall t | t in s'.coins && config(t) != t ensures IsListed(config, s', t) {
      assert IsListed(config, s, t);
    }
  }

  lemma RemoveTokenKeepsTokens(config: Config, s: State, c: Coin)
    requires TokensInv(config, s) && Configured(config, c) && !c.IsPlatform()
    ensures TokensInv(config, RemoveCoin(s, c))
  {
    var s' := RemoveCoin(s, c);
    forall t | t in s'.coins ensures IsRegistered(config, s', t) {
      assert IsRegistered(config, s, t);
    }
    forall p | p in s'.tokens ensures config(p) == p && ListsOwnTokens(config, s', p) {
      assert ListsOwnTokens(config, s, p);
    }
    forall t | t in s'.coins && config(t) != t ensures IsListed(config, s', t) {
      assert IsListed(config, s, t);
    }
  }

  lemma RemoveKeepsTokens(config: Config, s: State, c: Coin)
    requires TokensInv(config, s) && Configured(config, c)
    ensures TokensInv(config, RemoveCoin(s, c))
  {
    if c.IsPlatform() {
      RemovePlatformKeepsTokens(config, s, c);
    } else {
      RemoveTokenKeepsTokens(config, s, c);
    }
  }

  lemma DisableKeepsTokens(config: Config, s: State, ticker: Ticker, force: bool)
    requires TokensInv(config, s)
    ensures TokensInv(config, DisableCoin(s, ticker, force).0)
  {
    if ticker in s.coins {
      assert IsRegistered(config, s, ticker);
      RemoveKeepsTokens(config, s, s.coins[ticker].coin);
      SameTickersKeepTokens(config, s, s.(coins := s.coins[ticker := s.coins[ticker].UpdateIsAvailable(false)]));
    }
  }

  /** The flags for external requests do not matter to the invariant. */
  lemma SameTickersKeepTokens(config: Config, s: State, s': State)
    requires TokensInv(config, s)
    requires s'.tokens == s.tokens && s'.coins.Keys == s.coins.Keys
    requires forall t :: t in s.coins ==> s'.coins[t].coin == s.coins[t].coin
    ensures TokensInv(config, s')
  {
    forall t | t in s'.coins ensures IsRegistered(config, s', t) {
      assert IsRegistered(config, s, t);
    }
    forall p | p in s'.tokens ensures ListsOwnTokens(config, s', p) {
      assert ListsOwnTokens(config, s, p);
    }
    forall t | t in s'.coins && config(t) != t ensures IsListed(config, s', t) {
      assert IsListed(config, s, t);
    }
  }

  /** The tickers that are listed for a platform when it is activated. */
  function ActivatedTickers(tokens: seq<Coin>, nft: Option<Coin>): set<Ticker> {
    if nft.Some? then TickersOf(tokens) + {nft.value.ticker} else TickersOf(tokens)
  }

  /** Every coin after activating a platform was there, is one that is activated, or is the platform. */
  lemma ActivatedCoins(s: State, platform: Coin, tokens: seq<Coin>, nft: Option<Coin>)
    requires AddPlatformWithTokens(s, platform, tokens, nft).1.Ok?
    ensures var s' := AddPlatformWithTokens(s, platform, tokens, nft).0;
            && s'.coins.Keys == s.coins.Keys + {platform.ticker} + ActivatedTickers(tokens, nft)
            && forall t :: t in s'.coins ==>
              var c := s'.coins[t].coin;
              || (t in s.coins && c == s.coins[t].coin)
              || (c.ticker == t && (c == platform || c in tokens || nft == Some(c)))
  {
    var p := platform.ticker;
    var own := if p in s.coins then s.coins[p].UpdateIsAvailable(true) else Entry(platform, true);
    InsertMissingIs(s.coins[p := own], tokens);
  }

  lemma ActivatedAreRegistered(config: Config, s: State, platform: Coin, tokens: seq<Coin>, nft: Option<Coin>)
    requires TokensInv(config, s) && Allowed(config, s, OpAddPlatform(platform, tokens, nft))
    requires AddPlatformWithTokens(s, platform, tokens, nft).1.Ok?
    ensures var s' := AddPlatformWithTokens(s, platform, tokens, nft).0;
            && (forall t :: t in ActivatedTickers(tokens, nft) ==> t != platform.ticker && config(t) == platform.ticker)
            && (forall t :: t in s'.coins ==> IsRegistered(config, s', t))
  {
    ActivatedCoins(s, platform, tokens, nft);
    forall t | t in ActivatedTickers(tokens, nft) ensures t != platform.ticker && config(t) == platform.ticker {
      if nft.None? || t != nft.value.ticker {
        var c :| c in tokens && c.ticker == t;
        assert IsTokenOf(config, platform.ticker, c);
      }
    }
    var s' := AddPlatformWithTokens(s, platform, tokens, nft).0;
    forall t | t in s'.coins ensures IsRegistered(config, s', t) {
      assert t in s.coins ==> IsRegistered(config, s, t);
      var c := s'.coins[t].coin;
      assert c in tokens ==> IsTokenOf(config, platform.ticker, c);
    }
  }

  lemma ActivatedListsOwnTokens(config: Config, s: State, platform: Coin, tokens: seq<Coin>, nft: Option<Coin>,
                                q: Ticker)
    requires TokensInv(config, s) && Allowed(config, s, OpAddPlatform(platform, tokens, nft))
    requires AddPlatformWithTokens(s, platform, tokens, nft).1.Ok?
    ensures var s' := AddPlatformWithTokens(s, platform, tokens, nft).0;
            q in s'.tokens ==> config(q) == q && ListsOwnTokens(config, s', q)
  {
    ActivatedCoins(s, platform, tokens, nft);
    ActivatedAreRegistered(config, s, platform, tokens, nft);
    assert q in s.tokens ==> ListsOwnTokens(config, s, q);
  }

  lemma ActivatedAreListed(config: Config, s: State, platform: Coin, tokens: seq<Coin>, nft: Option<Coin>, t: Ticker)
    requires TokensInv(config, s) && Allowed(config, s, OpAddPlatform(platform, tokens, nft))
    requires AddPlatformWithTokens(s, platform, tokens, nft).1.Ok?
    ensures var s' := AddPlatformWithTokens(s, platform, tokens, nft).0;
            t in s'.coins && config(t) != t ==> IsListed(config, s', t)
  {
    ActivatedCoins(s, platform, tokens, nft);
    ActivatedAreRegistered(config, s, platform, tokens, nft);
    assert t in s.coins && config(t) != t ==> IsListed(config, s, t);
  }

  lemma AddPlatformKeepsTokens(config: Config, s: State, platform: Coin, tokens: seq<Coin>, nft: Option<Coin>)
    requires TokensInv(config, s) && Allowed(config, s, OpAddPlatform(platform, tokens, nft))
    ensures TokensInv(config, AddPlatformWithTokens(s, platform, tokens, nft).0)
  {
    var (s', r) := AddPlatformWithTokens(s, platform, tokens, nft);
    if r.Ok? {
      ActivatedAreRegistered(config, s, platform, tokens, nft);
      forall q | q in s'.tokens ensures config(q) == q && ListsOwnTokens(config, s', q) {
        ActivatedListsOwnTokens(config, s, platform, tokens, nft, q);
      }
      forall t | t in s'.coins && config(t) != t ensures IsListed(config, s', t) {
        ActivatedAreListed(config, s, platform, tokens, nft, t);
      }
    }
  }

  lemma StepKeepsTokens(config: Config, s: State, op: Op)
    requires TokensInv(config, s) && Allowed(config, s, op)
    ensures TokensInv(config, Apply(s, op))
  {
    match op
    case OpAdd(c) => AddKeepsTokens(config, s, c);
    case OpAddPlatform(p, ts, nft) => AddPlatformKeepsTokens(config, s, p, ts, nft);
    case OpRemove(c) => RemoveKeepsTokens(config, s, c);
    case OpRegister(c) => RegisterKeepsTokens(config, s, c);
    case OpDisable(t, force) => DisableKeepsTokens(config, s, t, force);
  }

  // ---------------------------------------------------------------------------------------
  // Registering in two steps
  // ---------------------------------------------------------------------------------------

  /**
   Registering holds the lock of the coins first and then that of the tokens; other operations may come
   in between.
   */
  function RegisterFirst(s: State, coin: Coin): (State, Result<(), RegisterError>) {
    if coin.ticker in s.coins then (s, Err(CoinIsInitializedAlready))
    else (s.(coins := s.coins[coin.ticker := Entry(coin, true)]), Ok(()))
  }

  function RegisterSecond(s: State, coin: Coin): State {
    if coin.IsPlatform() && coin.ticker !in s.tokens then s.(tokens := s.tokens[coin.ticker := {}]) else s
  }

  lemma RegisterIsTwoSteps(s: State, c: Coin)
    ensures var (first, r) := RegisterFirst(s, c);
            RegisterCoin(s, c) == (if r.Ok? then RegisterSecond(first, c) else first, r)
  {
  }

  /** An operation that is one step, or one of the two steps of registering a platform. */
  datatype RaceOp = Atomic(op: Op) | Begin(coin: Coin) | Finish(coin: Coin)

  function ApplyRace(s: State, op: RaceOp): State {
    match op
    case Atomic(o) => Apply(s, o)
    case Begin(c) => RegisterFirst(s, c).0
    case Finish(c) => RegisterSecond(s, c)
  }

  predicate AllowedRace(config: Config, s: State, op: RaceOp) {
    if op.Atomic? then Allowed(config, s, op.op) else Configured(config, op.coin) && op.coin.IsPlatform()
  }

  lemma BeginKeepsTokens(config: Config, s: State, c: Coin)
    requires TokensInv(config, s) && Configured(config, c) && c.IsPlatform()
    ensures TokensInv(config, RegisterFirst(s, c).0)
  {
    var s' := RegisterFirst(s, c).0;
    forall t | t in s'.coins ensures IsRegistered(config, s', t) {
      assert t in s.coins ==> IsRegistered(config, s, t);
    }
    forall p | p in s'.tokens ensures ListsOwnTokens(config, s', p) {
      assert ListsOwnTokens(config, s, p);
    }
    forall t | t in s'.coins && config(t) != t ensures IsListed(config, s', t) {
      assert IsListed(config, s, t);
    }
  }

  lemma FinishKeepsTokens(config: Config, s: State, c: Coin)
    requires TokensInv(config, s) && Configured(config, c) && c.IsPlatform()
    ensures TokensInv(config, RegisterSecond(s, c))
  {
    var s' := RegisterSecond(s, c);
    forall t | t in s'.coins ensures IsRegistered(config, s', t) {
      assert IsRegistered(config, s, t);
    }
    forall p | p in s'.tokens ensures ListsOwnTokens(config, s', p) {
      assert p in s.tokens ==> ListsOwnTokens(config, s, p);
    }
    forall t | t in s'.coins && config(t) != t ensures IsListed(config, s', t) {
      assert IsListed(config, s, t);
    }
  }

  lemma RaceStepKeepsTokens(config: Config, s: State, op: RaceOp)
    requires TokensInv(config, s) && AllowedRace(config, s, op)
    ensures TokensInv(config, ApplyRace(s, op))
  {
    match op
    case Atomic(o) => StepKeepsTokens(config, s, o);
    case Begin(c) => BeginKeepsTokens(config, s, c);
    case Finish(c) => FinishKeepsTokens(config, s, c);
  }

  /** The operation registers the platform, or removes it together with its tokens. */
  predicate Settles(op: RaceOp, p: Ticker) {
    match op
    case Begin(c) => c.ticker == p
    case Finish(_) => false
    case Atomic(o) =>
      match o
      case OpAddPlatform(c, _, _) => c.ticker == p
      case OpRemove(c) => c.ticker == p
      case OpRegister(c) => c.ticker == p
      case _ => false
  }

  lemma RemoveMakesNoOrphan(config: Config, s: State, c: Coin, p: Ticker)
    requires TokensInv(config, s) && Configured(config, c)
    ensures IsOrphan(RemoveCoin(s, c), p) <==> IsOrphan(s, p) && p != c.ticker
  {
    if p in s.tokens && c.ticker in s.tokens {
      assert ListsOwnTokens(config, s, c.ticker);
    }
  }

  lemma AddPlatformMakesNoOrphan(config: Config, s: State, platform: Coin, tokens: seq<Coin>, nft: Option<Coin>,
                                 p: Ticker)
    requires TokensInv(config, s) && Allowed(config, s, OpAddPlatform(platform, tokens, nft))
    ensures IsOrphan(AddPlatformWithTokens(s, platform, tokens, nft).0, p) <==> IsOrphan(s, p) && p != platform.ticker
  {
    var (s', r) := AddPlatformWithTokens(s, platform, tokens, nft);
    if r.Ok? {
      ActivatedCoins(s, platform, tokens, nft);
      ActivatedAreRegistered(config, s, platform, tokens, nft);
    }
  }

  /** A platform becomes an orphan only when its registration finishes after it was removed. */
  lemma OrphanStep(config: Config, s: State, op: RaceOp, p: Ticker)
    requires TokensInv(config, s) && AllowedRace(config, s, op)
    ensures IsOrphan(ApplyRace(s, op), p)
       <==> || (op.Finish? && op.coin.ticker == p && p !in s.coins)
            || (IsOrphan(s, p) && !Settles(op, p))
  {
    match op
    case Begin(_) =>
    case Finish(_) =>
    case Atomic(OpAdd(_)) =>
    case Atomic(OpRegister(_)) =>
    case Atomic(OpAddPlatform(c, ts, nft)) => AddPlatformMakesNoOrphan(config, s, c, ts, nft, p);
    case Atomic(OpRemove(c)) => RemoveMakesNoOrphan(config, s, c, p);
    case Atomic(OpDisable(t, _)) =>
      if t in s.coins {
        assert IsRegistered(config, s, t);
        RemoveMakesNoOrphan(config, s, s.coins[t].coin, p);
      }
  }

  // ---------------------------------------------------------------------------------------
  // Runs
  // ---------------------------------------------------------------------------------------

  lemma StepKeepsInv(config: Config, s: State, op: Op)
    requires Inv(config, s) && Allowed(config, s, op)
    ensures Inv(config, Apply(s, op))
  {
    StepKeepsTokens(config, s, op);
    forall p | p in Apply(s, op).tokens ensures !IsOrphan(Apply(s, op), p) {
      OrphanStep(config, s, Atomic(op), p);
    }
  }

  predicate AllowedRun(config: Config, s: State, ops: seq<Op>)
    decreases |ops|
  {
    ops == [] || (Allowed(config, s, ops[0]) && AllowedRun(config, Apply(s, ops[0]), ops[1..]))
  }

  function Run(s: State, ops: seq<Op>): State
    decreases |ops|
  {
    if ops == [] then s else Run(Apply(s, ops[0]), ops[1..])
  }

  lemma {:induction false} RunKeepsInv(config: Config, s: State, ops: seq<Op>)
    requires Inv(config, s) && AllowedRun(config, s, ops)
    ensures Inv(config, Run(s, ops))
    decreases |ops|
  {
    if ops != [] {
      StepKeepsInv(config, s, ops[0]);
      RunKeepsInv(config, Apply(s, ops[0]), ops[1..]);
    }
  }

  // ---------------------------------------------------------------------------------------
  // What the invariant gives
  // ---------------------------------------------------------------------------------------

  const EMPTY := State(map[], map[])

  lemma RemovalIs(config: Config, s: State, c: Coin, t: Ticker)
    requires TokensInv(config, s) && Configured(config, c) && c.IsPlatform()
    ensures t in RemoveCoin(s, c).coins <==> t in s.coins && config(t) != c.ticker
  {
    if t in s.coins {
      assert IsRegistered(config, s, t);
      assert config(t) != t ==> IsListed(config, s, t);
    }
    if c.ticker in s.tokens {
      assert ListsOwnTokens(config, s, c.ticker);
    }
  }

  /**
   In every reachable state, removing a platform leaves no coin behind that depends on it, and no other
   coin goes.
   */
  lemma RemovingPlatformRemovesItsTokens(config: Config, ops: seq<Op>, c: Coin, t: Ticker)
    requires AllowedRun(config, EMPTY, ops)
    requires Configured(config, c) && c.IsPlatform()
    ensures var s := Run(EMPTY, ops);
            t in RemoveCoin(s, c).coins <==> t in s.coins && config(t) != c.ticker
  {
    RunKeepsInv(config, EMPTY, ops);
    RemovalIs(config, Run(EMPTY, ops), c, t);
  }

  /** In every reachable state, the dependent tokens of a ticker are the registered coins whose platform it is. */
  lemma DependentTokensAre(config: Config, ops: seq<Op>, p: Ticker, t: Ticker)
    requires AllowedRun(config, EMPTY, ops)
    ensures var s := Run(EMPTY, ops);
            t in GetDependentTokens(s, p) <==> t in s.coins && t != p && config(t) == p
  {
    var s := Run(EMPTY, ops);
    RunKeepsInv(config, EMPTY, ops);
    if p in s.tokens {
      assert ListsOwnTokens(config, s, p);
    }
    if t in s.coins && config(t) != t {
      assert IsListed(config, s, t);
    }
  }

  /** Registering keeps the invariant exactly for platform coins: a token registered so is not listed. */
  lemma RegisterKeepsInvIff(config: Config, s: State, c: Coin)
    requires Inv(config, s) && Configured(config, c) && c.ticker !in s.coins
    ensures Inv(config, RegisterCoin(s, c).0) <==> c.IsPlatform()
  {
    if c.IsPlatform() {
      StepKeepsInv(config, s, OpRegister(c));
    } else {
      assert c.platform in s.tokens ==> ListsOwnTokens(config, s, c.platform);
      assert !IsListed(config, RegisterCoin(s, c).0, c.ticker);
    }
  }

  /** Adding a token keeps the invariant exactly when its platform was activated before. */
  lemma AddKeepsInvIff(config: Config, s: State, c: Coin)
    requires Inv(config, s) && Configured(config, c) && !c.IsPlatform() && c.ticker !in s.coins
    ensures Inv(config, AddToken(s, c).0) <==> c.platform in s.tokens
  {
    if c.platform in s.tokens {
      StepKeepsInv(config, s, OpAdd(c));
    } else {
      assert !IsListed(config, AddToken(s, c).0, c.ticker);
    }
  }

  lemma NoTickers()
    ensures TickersOf([]) == {}
  {
    var none: seq<Coin> := [];
    assert TickersOf(none) == {};
  }

  /** A token that comes before its platform stays registered when the platform is removed. */
  lemma TokenBeforePlatformSurvives(p: Ticker, t: Ticker)
    requires p != t
    ensures var s := Run(EMPTY, [OpAdd(Coin(t, p)), OpAddPlatform(Coin(p, p), [], None), OpRemove(Coin(p, p))]);
            t in s.coins && p !in s.coins
  {
    var s1 := AddToken(EMPTY, Coin(t, p)).0;
    assert s1 == State(map[t := Entry(Coin(t, p), true)], map[]);
    var s2 := AddPlatformWithTokens(s1, Coin(p, p), [], None).0;
    NoTickers();
    assert InsertMissing(s1.coins[p := Entry(Coin(p, p), true)], []) == s1.coins[p := Entry(Coin(p, p), true)];
    assert s2.tokens[p] == {};
    assert s2.tokens == map[p := {}];
    assert s2.coins.Keys == {p, t};
    var s3 := RemoveCoin(s2, Coin(p, p));
    var ops := [OpAdd(Coin(t, p)), OpAddPlatform(Coin(p, p), [], None), OpRemove(Coin(p, p))];
    assert ops[1..] == [OpAddPlatform(Coin(p, p), [], None), OpRemove(Coin(p, p))];
    assert ops[1..][1..] == [OpRemove(Coin(p, p))];
    assert Run(s2, [OpRemove(Coin(p, p))]) == Run(s3, []);
  }

  /** Making a platform passive hides it, keeps its tokens, and activating it again restores the registry. */
  lemma PassiveThenActive(config: Config, s: State, p: Ticker)
    requires Inv(config, s) && p in s.tokens && s.coins[p].flag && s.tokens[p] != {}
    ensures var (passive, r) := DisableCoin(s, p, false);
            && r == Ok(true) && Find(passive, p) == None && passive.tokens == s.tokens
            && (forall t :: t != p ==> Find(passive, t) == Find(s, t))
            && AddPlatformWithTokens(passive, s.coins[p].coin, [], None) == (s, Ok(()))
  {
    assert !IsOrphan(s, p) && IsRegistered(config, s, p);
    var passive := DisableCoin(s, p, false).0;
    assert InsertMissing(s.coins, []) == s.coins;
    assert passive.coins[p := passive.coins[p].UpdateIsAvailable(true)] == s.coins;
    NoTickers();
    var none: set<Ticker> := {};
    assert s.tokens[p] + none == s.tokens[p];
    assert s.tokens[p := s.tokens[p]] == s.tokens;
  }

  // ---------------------------------------------------------------------------------------
  // Races
  // ---------------------------------------------------------------------------------------

  function After(s: State, ops: seq<RaceOp>): State {
    if ops == [] then s else ApplyRace(After(s, ops[..|ops| - 1]), ops[|ops| - 1])
  }

  /** Any interleaving of operations and of the steps of any number of registrations. */
  ghost predicate IsRace(config: Config, s: State, ops: seq<RaceOp>) {
    forall i :: 0 <= i < |ops| ==> AllowedRace(config, After(s, ops[..i]), ops[i])
  }

  lemma RaceBefore(config: Config, s: State, ops: seq<RaceOp>)
    requires IsRace(config, s, ops) && ops != []
    ensures IsRace(config, s, ops[..|ops| - 1]) && AllowedRace(config, After(s, ops[..|ops| - 1]), ops[|ops| - 1])
  {
    var rest := ops[..|ops| - 1];
    assert forall i :: 0 <= i < |rest| ==> rest[..i] == ops[..i] && rest[i] == ops[i];
  }

  /** In every race, the tokens that are listed and the tokens that are registered stay the same. */
  lemma {:induction false} RaceKeepsTokens(config: Config, s: State, ops: seq<RaceOp>)
    requires TokensInv(config, s) && IsRace(config, s, ops)
    ensures TokensInv(config, After(s, ops))
  {
    if ops != [] {
      RaceBefore(config, s, ops);
      RaceKeepsTokens(config, s, ops[..|ops| - 1]);
      RaceStepKeepsTokens(config, After(s, ops[..|ops| - 1]), ops[|ops| - 1]);
    }
  }

  /** So even then removing a platform removes exactly the coins that depend on it, and itself. */
  lemma RacingRemovalRemovesItsTokens(config: Config, s: State, ops: seq<RaceOp>, c: Coin, t: Ticker)
    requires TokensInv(config, s) && IsRace(config, s, ops) && Configured(config, c) && c.IsPlatform()
    ensures t in RemoveCoin(After(s, ops), c).coins <==> t in After(s, ops).coins && config(t) != c.ticker
  {
    RaceKeepsTokens(config, s, ops);
    RemovalIs(config, After(s, ops), c, t);
  }

  /** Step i finishes a registration of a coin that was removed, and nothing registers or removes it again. */
  ghost predicate LeavesOrphan(s: State, ops: seq<RaceOp>, i: nat)
    requires i < |ops|
  {
    && ops[i].Finish? && ops[i].coin.ticker !in After(s, ops[..i]).coins
    && forall j :: i < j < |ops| ==> !Settles(ops[j], ops[i].coin.ticker)
  }

  ghost predicate IsLeft(s: State, ops: seq<RaceOp>, p: Ticker) {
    exists i :: 0 <= i < |ops| && LeavesOrphan(s, ops, i) && ops[i].coin.ticker == p
  }

  lemma LeftNext(s: State, ops: seq<RaceOp>, op: RaceOp, p: Ticker)
    ensures IsLeft(s, ops + [op], p)
       <==> || (op.Finish? && op.coin.ticker == p && p !in After(s, ops).coins)
            || (IsLeft(s, ops, p) && !Settles(op, p))
  {
    var n, all := |ops|, ops + [op];
    assert all[..n] == ops;
    assert forall i :: 0 <= i < n ==> all[..i] == ops[..i] && all[i] == ops[i];
    if IsLeft(s, ops, p) && !Settles(op, p) {
      var i :| 0 <= i < n && LeavesOrphan(s, ops, i) && ops[i].coin.ticker == p;
      assert LeavesOrphan(s, all, i);
    }
    if op.Finish? && op.coin.ticker == p && p !in After(s, ops).coins {
      assert LeavesOrphan(s, all, n);
    }
    if IsLeft(s, all, p) {
      var i :| 0 <= i < n + 1 && LeavesOrphan(s, all, i) && all[i].coin.ticker == p;
      if i < n {
        assert forall j :: i < j < n ==> all[j] == ops[j];
        assert LeavesOrphan(s, ops, i);
        assert all[n] == op;
      }
    }
  }

  lemma {:induction false} OrphansAre(config: Config, s: State, ops: seq<RaceOp>, p: Ticker)
    requires Inv(config, s) && IsRace(config, s, ops)
    ensures IsOrphan(After(s, ops), p) <==> IsLeft(s, ops, p)
  {
    if ops != [] {
      var n := |ops| - 1;
      RaceBefore(config, s, ops);
      OrphansAre(config, s, ops[..n], p);
      RaceKeepsTokens(config, s, ops[..n]);
      OrphanStep(config, After(s, ops[..n]), ops[n], p);
      LeftNext(s, ops[..n], ops[n], p);
      assert ops == ops[..n] + [ops[n]];
    }
  }

  /**
   After any race the registry is consistent exactly if no registration finished after its coin was
   removed, or the coin was registered or removed again after that.
   */
  lemma RaceKeepsInvIff(config: Config, s: State, ops: seq<RaceOp>)
    requires Inv(config, s) && IsRace(config, s, ops)
    ensures Inv(config, After(s, ops)) <==> forall i :: 0 <= i < |ops| ==> !LeavesOrphan(s, ops, i)
  {
    var later := After(s, ops);
    RaceKeepsTokens(config, s, ops);
    forall p ensures IsOrphan(later, p) <==> IsLeft(s, ops, p) {
      OrphansAre(config, s, ops, p);
    }
    forall i | 0 <= i < |ops| && LeavesOrphan(s, ops, i) ensures IsOrphan(later, ops[i].coin.ticker) {
      assert IsLeft(s, ops, ops[i].coin.ticker);
    }
  }

  /** An instance: a platform is removed between the two steps of its registration. */
  lemma RemovedBetweenSteps(config: Config, s: State, p: Coin)
    requires Inv(config, s) && Configured(config, p) && p.IsPlatform() && p.ticker !in s.coins
    ensures var ops := [Begin(p), Atomic(OpRemove(p)), Finish(p)];
            IsRace(config, s, ops) && !Inv(config, After(s, ops))
  {
    var ops := [Begin(p), Atomic(OpRemove(p)), Finish(p)];
    assert ops[..0] == [] && ops[..1] == [Begin(p)] && ops[..2] == [Begin(p), Atomic(OpRemove(p))];
    assert [Begin(p)][..0] == [] && [Begin(p), Atomic(OpRemove(p))][..1] == [Begin(p)];
    assert IsOrphan(After(s, ops), p.ticker);
  }

  /** A token that is added between the two steps of registering its platform is not listed and survives it. */
  lemma TokenBetweenStepsSurvives(config: Config, s: State, p: Coin, t: Coin)
    requires Inv(config, s) && p.ticker !in s.coins && p.IsPlatform()
    requires Configured(config, t) && t.platform == p.ticker && !t.IsPlatform() && t.ticker !in s.coins
    ensures var racing := RegisterSecond(AddToken(RegisterFirst(s, p).0, t).0, p);
            !Inv(config, racing) && t.ticker in RemoveCoin(racing, p).coins && p.ticker !in RemoveCoin(racing, p).coins
  {
    var racing := RegisterSecond(AddToken(RegisterFirst(s, p).0, t).0, p);
    assert !IsOrphan(s, p.ticker);
    assert racing.tokens[p.ticker] == {};
    assert !IsListed(config, racing, t.ticker);
  }

  // ---------------------------------------------------------------------------------------
  // Which coins are found
  // ---------------------------------------------------------------------------------------

  /** Every ticker is found as before. */
  ghost predicate FindsSame(s: State, s': State, except: set<Ticker>) {
    forall t :: t !in except ==> Find(s', t) == Find(s, t)
  }

  /** A token that is added is found, and a ticker that is taken is refused. */
  lemma AddFinds(s: State, c: Coin)
    ensures var (s', r) := AddToken(s, c);
            if c.ticker in s.coins then s' == s && r == Err(CoinIsInitializedAlready)
            else r == Ok(()) && Find(s', c.ticker) == Some(c) && FindsSame(s, s', {c.ticker})
  {
  }

  lemma RegisterFinds(s: State, c: Coin)
    ensures var (s', r) := RegisterCoin(s, c);
            if c.ticker in s.coins then s' == s && r == Err(CoinIsInitializedAlready)
            else r == Ok(()) && Find(s', c.ticker) == Some(c) && FindsSame(s, s', {c.ticker})
  {
  }

  /** A platform can be activated exactly if it is not found; otherwise nothing happens. */
  lemma ActivatesIff(s: State, platform: Coin, tokens: seq<Coin>, nft: Option<Coin>)
    ensures var (s', r) := AddPlatformWithTokens(s, platform, tokens, nft);
            && (r == Ok(()) <==> Find(s, platform.ticker) == None)
            && (r.Err? ==> s' == s && r.error == PlatformIsAlreadyActivated)
  {
  }

  lemma ActivatedPlatformIsFound(config: Config, s: State, platform: Coin, tokens: seq<Coin>, nft: Option<Coin>)
    requires TokensInv(config, s) && Allowed(config, s, OpAddPlatform(platform, tokens, nft))
    requires Find(s, platform.ticker) == None
    ensures var s' := AddPlatformWithTokens(s, platform, tokens, nft).0;
            Find(s', platform.ticker) == Some(platform)
  {
    var p := platform.ticker;
    var own := if p in s.coins then s.coins[p].UpdateIsAvailable(true) else Entry(platform, true);
    InsertMissingIs(s.coins[p := own], tokens);
    if p in s.coins {
      assert IsRegistered(config, s, p);
    }
  }

  /** Of the tokens, those that were registered stay as they are, and the others are found now. */
  lemma ActivatedTokenIsFound(config: Config, s: State, platform: Coin, tokens: seq<Coin>, nft: Option<Coin>, c: Coin)
    requires TokensInv(config, s) && Allowed(config, s, OpAddPlatform(platform, tokens, nft))
    requires Find(s, platform.ticker) == None && c in tokens && (nft.Some? ==> c.ticker != nft.value.ticker)
    ensures var s' := AddPlatformWithTokens(s, platform, tokens, nft).0;
            && Find(s', c.ticker).Some? && Find(s', c.ticker).value.ticker == c.ticker
            && (if c.ticker in s.coins then s'.coins[c.ticker] == s.coins[c.ticker]
                else Find(s', c.ticker).value in tokens && s'.coins[c.ticker].flag)
  {
    var p := platform.ticker;
    var own := if p in s.coins then s.coins[p].UpdateIsAvailable(true) else Entry(platform, true);
    InsertMissingIs(s.coins[p := own], tokens);
    assert IsTokenOf(config, p, c);
    assert c.ticker in TickersOf(tokens);
    if c.ticker in s.coins {
      assert IsRegistered(config, s, c.ticker);
    }
  }

  /** The token for NFTs replaces what was there; all other tickers are found as before. */
  lemma ActivationLeavesOthers(config: Config, s: State, platform: Coin, tokens: seq<Coin>, nft: Option<Coin>)
    requires TokensInv(config, s) && Allowed(config, s, OpAddPlatform(platform, tokens, nft))
    requires Find(s, platform.ticker) == None
    ensures var s' := AddPlatformWithTokens(s, platform, tokens, nft).0;
            && (nft.Some? ==> Find(s', nft.value.ticker) == nft && s'.coins[nft.value.ticker].flag)
            && FindsSame(s, s', {platform.ticker} + ActivatedTickers(tokens, nft))
  {
    var p := platform.ticker;
    var own := if p in s.coins then s.coins[p].UpdateIsAvailable(true) else Entry(platform, true);
    InsertMissingIs(s.coins[p := own], tokens);
  }

  /** Removing a coin leaves the coins that stay as they are. */
  lemma RemovalLeavesOthers(s: State, c: Coin, t: Ticker)
    ensures var s' := RemoveCoin(s, c);
            && (t in s'.coins ==> t in s.coins && s'.coins[t] == s.coins[t])
            && (!c.IsPlatform() ==> (t in s'.coins <==> t in s.coins && t != c.ticker))
  {
  }

  /**
   Disabling: a coin that is not found is refused, unless a hidden one is forced; a platform with
   registered tokens is hidden, unless forced; and anything else is removed.
   */
  lemma DisableIs(config: Config, s: State, t: Ticker, force: bool)
    requires Inv(config, s)
    ensures var (s', r) := DisableCoin(s, t, force);
            var depended := exists u :: u in s.coins && u != t && config(u) == t;
            if Find(s, t) == None && !(t in s.coins && force) then s' == s && r == Err(NoSuchCoin)
            else if depended && !force then
              && r == Ok(true) && s'.tokens == s.tokens && s'.coins.Keys == s.coins.Keys
              && Find(s', t) == None && FindsSame(s, s', {t})
            else
              && r == Ok(false)
              && (forall u :: u in s'.coins <==> u in s.coins && u != t && config(u) != t)
              && (forall u :: u in s'.coins ==> s'.coins[u] == s.coins[u])
  {
    if t in s.coins {
      assert IsRegistered(config, s, t);
      var c := s.coins[t].coin;
      forall u ensures u in GetDependentTokens(s, t) <==> u in s.coins && u != t && config(u) == t {
        DependentIff(config, s, t, u);
      }
      forall u ensures u in RemoveCoin(s, c).coins <==> u in s.coins && u != t && config(u) != t {
        if c.IsPlatform() {
          RemovalIs(config, s, c, u);
        } else {
          RemovalLeavesOthers(s, c, u);
          assert u in s.coins ==> IsRegistered(config, s, u);
        }
      }
      if GetDependentTokens(s, t) != {} {
        var u :| u in GetDependentTokens(s, t);
        assert IsRegistered(config, s, u);
      }
    }
  }

  lemma DependentIff(config: Config, s: State, p: Ticker, t: Ticker)
    requires TokensInv(config, s)
    ensures t in GetDependentTokens(s, p) <==> t in s.coins && t != p && config(t) == p
  {
    if p in s.tokens {
      assert ListsOwnTokens(config, s, p);
    }
    if t in s.coins && config(t) != t {
      assert IsListed(config, s, t);
    }
  }

  // ---------------------------------------------------------------------------------------
  // Which coins are hidden
  // ---------------------------------------------------------------------------------------

  /** The coin is registered, but not found. */
  predicate IsHidden(s: State, p: Ticker) {
    p in s.coins && Find(s, p) == None
  }

  /** The operation makes the platform passive: it is disabled, not forced, and has registered tokens. */
  predicate MakesPassive(s: State, op: RaceOp, p: Ticker) {
    && op == Atomic(OpDisable(p, false)) && Find(s, p).Some? && GetDependentTokens(s, p) != {}
  }

  /** The operation activates the platform, or removes it. */
  predicate Unhides(op: RaceOp, p: Ticker) {
    match op
    case Atomic(OpAddPlatform(c, _, _)) => c.ticker == p
    case Atomic(OpRemove(c)) => c.ticker == p
    case Atomic(OpDisable(t, force)) => t == p && force
    case _ => false
  }

  lemma RemovalHides(config: Config, s: State, c: Coin, p: Ticker)
    requires TokensInv(config, s) && Configured(config, c)
    ensures IsHidden(RemoveCoin(s, c), p) <==> IsHidden(s, p) && p != c.ticker
  {
    if IsHidden(s, p) {
      assert IsRegistered(config, s, p);
      if c.IsPlatform() {
        RemovalIs(config, s, c, p);
      }
    }
  }

  lemma ActivationHides(config: Config, s: State, platform: Coin, tokens: seq<Coin>, nft: Option<Coin>, p: Ticker)
    requires TokensInv(config, s) && Allowed(config, s, OpAddPlatform(platform, tokens, nft))
    ensures IsHidden(AddPlatformWithTokens(s, platform, tokens, nft).0, p) <==> IsHidden(s, p) && p != platform.ticker
  {
    ActivatesIff(s, platform, tokens, nft);
    if Find(s, platform.ticker) == None {
      var s' := AddPlatformWithTokens(s, platform, tokens, nft).0;
      ActivatedPlatformIsFound(config, s, platform, tokens, nft);
      ActivatedCoins(s, platform, tokens, nft);
      ActivatedAreRegistered(config, s, platform, tokens, nft);
      ActivationLeavesOthers(config, s, platform, tokens, nft);
      if p in s'.coins {
        assert IsRegistered(config, s', p);
      }
      if p in s.coins {
        assert IsRegistered(config, s, p);
      }
    }
  }

  /** A coin becomes hidden only by being made passive, and stays so until it is activated or removed. */
  lemma HiddenStep(config: Config, s: State, op: RaceOp, p: Ticker)
    requires TokensInv(config, s) && AllowedRace(config, s, op)
    ensures IsHidden(ApplyRace(s, op), p) <==> MakesPassive(s, op, p) || (IsHidden(s, p) && !Unhides(op, p))
  {
    match op
    case Begin(_) =>
    case Finish(_) =>
    case Atomic(OpAdd(_)) =>
    case Atomic(OpRegister(_)) =>
    case Atomic(OpAddPlatform(c, ts, nft)) => ActivationHides(config, s, c, ts, nft, p);
    case Atomic(OpRemove(c)) => RemovalHides(config, s, c, p);
    case Atomic(OpDisable(t, force)) =>
      if t in s.coins {
        assert IsRegistered(config, s, t);
        RemovalHides(config, s, s.coins[t].coin, p);
        if GetDependentTokens(s, t) != {} {
          var u :| u in GetDependentTokens(s, t);
          DependentIff(config, s, t, u);
          assert IsRegistered(config, s, u);
        }
      }
  }

  /** Step i makes the platform passive, and nothing activates or removes it after that. */
  ghost predicate StaysPassive(s: State, ops: seq<RaceOp>, i: nat, p: Ticker)
    requires i < |ops|
  {
    MakesPassive(After(s, ops[..i]), ops[i], p) && forall j :: i < j < |ops| ==> !Unhides(ops[j], p)
  }

  ghost predicate IsPassive(s: State, ops: seq<RaceOp>, p: Ticker) {
    exists i :: 0 <= i < |ops| && StaysPassive(s, ops, i, p)
  }

  lemma PassiveNext(s: State, ops: seq<RaceOp>, op: RaceOp, p: Ticker)
    ensures IsPassive(s, ops + [op], p)
       <==> MakesPassive(After(s, ops), op, p) || (IsPassive(s, ops, p) && !Unhides(op, p))
  {
    var n, all := |ops|, ops + [op];
    assert all[..n] == ops;
    assert forall i :: 0 <= i < n ==> all[..i] == ops[..i] && all[i] == ops[i];
    if IsPassive(s, ops, p) && !Unhides(op, p) {
      var i :| 0 <= i < n && StaysPassive(s, ops, i, p);
      assert StaysPassive(s, all, i, p);
    }
    if MakesPassive(After(s, ops), op, p) {
      assert StaysPassive(s, all, n, p);
    }
    if IsPassive(s, all, p) {
      var i :| 0 <= i < n + 1 && StaysPassive(s, all, i, p);
      if i < n {
        assert forall j :: i < j < n ==> all[j] == ops[j];
        assert StaysPassive(s, ops, i, p);
        assert all[n] == op;
      }
    }
  }

  /**
   After any race that starts with an empty registry, a registered coin is hidden exactly if it was made
   passive and was not activated or removed since.
   */
  lemma {:induction false} HiddenIff(config: Config, ops: seq<RaceOp>, p: Ticker)
    requires IsRace(config, EMPTY, ops)
    ensures IsHidden(After(EMPTY, ops), p) <==> IsPassive(EMPTY, ops, p)
  {
    if ops != [] {
      var n := |ops| - 1;
      RaceBefore(config, EMPTY, ops);
      HiddenIff(config, ops[..n], p);
      RaceKeepsTokens(config, EMPTY, ops[..n]);
      HiddenStep(config, After(EMPTY, ops[..n]), ops[n], p);
      PassiveNext(EMPTY, ops[..n], ops[n], p);
      assert ops == ops[..n] + [ops[n]];
    }
  }
}

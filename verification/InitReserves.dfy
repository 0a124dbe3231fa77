/**
  Initialising the listed reserves of a market: one interest rate strategy is deployed per strategy
  name that has no address yet, and the reserves are sent to the configurator in batches.
 */
module InitReserves {
  import Chunk
  import opened Options

  datatype Strategy = Strategy(
    name: string,
    optimalUtilizationRate: string,
    baseVariableBorrowRate: string,
    variableRateSlope1: string,
    variableRateSlope2: string,
    stableRateSlope1: string,
    stableRateSlope2: string)

  datatype Reserve = Reserve(symbol: string, strategy: Strategy, elTokenImpl: string, reserveDecimals: string)

  /** What the surroundings provide: configuration, address checks, recorded contracts and new addresses. */
  datatype Environment = Environment(
    addressesProvider: string,
    tokenAddresses: map<string, string>,
    elTokenNamePrefix: string,
    stableDebtTokenNamePrefix: string,
    variableDebtTokenNamePrefix: string,
    symbolPrefix: string,
    treasuryAddress: string,
    incentivesController: string,
    isAddress: string -> bool,
    isZeroAddress: string -> bool,
    recorded: string -> Option<string>,
    deployed: nat -> string)

  datatype Error =
    | TokenUndefined(symbol: string)
    | StrategyUndefined(address: string)
    | NotRecorded(contract: string)
    | ElTokenImplUndefined
    | SdTokenImplUndefined
    | TreasuryUndefined

  datatype Deployment = Deployment(name: string, arguments: seq<string>)

  datatype InitInput = InitInput(
    elTokenImpl: string,
    stableDebtTokenImpl: string,
    variableDebtTokenImpl: string,
    underlyingAssetDecimals: string,
    interestRateStrategyAddress: string,
    underlyingAsset: string,
    treasury: string,
    incentivesController: string,
    underlyingAssetName: string,
    elTokenName: string,
    elTokenSymbol: string,
    variableDebtTokenName: string,
    variableDebtTokenSymbol: string,
    stableDebtTokenName: string,
    stableDebtTokenSymbol: string,
    params: string)

  /** One transaction: the inputs sent and the symbols it reports as ready. */
  datatype Batch = Batch(inputs: seq<InitInput>, symbols: seq<string>)

  const INIT_CHUNKS: nat := 1

  /** A missing entry and an empty one are both falsy. */
  function AddressOf(addresses: map<string, string>, key: string): string {
    if key in addresses then addresses[key] else ""
  }

  predicate NotFalsyOrZeroAddress(env: Environment, address: string) {
    address != "" && env.isAddress(address) && !env.isZeroAddress(address)
  }

  predicate Listed(env: Environment, reserve: Reserve) {
    AddressOf(env.tokenAddresses, reserve.symbol) != ""
  }

  function StrategyArguments(env: Environment, s: Strategy): seq<string> {
    [env.addressesProvider, s.optimalUtilizationRate, s.baseVariableBorrowRate, s.variableRateSlope1,
     s.variableRateSlope2, s.stableRateSlope1, s.stableRateSlope2]
  }

  /** The error of a contract that is not recorded, or recorded with an unusable address. */
  function ImplError(env: Environment, contract: string, unusable: Error): Option<Error> {
    match env.recorded(contract)
    case None => Some(NotRecorded(contract))
    case Some(address) => if NotFalsyOrZeroAddress(env, address) then None else Some(unusable)
  }

  function ImplAddress(env: Environment, contract: string): string {
    match env.recorded(contract)
    case None => ""
    case Some(address) => address
  }

  /** The first check that a listed reserve fails, given the address cached for its strategy. */
  function Refusal(env: Environment, reserve: Reserve, strategyAddress: string): Option<Error> {
    if !NotFalsyOrZeroAddress(env, AddressOf(env.tokenAddresses, reserve.symbol)) then Some(TokenUndefined(reserve.symbol))
    else if !NotFalsyOrZeroAddress(env, strategyAddress) then Some(StrategyUndefined(strategyAddress))
    else
      var elToken := ImplError(env, reserve.elTokenImpl, ElTokenImplUndefined);
      var sdToken := ImplError(env, "StableDebtToken", SdTokenImplUndefined);
      var vdToken := ImplError(env, "VariableDebtToken", ElTokenImplUndefined);
      if elToken.Some? then elToken
      else if sdToken.Some? then sdToken
      else if vdToken.Some? then vdToken
      else if !NotFalsyOrZeroAddress(env, env.treasuryAddress) then Some(TreasuryUndefined)
      else None
  }

  function InputFor(env: Environment, reserve: Reserve, strategyAddress: string): InitInput {
    var symbol := reserve.symbol;
    InitInput(
      ImplAddress(env, reserve.elTokenImpl),
      ImplAddress(env, "StableDebtToken"),
      ImplAddress(env, "VariableDebtToken"),
      reserve.reserveDecimals,
      strategyAddress,
      AddressOf(env.tokenAddresses, symbol),
      env.treasuryAddress,
      env.incentivesController,
      symbol,
      env.elTokenNamePrefix + " " + symbol,
      "l" + env.symbolPrefix + symbol,
      env.variableDebtTokenNamePrefix + " " + env.symbolPrefix + symbol,
      "vd" + env.symbolPrefix + symbol,
      env.stableDebtTokenNamePrefix + " " + symbol,
      "sd" + env.symbolPrefix + symbol,
      "0x10")
  }

  // ---------- the loop over the reserves ----------

  datatype Progress = Progress(
    strategies: map<string, string>,
    rateStrategies: map<string, seq<string>>,
    deployments: seq<Deployment>,
    reserveSymbols: seq<string>,
    initInputParams: seq<InitInput>,
    error: Option<Error>)

  /** The cache after a reserve has asked for its strategy. */
  function WithStrategy(env: Environment, p: Progress, s: Strategy): Progress {
    if AddressOf(p.strategies, s.name) != "" then p
    else
      var arguments := StrategyArguments(env, s);
      p.(rateStrategies := p.rateStrategies[s.name := arguments],
         strategies := p.strategies[s.name := env.deployed(|p.deployments|)],
         deployments := p.deployments + [Deployment(s.name, arguments)])
  }

  function Visit(env: Environment, p: Progress, reserve: Reserve): Progress {
    if p.error.Some? || !Listed(env, reserve) then p
    else
      var q := WithStrategy(env, p, reserve.strategy);
      var address := AddressOf(q.strategies, reserve.strategy.name);
      match Refusal(env, reserve, address)
      case Some(error) => q.(error := Some(error))
      case None =>
        q.(reserveSymbols := q.reserveSymbols + [reserve.symbol],
           initInputParams := q.initInputParams + [InputFor(env, reserve, address)])
  }

  function Started(given: map<string, string>): Progress {
    Progress(given, map[], [], [], [], None)
  }

  /** After the first `n` reserves; once an error is thrown nothing more happens. */
  function VisitUpTo(env: Environment, given: map<string, string>, reserves: seq<Reserve>, n: nat): Progress
    requires n <= |reserves|
  {
    if n == 0 then Started(given) else Visit(env, VisitUpTo(env, given, reserves, n - 1), reserves[n - 1])
  }

  lemma {:induction false} ErrorsStay(env: Environment, given: map<string, string>, reserves: seq<Reserve>, m: nat, n: nat)
    requires m <= n <= |reserves| && VisitUpTo(env, given, reserves, m).error.Some?
    ensures VisitUpTo(env, given, reserves, n) == VisitUpTo(env, given, reserves, m)
    decreases n
  {
    if m < n {
      ErrorsStay(env, given, reserves, m, n - 1);
    }
  }

  function BatchesOf(p: Progress): seq<Batch>
    requires |p.reserveSymbols| == |p.initInputParams|
  {
    if p.error.Some? then []
    else
      var symbols, inputs := Chunk.ChunksOf(p.reserveSymbols, INIT_CHUNKS), Chunk.ChunksOf(p.initInputParams, INIT_CHUNKS);
      Chunk.ChunksAlign(p.reserveSymbols, p.initInputParams, INIT_CHUNKS);
      seq(|inputs|, j requires 0 <= j < |inputs| => Batch(inputs[j], symbols[j]))
  }

  /** The deployment script: the caller's cache of strategy addresses, and what the last call has done on chain. */
  class Initializer {
    var strategies: map<string, string>
    var rateStrategies: map<string, seq<string>>
    var deployments: seq<Deployment>
    var reserveSymbols: seq<string>
    var initInputParams: seq<InitInput>
    var sent: seq<Batch>

    constructor (strategyAddresses: Option<map<string, string>>)
      ensures strategies == if strategyAddresses.Some? then strategyAddresses.value else map[]
      ensures deployments == [] && sent == []
    {
      strategies := if strategyAddresses.Some? then strategyAddresses.value else map[];
      rateStrategies, deployments, reserveSymbols, initInputParams, sent := map[], [], [], [], [];
    }

    function Seen(error: Option<Error>): Progress
      reads this
    {
      Progress(strategies, rateStrategies, deployments, reserveSymbols, initInputParams, error)
    }

    /** Visits the reserves in order, then sends the collected inputs in batches unless a check failed. */
    method InitReserves(env: Environment, reserves: seq<Reserve>) returns (error: Option<Error>)
      modifies this
      ensures Seen(error) == VisitUpTo(env, old(strategies), reserves, |reserves|)
      ensures |reserveSymbols| == |initInputParams|
      ensures sent == BatchesOf(Seen(error))
    {
      hide WithStrategy, Refusal, InputFor;
      error := None;
      reserveSymbols, initInputParams, rateStrategies := [], [], map[];
      deployments, sent := [], [];
      for i := 0 to |reserves|
        invariant error == None
        invariant Seen(None) == VisitUpTo(env, old(strategies), reserves, i)
        invariant |reserveSymbols| == |initInputParams|
        invariant sent == []
      {
        var reserve := reserves[i];
        if AddressOf(env.tokenAddresses, reserve.symbol) == "" {
          continue;
        }
        error := CollectReserve(env, reserve);
        if error.Some? {
          ErrorsStay(env, old(strategies), reserves, i + 1, |reserves|);
          return;
        }
      }
      SendBatches();
    }

    /** The rest of the loop body for a listed reserve: get its strategy, check, and collect its inputs. */
    method CollectReserve(env: Environment, reserve: Reserve) returns (error: Option<Error>)
      requires Listed(env, reserve) && |reserveSymbols| == |initInputParams|
      modifies this`strategies, this`rateStrategies, this`deployments, this`reserveSymbols, this`initInputParams
      ensures Seen(error) == Visit(env, old(Seen(None)), reserve)
      ensures |reserveSymbols| == |initInputParams|
    {
      hide Refusal, InputFor, StrategyArguments;
      var strategy := reserve.strategy;
      if AddressOf(strategies, strategy.name) == "" {
        rateStrategies := rateStrategies[strategy.name := StrategyArguments(env, strategy)];
        strategies := strategies[strategy.name := env.deployed(|deployments|)];
        deployments := deployments + [Deployment(strategy.name, rateStrategies[strategy.name])];
      }
      error := Refusal(env, reserve, strategies[strategy.name]);
      if error.Some? {
        return;
      }
      reserveSymbols := reserveSymbols + [reserve.symbol];
      initInputParams := initInputParams + [InputFor(env, reserve, strategies[strategy.name])];
    }

    method SendBatches()
      requires |reserveSymbols| == |initInputParams| && sent == []
      modifies `sent
      ensures sent == BatchesOf(Seen(None))
    {
      hide Chunk.ChunksOf;
      var chunkedSymbols := Chunk.ChunksOf(reserveSymbols, INIT_CHUNKS);
      var chunkedInitInputParams := Chunk.ChunksOf(initInputParams, INIT_CHUNKS);
      Chunk.ChunksAlign(reserveSymbols, initInputParams, INIT_CHUNKS);
      for chunkIndex := 0 to |chunkedInitInputParams|
        invariant sent == BatchesOf(Seen(None))[..chunkIndex]
      {
        sent := sent + [Batch(chunkedInitInputParams[chunkIndex], chunkedSymbols[chunkIndex])];
      }
    }
  }

  // ---------- what a strategy and a reserve are initialised with ----------

  /** Reads the arguments of the strategy's constructor by position, after the provider. */
  function StrategyFrom(name: string, arguments: seq<string>): Strategy
    requires |arguments| == 7
  {
    Strategy(name, arguments[1], arguments[2], arguments[3], arguments[4], arguments[5], arguments[6])
  }

  /** The constructor's arguments are the provider and, position by position, the parameters of the strategy. */
  lemma ArgumentsTellStrategy(env: Environment, s: Strategy)
    ensures var arguments := StrategyArguments(env, s);
      |arguments| == 7 && arguments[0] == env.addressesProvider && StrategyFrom(s.name, arguments) == s
  {
  }

  /** The refusal is that of the first check that fails, in the order in which they are made. */
  lemma RefusalIff(env: Environment, reserve: Reserve, strategyAddress: string)
    ensures var refusal := Refusal(env, reserve, strategyAddress);
      var token := NotFalsyOrZeroAddress(env, AddressOf(env.tokenAddresses, reserve.symbol));
      var strategy := NotFalsyOrZeroAddress(env, strategyAddress);
      var el, sd := ImplUsable(env, reserve.elTokenImpl), ImplUsable(env, "StableDebtToken");
      var vd, treasury := ImplUsable(env, "VariableDebtToken"), NotFalsyOrZeroAddress(env, env.treasuryAddress);
      && (refusal.None? <==> token && strategy && el && sd && vd && treasury)
      && (refusal == Some(TokenUndefined(reserve.symbol)) <==> !token)
      && (refusal == Some(StrategyUndefined(strategyAddress)) <==> token && !strategy)
      && (token && strategy && !el ==>
            refusal == Some(if env.recorded(reserve.elTokenImpl).Some? then ElTokenImplUndefined else NotRecorded(reserve.elTokenImpl)))
      && (token && strategy && el && !sd ==>
            refusal == Some(if env.recorded("StableDebtToken").Some? then SdTokenImplUndefined else NotRecorded("StableDebtToken")))
      && (token && strategy && el && sd && !vd ==>
            refusal == Some(if env.recorded("VariableDebtToken").Some? then ElTokenImplUndefined else NotRecorded("VariableDebtToken")))
      && (refusal == Some(TreasuryUndefined) <==> token && strategy && el && sd && vd && !treasury)
  {
    hide NotFalsyOrZeroAddress, AddressOf;
  }

  /** The contract is recorded with a usable address. */
  predicate ImplUsable(env: Environment, contract: string) {
    env.recorded(contract).Some? && NotFalsyOrZeroAddress(env, env.recorded(contract).value)
  }

  /** A reserve that is not refused is sent with the addresses that were checked: all recorded, and all usable. */
  lemma InputIsChecked(env: Environment, reserve: Reserve, strategyAddress: string)
    requires Refusal(env, reserve, strategyAddress).None?
    ensures var input := InputFor(env, reserve, strategyAddress);
      && env.recorded(reserve.elTokenImpl) == Some(input.elTokenImpl)
      && env.recorded("StableDebtToken") == Some(input.stableDebtTokenImpl)
      && env.recorded("VariableDebtToken") == Some(input.variableDebtTokenImpl)
      && reserve.symbol in env.tokenAddresses && env.tokenAddresses[reserve.symbol] == input.underlyingAsset
      && input.interestRateStrategyAddress == strategyAddress && input.treasury == env.treasuryAddress
      && input.incentivesController == env.incentivesController
      && (forall address :: address in [input.elTokenImpl, input.stableDebtTokenImpl, input.variableDebtTokenImpl,
                                        input.underlyingAsset, input.interestRateStrategyAddress, input.treasury]
            ==> address != "" && env.isAddress(address) && !env.isZeroAddress(address))
      && input.params == "0x10"
      && input.underlyingAssetDecimals == reserve.reserveDecimals && input.underlyingAssetName == reserve.symbol
  {
  }

  lemma SuffixesDiffer(prefix: string, s: string, t: string)
    requires s != t
    ensures prefix + s != prefix + t
  {
    assert (prefix + s)[|prefix|..] == s && (prefix + t)[|prefix|..] == t;
  }

  lemma FirstCharacter(a: string, b: string, c: string)
    requires a != ""
    ensures (a + b + c)[0] == a[0]
  {
  }

  /** No two tokens of a market share a name of their kind or, of whatever kind, a symbol. */
  lemma TokensTellApart(env: Environment, r1: Reserve, r2: Reserve, s1: string, s2: string)
    ensures var a, b := InputFor(env, r1, s1), InputFor(env, r2, s2);
      && (r1.symbol != r2.symbol ==>
            && a.elTokenName != b.elTokenName && a.elTokenSymbol != b.elTokenSymbol
            && a.variableDebtTokenName != b.variableDebtTokenName && a.variableDebtTokenSymbol != b.variableDebtTokenSymbol
            && a.stableDebtTokenName != b.stableDebtTokenName && a.stableDebtTokenSymbol != b.stableDebtTokenSymbol)
      && a.elTokenSymbol != b.variableDebtTokenSymbol && a.elTokenSymbol != b.stableDebtTokenSymbol
      && a.variableDebtTokenSymbol != b.stableDebtTokenSymbol
  {
    hide ImplAddress, AddressOf;
    if r1.symbol != r2.symbol {
      SuffixesDiffer(env.elTokenNamePrefix + " ", r1.symbol, r2.symbol);
      SuffixesDiffer("l" + env.symbolPrefix, r1.symbol, r2.symbol);
      SuffixesDiffer(env.variableDebtTokenNamePrefix + " " + env.symbolPrefix, r1.symbol, r2.symbol);
      SuffixesDiffer("vd" + env.symbolPrefix, r1.symbol, r2.symbol);
      SuffixesDiffer(env.stableDebtTokenNamePrefix + " ", r1.symbol, r2.symbol);
      SuffixesDiffer("sd" + env.symbolPrefix, r1.symbol, r2.symbol);
    }
    FirstCharacter("l", env.symbolPrefix, r1.symbol);
    FirstCharacter("vd", env.symbolPrefix, r1.symbol);
    FirstCharacter("vd", env.symbolPrefix, r2.symbol);
    FirstCharacter("sd", env.symbolPrefix, r2.symbol);
  }

  /** The names and symbols that the shipped configuration gives the tokens of one asset, with a symbol prefix for comparison. */
  lemma ShippedNames(env: Environment, reserve: Reserve, address: string)
    requires reserve.symbol == "WETN" && env.elTokenNamePrefix == "ElectroLend interest bearing"
    requires env.stableDebtTokenNamePrefix == "ElectroLend stable debt bearing"
    requires env.variableDebtTokenNamePrefix == "ElectroLend variable debt bearing"
    ensures var input := InputFor(env, reserve, address);
      && input.elTokenName == "ElectroLend interest bearing WETN"
      && input.stableDebtTokenName == "ElectroLend stable debt bearing WETN"
      && (env.symbolPrefix == "" ==>
            input.variableDebtTokenName == "ElectroLend variable debt bearing WETN"
            && input.elTokenSymbol == "lWETN" && input.stableDebtTokenSymbol == "sdWETN" && input.variableDebtTokenSymbol == "vdWETN")
      && (env.symbolPrefix == "x" ==>
            input.variableDebtTokenName == "ElectroLend variable debt bearing xWETN"
            && input.elTokenSymbol == "lxWETN" && input.stableDebtTokenSymbol == "sdxWETN" && input.variableDebtTokenSymbol == "vdxWETN")
  {
  }

  // ---------- one deployment per missing strategy name ----------

  /** The reserve is listed and uses the strategy name. */
  predicate Uses(env: Environment, reserves: seq<Reserve>, k: nat, name: string)
    requires k < |reserves|
  {
    Listed(env, reserves[k]) && reserves[k].strategy.name == name
  }

  predicate UsedBefore(env: Environment, reserves: seq<Reserve>, n: nat, name: string)
    requires n <= |reserves|
  {
    exists j: nat :: j < n && Uses(env, reserves, j, name)
  }

  /** The reserve is the first listed one to use a strategy name that was not supplied. */
  predicate FirstUse(env: Environment, given: map<string, string>, reserves: seq<Reserve>, k: nat)
    requires k < |reserves|
  {
    && Listed(env, reserves[k])
    && AddressOf(given, reserves[k].strategy.name) == ""
    && !UsedBefore(env, reserves, k, reserves[k].strategy.name)
  }

  function FirstUses(env: Environment, given: map<string, string>, reserves: seq<Reserve>, n: nat): (uses: seq<nat>)
    requires n <= |reserves|
    ensures forall i :: 0 <= i < |uses| ==> uses[i] < n && FirstUse(env, given, reserves, uses[i])
  {
    if n == 0 then []
    else
      var before := FirstUses(env, given, reserves, n - 1);
      if FirstUse(env, given, reserves, n - 1) then before + [n - 1] else before
  }

  lemma {:induction false} FirstUsesHasAll(env: Environment, given: map<string, string>, reserves: seq<Reserve>, n: nat)
    requires n <= |reserves|
    ensures forall k: nat :: k < n && FirstUse(env, given, reserves, k) ==> k in FirstUses(env, given, reserves, n)
    ensures forall i, j :: 0 <= i < j < |FirstUses(env, given, reserves, n)| ==>
      FirstUses(env, given, reserves, n)[i] < FirstUses(env, given, reserves, n)[j]
  {
    hide FirstUse;
    if n > 0 {
      FirstUsesHasAll(env, given, reserves, n - 1);
    }
  }

  /** What asking for a strategy does to the cache: only an empty entry of that name is filled, with the next address. */
  lemma CacheAfter(env: Environment, p: Progress, s: Strategy)
    ensures var q := WithStrategy(env, p, s);
      && (forall name :: name != s.name ==> AddressOf(q.strategies, name) == AddressOf(p.strategies, name))
      && AddressOf(q.strategies, s.name)
        == (if AddressOf(p.strategies, s.name) != "" then AddressOf(p.strategies, s.name) else env.deployed(|p.deployments|))
  {
  }

  /** What a reserve that is not refused does: its strategy's address is usable, and only its strategy may be deployed. */
  lemma VisitFacts(env: Environment, p: Progress, reserve: Reserve)
    requires p.error.None? && Visit(env, p, reserve).error.None?
    ensures var q := Visit(env, p, reserve);
      && (!Listed(env, reserve) ==> q == p)
      && (Listed(env, reserve) ==>
        && q.strategies == WithStrategy(env, p, reserve.strategy).strategies
        && q.deployments == WithStrategy(env, p, reserve.strategy).deployments
        && NotFalsyOrZeroAddress(env, AddressOf(q.strategies, reserve.strategy.name)))
  {
    hide InputFor, ImplError, StrategyArguments;
  }

  /**
    A refused reserve stops the script with its first failing check and without a transaction; nothing is
    collected for it, but its strategy has been deployed if it had no address.
   */
  lemma RefusedVisit(env: Environment, p: Progress, reserve: Reserve)
    requires |p.reserveSymbols| == |p.initInputParams| && p.error.None? && Listed(env, reserve)
    requires Visit(env, p, reserve).error.Some?
    ensures var q := Visit(env, p, reserve);
      && q.error == Refusal(env, reserve, AddressOf(q.strategies, reserve.strategy.name))
      && q.reserveSymbols == p.reserveSymbols && q.initInputParams == p.initInputParams && BatchesOf(q) == []
      && (AddressOf(p.strategies, reserve.strategy.name) == "" ==>
            q.deployments == p.deployments + [Deployment(reserve.strategy.name, StrategyArguments(env, reserve.strategy))]
            && AddressOf(q.strategies, reserve.strategy.name) == env.deployed(|p.deployments|))
      && (AddressOf(p.strategies, reserve.strategy.name) != "" ==> q.deployments == p.deployments && q.strategies == p.strategies)
  {
    hide Refusal, InputFor, StrategyArguments;
  }

  /** What the cache holds after `n` reserves: used names have a usable address, supplied and unused names keep theirs. */
  predicate CacheKept(env: Environment, given: map<string, string>, strategies: map<string, string>, used: bool, name: string) {
    && (used ==> NotFalsyOrZeroAddress(env, AddressOf(strategies, name)))
    && (AddressOf(given, name) != "" || !used ==> AddressOf(strategies, name) == AddressOf(given, name))
  }

  lemma {:induction false} CacheIsKept(env: Environment, given: map<string, string>, reserves: seq<Reserve>, n: nat, name: string)
    requires n <= |reserves| && VisitUpTo(env, given, reserves, n).error.None?
    ensures CacheKept(env, given, VisitUpTo(env, given, reserves, n).strategies, UsedBefore(env, reserves, n, name), name)
  {
    hide Visit, WithStrategy, Listed, AddressOf, NotFalsyOrZeroAddress;
    if n > 0 {
      var p, reserve := VisitUpTo(env, given, reserves, n - 1), reserves[n - 1];
      NoEarlierError(env, given, reserves, n - 1);
      CacheIsKept(env, given, reserves, n - 1, name);
      VisitFacts(env, p, reserve);
      CacheAfter(env, p, reserve.strategy);
      UsedOneMore(env, reserves, n - 1, name);
    }
  }

  lemma NoEarlierError(env: Environment, given: map<string, string>, reserves: seq<Reserve>, k: nat)
    requires k < |reserves| && VisitUpTo(env, given, reserves, k + 1).error.None?
    ensures VisitUpTo(env, given, reserves, k).error.None?
  {
  }

  lemma UsedOneMore(env: Environment, reserves: seq<Reserve>, k: nat, name: string)
    requires k < |reserves|
    ensures UsedBefore(env, reserves, k + 1, name) <==> UsedBefore(env, reserves, k, name) || Uses(env, reserves, k, name)
  {
    hide Uses;
    if UsedBefore(env, reserves, k, name) {
      var j: nat :| j < k && Uses(env, reserves, j, name);
      assert j < k + 1;
    }
  }

  /** A reserve finds no address for its strategy exactly when it is the first to use a missing name. */
  lemma MissesIffFirstUse(env: Environment, given: map<string, string>, reserves: seq<Reserve>, k: nat)
    requires k < |reserves| && VisitUpTo(env, given, reserves, k).error.None? && Listed(env, reserves[k])
    ensures AddressOf(VisitUpTo(env, given, reserves, k).strategies, reserves[k].strategy.name) == ""
      <==> FirstUse(env, given, reserves, k)
  {
    hide VisitUpTo, AddressOf, UsedBefore;
    CacheIsKept(env, given, reserves, k, reserves[k].strategy.name);
  }

  /** The i-th deployment is that of the i-th first use, and its name is cached under the i-th new address. */
  predicate DeployedAt(env: Environment, strategy: Strategy, p: Progress, i: nat)
    requires i < |p.deployments|
  {
    && p.deployments[i] == Deployment(strategy.name, StrategyArguments(env, strategy))
    && AddressOf(p.strategies, strategy.name) == env.deployed(i)
  }

  lemma NewlyDeployed(env: Environment, given: map<string, string>, reserves: seq<Reserve>, k: nat)
    requires k < |reserves| && VisitUpTo(env, given, reserves, k + 1).error.None?
    ensures var p, q := VisitUpTo(env, given, reserves, k), VisitUpTo(env, given, reserves, k + 1);
      && |q.deployments| == |p.deployments| + (if FirstUse(env, given, reserves, k) then 1 else 0)
      && (FirstUse(env, given, reserves, k) ==> DeployedAt(env, reserves[k].strategy, q, |p.deployments|))
  {
    hide StrategyArguments, UsedBefore, Visit, NotFalsyOrZeroAddress;
    NoEarlierError(env, given, reserves, k);
    VisitFacts(env, VisitUpTo(env, given, reserves, k), reserves[k]);
    if Listed(env, reserves[k]) {
      MissesIffFirstUse(env, given, reserves, k);
    }
  }

  lemma {:induction false} DeploymentsAreFirstUses(env: Environment, given: map<string, string>, reserves: seq<Reserve>, n: nat)
    requires n <= |reserves| && VisitUpTo(env, given, reserves, n).error.None?
    ensures var p, uses := VisitUpTo(env, given, reserves, n), FirstUses(env, given, reserves, n);
      && |p.deployments| == |uses|
      && forall i :: 0 <= i < |uses| ==> DeployedAt(env, reserves[uses[i]].strategy, p, i)
  {
    hide DeployedAt, Visit, UsedBefore, AddressOf, Listed;
    if n > 0 {
      NoEarlierError(env, given, reserves, n - 1);
      DeploymentsAreFirstUses(env, given, reserves, n - 1);
      NewlyDeployed(env, given, reserves, n - 1);
      var q, before := VisitUpTo(env, given, reserves, n), FirstUses(env, given, reserves, n - 1);
      forall i | 0 <= i < |before| ensures DeployedAt(env, reserves[before[i]].strategy, q, i) {
        StillDeployed(env, given, reserves, n - 1, before[i], i);
      }
    }
  }

  /** The arguments kept for the strategies are those of the deployments, and of nothing else. */
  ghost predicate KeepsArguments(p: Progress) {
    forall name :: name in p.rateStrategies <==> exists i :: 0 <= i < |p.deployments| && p.deployments[i].name == name
  }

  ghost predicate ArgumentsDeployed(p: Progress) {
    forall name :: name in p.rateStrategies ==>
      exists i :: 0 <= i < |p.deployments| && p.deployments[i] == Deployment(name, p.rateStrategies[name])
  }

  lemma {:induction false} RateStrategiesAreDeployed(env: Environment, given: map<string, string>, reserves: seq<Reserve>, n: nat)
    requires n <= |reserves|
    ensures KeepsArguments(VisitUpTo(env, given, reserves, n)) && ArgumentsDeployed(VisitUpTo(env, given, reserves, n))
  {
    hide StrategyArguments, Refusal, InputFor, Listed, AddressOf;
    if n > 0 {
      var p, q := VisitUpTo(env, given, reserves, n - 1), VisitUpTo(env, given, reserves, n);
      RateStrategiesAreDeployed(env, given, reserves, n - 1);
      if |q.deployments| > |p.deployments| {
        OneMoreDeployed(p, q);
      }
    }
  }

  lemma OneMoreDeployed(p: Progress, q: Progress)
    requires KeepsArguments(p) && ArgumentsDeployed(p) && |q.deployments| == |p.deployments| + 1
    requires q.deployments[..|p.deployments|] == p.deployments
    requires var d := q.deployments[|p.deployments|]; q.rateStrategies == p.rateStrategies[d.name := d.arguments]
    ensures KeepsArguments(q) && ArgumentsDeployed(q)
  {
    var k := |p.deployments|;
    assert forall i :: 0 <= i < k ==> q.deployments[i] == p.deployments[i];
    forall name | name in q.rateStrategies
      ensures exists i :: 0 <= i < |q.deployments| && q.deployments[i] == Deployment(name, q.rateStrategies[name])
    {
      if name == q.deployments[k].name {
        assert q.deployments[k] == Deployment(name, q.rateStrategies[name]);
      } else {
        var i :| 0 <= i < k && p.deployments[i] == Deployment(name, p.rateStrategies[name]);
        assert q.deployments[i] == Deployment(name, q.rateStrategies[name]);
      }
    }
    forall name ensures name in q.rateStrategies <==> exists i :: 0 <= i < |q.deployments| && q.deployments[i].name == name {
      if i :| 0 <= i < |q.deployments| && q.deployments[i].name == name {
        if i < k {
          assert p.deployments[i].name == name;
        }
      }
    }
  }

  /** A cached address is never replaced by a later reserve. */
  lemma StillDeployed(env: Environment, given: map<string, string>, reserves: seq<Reserve>, k: nat, use: nat, i: nat)
    requires use < k < |reserves| && VisitUpTo(env, given, reserves, k + 1).error.None? && Listed(env, reserves[use])
    requires i < |VisitUpTo(env, given, reserves, k).deployments|
    requires DeployedAt(env, reserves[use].strategy, VisitUpTo(env, given, reserves, k), i)
    ensures i < |VisitUpTo(env, given, reserves, k + 1).deployments|
    ensures DeployedAt(env, reserves[use].strategy, VisitUpTo(env, given, reserves, k + 1), i)
  {
    hide Visit, StrategyArguments, Listed;
    var p, name := VisitUpTo(env, given, reserves, k), reserves[use].strategy.name;
    NoEarlierError(env, given, reserves, k);
    CacheIsKept(env, given, reserves, k, name);
    assert Uses(env, reserves, use, name);
    VisitFacts(env, p, reserves[k]);
  }

  lemma {:induction false} SomeUseIsFirst(env: Environment, given: map<string, string>, reserves: seq<Reserve>, k: nat)
    returns (first: nat)
    requires k < |reserves| && Listed(env, reserves[k]) && AddressOf(given, reserves[k].strategy.name) == ""
    ensures first <= k && FirstUse(env, given, reserves, first) && reserves[first].strategy.name == reserves[k].strategy.name
    decreases k
  {
    first := k;
    if UsedBefore(env, reserves, k, reserves[k].strategy.name) {
      var j: nat :| j < k && Uses(env, reserves, j, reserves[k].strategy.name);
      first := SomeUseIsFirst(env, given, reserves, j);
    }
  }

  /** A run that throws nothing deploys a name if and only if it was not supplied and a listed reserve uses it. */
  lemma DeployedIffMissing(env: Environment, given: map<string, string>, reserves: seq<Reserve>, name: string)
    requires VisitUpTo(env, given, reserves, |reserves|).error.None?
    ensures var deployments := VisitUpTo(env, given, reserves, |reserves|).deployments;
      (exists i :: 0 <= i < |deployments| && deployments[i].name == name)
      <==> (AddressOf(given, name) == "" && UsedBefore(env, reserves, |reserves|, name))
  {
    hide VisitUpTo, StrategyArguments, AddressOf;
    var n := |reserves|;
    var deployments, uses := VisitUpTo(env, given, reserves, n).deployments, FirstUses(env, given, reserves, n);
    DeploymentsAreFirstUses(env, given, reserves, n);
    forall i | 0 <= i < |uses| && deployments[i].name == name
      ensures AddressOf(given, name) == "" && UsedBefore(env, reserves, n, name)
    {
      assert DeployedAt(env, reserves[uses[i]].strategy, VisitUpTo(env, given, reserves, n), i);
      assert Uses(env, reserves, uses[i], name);
    }
    if AddressOf(given, name) == "" && UsedBefore(env, reserves, n, name) {
      var k: nat :| k < n && Uses(env, reserves, k, name);
      var first := SomeUseIsFirst(env, given, reserves, k);
      FirstUsesHasAll(env, given, reserves, n);
      var i :| 0 <= i < |uses| && uses[i] == first;
      assert DeployedAt(env, reserves[uses[i]].strategy, VisitUpTo(env, given, reserves, n), i);
    }
  }

  /** No name is deployed twice. */
  lemma NothingDeployedTwice(env: Environment, given: map<string, string>, reserves: seq<Reserve>, i: nat, j: nat)
    requires VisitUpTo(env, given, reserves, |reserves|).error.None?
    requires i < j < |VisitUpTo(env, given, reserves, |reserves|).deployments|
    ensures VisitUpTo(env, given, reserves, |reserves|).deployments[i].name
      != VisitUpTo(env, given, reserves, |reserves|).deployments[j].name
  {
    hide VisitUpTo, StrategyArguments, AddressOf;
    var n := |reserves|;
    var p, uses := VisitUpTo(env, given, reserves, n), FirstUses(env, given, reserves, n);
    DeploymentsAreFirstUses(env, given, reserves, n);
    FirstUsesHasAll(env, given, reserves, n);
    assert DeployedAt(env, reserves[uses[i]].strategy, p, i) && DeployedAt(env, reserves[uses[j]].strategy, p, j);
    assert FirstUse(env, given, reserves, uses[i]) && FirstUse(env, given, reserves, uses[j]);
    assert uses[i] < uses[j];
    assert Uses(env, reserves, uses[i], reserves[uses[i]].strategy.name);
  }

  /** The caller's own entries survive, and every other entry is one of the deployed addresses. */
  lemma CacheHoldsGivenOrDeployed(env: Environment, given: map<string, string>, reserves: seq<Reserve>, name: string)
    requires VisitUpTo(env, given, reserves, |reserves|).error.None?
    ensures var p := VisitUpTo(env, given, reserves, |reserves|);
      && (AddressOf(given, name) != "" ==> AddressOf(p.strategies, name) == AddressOf(given, name))
      && (AddressOf(given, name) == "" && AddressOf(p.strategies, name) != "" ==>
        exists i :: 0 <= i < |p.deployments| && p.deployments[i].name == name && AddressOf(p.strategies, name) == env.deployed(i))
  {
    hide VisitUpTo, StrategyArguments, AddressOf;
    var n := |reserves|;
    var p, uses := VisitUpTo(env, given, reserves, n), FirstUses(env, given, reserves, n);
    CacheIsKept(env, given, reserves, n, name);
    if AddressOf(given, name) == "" && AddressOf(p.strategies, name) != "" {
      var k: nat :| k < n && Uses(env, reserves, k, name);
      var first := SomeUseIsFirst(env, given, reserves, k);
      FirstUsesHasAll(env, given, reserves, n);
      DeploymentsAreFirstUses(env, given, reserves, n);
      var i :| 0 <= i < |uses| && uses[i] == first;
      assert DeployedAt(env, reserves[uses[i]].strategy, p, i);
    }
  }

  // ---------- what is sent ----------

  function ListedReserves(env: Environment, reserves: seq<Reserve>, n: nat): seq<Reserve>
    requires n <= |reserves|
  {
    if n == 0 then []
    else
      var before := ListedReserves(env, reserves, n - 1);
      if Listed(env, reserves[n - 1]) then before + [reserves[n - 1]] else before
  }

  /** Listed are exactly the reserves whose symbol has a token address. */
  lemma {:induction false} ListedIff(env: Environment, reserves: seq<Reserve>, n: nat, reserve: Reserve)
    requires n <= |reserves|
    ensures reserve in ListedReserves(env, reserves, n)
      <==> reserve in reserves[..n] && reserve.symbol in env.tokenAddresses && env.tokenAddresses[reserve.symbol] != ""
  {
    if n > 0 {
      ListedIff(env, reserves, n - 1, reserve);
      assert reserves[..n] == reserves[..n - 1] + [reserves[n - 1]];
    }
  }

  /** They keep the order in which the reserves are given. */
  lemma {:induction false} ListedInOrder(env: Environment, reserves: seq<Reserve>, m: nat, n: nat)
    requires m <= n <= |reserves|
    ensures ListedReserves(env, reserves, m) <= ListedReserves(env, reserves, n)
    ensures |ListedReserves(env, reserves, n)| <= |ListedReserves(env, reserves, m)| + (n - m)
    decreases n
  {
    hide Listed;
    if m < n {
      ListedInOrder(env, reserves, m, n - 1);
    }
  }

  /** Symbols and inputs follow the listed reserves, and every input carries the address its strategy name has in the cache. */
  ghost predicate Aligned(env: Environment, listed: seq<Reserve>, p: Progress) {
    && |p.reserveSymbols| == |p.initInputParams| == |listed|
    && forall k :: 0 <= k < |listed| ==>
      && p.reserveSymbols[k] == listed[k].symbol
      && p.initInputParams[k] == InputFor(env, listed[k], AddressOf(p.strategies, listed[k].strategy.name))
      && AddressOf(p.strategies, listed[k].strategy.name) != ""
  }

  lemma {:induction false} InputsFollowListedReserves(env: Environment, given: map<string, string>, reserves: seq<Reserve>, n: nat)
    requires n <= |reserves| && VisitUpTo(env, given, reserves, n).error.None?
    ensures Aligned(env, ListedReserves(env, reserves, n), VisitUpTo(env, given, reserves, n))
  {
    hide InputFor, StrategyArguments, ImplError, Listed;
    if n > 0 {
      InputsFollowListedReserves(env, given, reserves, n - 1);
      NoEarlierError(env, given, reserves, n - 1);
      CacheAfter(env, VisitUpTo(env, given, reserves, n - 1), reserves[n - 1].strategy);
    }
  }

  /** A reserve passes every check except, when its strategy has to be deployed, the one on the new address. */
  ghost predicate Ready(env: Environment, given: map<string, string>, reserve: Reserve) {
    && NotFalsyOrZeroAddress(env, AddressOf(env.tokenAddresses, reserve.symbol))
    && ImplError(env, reserve.elTokenImpl, ElTokenImplUndefined).None?
    && ImplError(env, "StableDebtToken", SdTokenImplUndefined).None?
    && ImplError(env, "VariableDebtToken", ElTokenImplUndefined).None?
    && NotFalsyOrZeroAddress(env, env.treasuryAddress)
    && (AddressOf(given, reserve.strategy.name) != "" ==> NotFalsyOrZeroAddress(env, AddressOf(given, reserve.strategy.name)))
  }

  ghost predicate AllReady(env: Environment, given: map<string, string>, reserves: seq<Reserve>, n: nat)
    requires n <= |reserves|
  {
    && (forall k :: 0 <= k < n && Listed(env, reserves[k]) ==> Ready(env, given, reserves[k]))
    && (forall i :: 0 <= i < |FirstUses(env, given, reserves, n)| ==> NotFalsyOrZeroAddress(env, env.deployed(i)))
  }

  /** The loop throws nothing if and only if all listed reserves are ready and all new strategies get usable addresses. */
  lemma {:induction false} SucceedsIff(env: Environment, given: map<string, string>, reserves: seq<Reserve>, n: nat)
    requires n <= |reserves|
    ensures VisitUpTo(env, given, reserves, n).error.None? <==> AllReady(env, given, reserves, n)
  {
    hide StrategyArguments, InputFor, ImplError, NotFalsyOrZeroAddress, Ready, WithStrategy, Refusal, AddressOf, Listed;
    if n > 0 {
      SucceedsIff(env, given, reserves, n - 1);
      var p := VisitUpTo(env, given, reserves, n - 1);
      if p.error.None? && Listed(env, reserves[n - 1]) {
        hide VisitUpTo;
        VisitSucceedsIff(env, given, reserves, n - 1);
        ReadyOneMore(env, given, reserves, n - 1);
      } else {
        ReadyOneMore(env, given, reserves, n - 1);
      }
    }
  }

  lemma ReadyOneMore(env: Environment, given: map<string, string>, reserves: seq<Reserve>, k: nat)
    requires k < |reserves|
    ensures AllReady(env, given, reserves, k + 1) <==>
      && AllReady(env, given, reserves, k)
      && (Listed(env, reserves[k]) ==> Ready(env, given, reserves[k]))
      && (FirstUse(env, given, reserves, k)
          ==> NotFalsyOrZeroAddress(env, env.deployed(|FirstUses(env, given, reserves, k)|)))
    ensures FirstUse(env, given, reserves, k) ==> Listed(env, reserves[k])
  {
    hide NotFalsyOrZeroAddress, Ready, Listed, AddressOf, UsedBefore;
    var before, uses := FirstUses(env, given, reserves, k), FirstUses(env, given, reserves, k + 1);
    assert uses == before || uses == before + [k];
  }

  lemma VisitSucceedsIff(env: Environment, given: map<string, string>, reserves: seq<Reserve>, k: nat)
    requires k < |reserves| && VisitUpTo(env, given, reserves, k).error.None? && Listed(env, reserves[k])
    ensures VisitUpTo(env, given, reserves, k + 1).error.None? <==>
      && Ready(env, given, reserves[k])
      && (FirstUse(env, given, reserves, k)
          ==> NotFalsyOrZeroAddress(env, env.deployed(|FirstUses(env, given, reserves, k)|)))
  {
    hide StrategyArguments, InputFor, ImplError, UsedBefore;
    var p, name := VisitUpTo(env, given, reserves, k), reserves[k].strategy.name;
    CacheIsKept(env, given, reserves, k, name);
    MissesIffFirstUse(env, given, reserves, k);
    DeploymentsAreFirstUses(env, given, reserves, k);
    CacheAfter(env, p, reserves[k].strategy);
  }

  function InputsOf(batches: seq<Batch>): seq<seq<InitInput>> {
    seq(|batches|, j requires 0 <= j < |batches| => batches[j].inputs)
  }

  /** Sending the batches sends every listed reserve exactly once, in order, one per transaction, under its own symbol. */
  lemma EachReserveSentOnce(env: Environment, given: map<string, string>, reserves: seq<Reserve>)
    requires VisitUpTo(env, given, reserves, |reserves|).error.None?
    ensures var p, listed := VisitUpTo(env, given, reserves, |reserves|), ListedReserves(env, reserves, |reserves|);
      && |p.reserveSymbols| == |p.initInputParams|
      && Chunk.Concat(InputsOf(BatchesOf(p))) == p.initInputParams
      && |BatchesOf(p)| == |listed|
      && forall j :: 0 <= j < |listed| ==> BatchesOf(p)[j] == Batch(
        [InputFor(env, listed[j], AddressOf(p.strategies, listed[j].strategy.name))], [listed[j].symbol])
  {
    hide InputFor, VisitUpTo, ListedReserves;
    var n := |reserves|;
    InputsFollowListedReserves(env, given, reserves, n);
    var p := VisitUpTo(env, given, reserves, n);
    SingletonBatches(p);
  }

  lemma Singletons<T>(arr: seq<T>)
    ensures |Chunk.ChunksOf(arr, INIT_CHUNKS)| == |arr|
    ensures forall j :: 0 <= j < |arr| ==> Chunk.ChunksOf(arr, INIT_CHUNKS)[j] == [arr[j]]
  {
    Chunk.ChunksShape(arr, INIT_CHUNKS, |arr|);
  }

  lemma SingletonBatches(p: Progress)
    requires |p.reserveSymbols| == |p.initInputParams| && p.error.None?
    ensures Chunk.Concat(InputsOf(BatchesOf(p))) == p.initInputParams
    ensures |BatchesOf(p)| == |p.initInputParams|
    ensures forall j :: 0 <= j < |p.initInputParams| ==>
      BatchesOf(p)[j] == Batch([p.initInputParams[j]], [p.reserveSymbols[j]])
  {
    hide Chunk.ChunksOf, Chunk.Concat;
    Chunk.ConcatOfChunksIff(p.initInputParams, INIT_CHUNKS);
    assert InputsOf(BatchesOf(p)) == Chunk.ChunksOf(p.initInputParams, INIT_CHUNKS);
    Singletons(p.initInputParams);
    Singletons(p.reserveSymbols);
  }
}

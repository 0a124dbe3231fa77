/**
  Configuring the reserves of a market: the helper contract is made pool admin, configures the
  eligible reserves in batches, and the admin is put back.
 */
module ConfigureReserves {
  import Chunk
  import opened Options

  datatype Params = Params(
    baseLTVAsCollateral: string,
    liquidationThreshold: string,
    liquidationBonus: string,
    reserveFactor: string,
    stableBorrowRateEnabled: bool,
    borrowingEnabled: bool)

  datatype Asset = Asset(symbol: string, params: Params)

  datatype ConfigureInput = ConfigureInput(
    asset: string,
    baseLTV: string,
    liquidationThreshold: string,
    liquidationBonus: string,
    reserveFactor: string,
    stableBorrowingEnabled: bool,
    borrowingEnabled: bool)

  /** The transactions, in the order they are sent. */
  datatype Call = SetPoolAdmin(address: string) | Configure(inputs: seq<ConfigureInput>)

  datatype Environment = Environment(
    tokenAddresses: map<string, string>,
    isUsable: string -> bool,
    usageAsCollateralEnabled: string -> bool,
    ratesHelper: string,
    admin: string)

  const ENABLE_CHUNKS: nat := 20

  function TokenOf(env: Environment, symbol: string): string {
    if symbol in env.tokenAddresses then env.tokenAddresses[symbol] else ""
  }

  /** The asset has a token address, a loan-to-value, and is not yet enabled as collateral. */
  predicate Eligible(env: Environment, asset: Asset) {
    && TokenOf(env, asset.symbol) != ""
    && asset.params.baseLTVAsCollateral != "-1"
    && !env.usageAsCollateralEnabled(TokenOf(env, asset.symbol))
  }

  function InputFor(env: Environment, asset: Asset): ConfigureInput {
    ConfigureInput(TokenOf(env, asset.symbol), asset.params.baseLTVAsCollateral, asset.params.liquidationThreshold,
                   asset.params.liquidationBonus, asset.params.reserveFactor,
                   asset.params.stableBorrowRateEnabled, asset.params.borrowingEnabled)
  }

  /** Reads an input back as the helper contract does, field by field. */
  function ParamsOf(input: ConfigureInput): Params {
    Params(input.baseLTV, input.liquidationThreshold, input.liquidationBonus, input.reserveFactor,
           input.stableBorrowingEnabled, input.borrowingEnabled)
  }

  /** An eligible asset is configured under its own token address with its own parameters. */
  lemma InputTellsAsset(env: Environment, asset: Asset)
    requires Eligible(env, asset)
    ensures ParamsOf(InputFor(env, asset)) == asset.params
    ensures asset.symbol in env.tokenAddresses && InputFor(env, asset).asset == env.tokenAddresses[asset.symbol]
  {
  }

  function EligibleAssets(env: Environment, assets: seq<Asset>, n: nat): seq<Asset>
    requires n <= |assets|
  {
    if n == 0 then []
    else
      var before := EligibleAssets(env, assets, n - 1);
      if Eligible(env, assets[n - 1]) then before + [assets[n - 1]] else before
  }

  /** The first eligible asset whose token address is not usable stops the script. */
  function FirstRefused(env: Environment, assets: seq<Asset>, n: nat): Option<string>
    requires n <= |assets|
  {
    if n == 0 then None
    else
      var before := FirstRefused(env, assets, n - 1);
      if before.Some? then before
      else if Eligible(env, assets[n - 1]) && !env.isUsable(TokenOf(env, assets[n - 1].symbol)) then Some(assets[n - 1].symbol)
      else None
  }

  function InputsOf(env: Environment, assets: seq<Asset>): seq<ConfigureInput> {
    seq(|assets|, i requires 0 <= i < |assets| => InputFor(env, assets[i]))
  }

  function Configures(batches: seq<seq<ConfigureInput>>): seq<Call> {
    seq(|batches|, j requires 0 <= j < |batches| => Configure(batches[j]))
  }

  /** The transactions that configure some reserves, if there are any. */
  function CallsFor(env: Environment, inputs: seq<ConfigureInput>): seq<Call> {
    if inputs == [] then []
    else
      [SetPoolAdmin(env.ratesHelper)] + Configures(Chunk.ChunksOf(inputs, ENABLE_CHUNKS)) + [SetPoolAdmin(env.admin)]
  }

  /** The inputs of all configuration calls, in the order they were sent. */
  function Configured(calls: seq<Call>): seq<ConfigureInput> {
    if calls == [] then []
    else
      var last := calls[|calls| - 1];
      Configured(calls[..|calls| - 1]) + (if last.Configure? then last.inputs else [])
  }

  /** Who is pool admin after some calls. */
  function AdminAfter(before: string, calls: seq<Call>): string {
    if calls == [] then before
    else
      var last := calls[|calls| - 1];
      if last.SetPoolAdmin? then last.address else AdminAfter(before, calls[..|calls| - 1])
  }

  lemma NoEarlierRefusal(env: Environment, assets: seq<Asset>, k: nat)
    requires k < |assets| && FirstRefused(env, assets, k).None? && Eligible(env, assets[k])
    ensures FirstRefused(env, assets, k + 1)
      == if env.isUsable(TokenOf(env, assets[k].symbol)) then None else Some(assets[k].symbol)
    ensures EligibleAssets(env, assets, k + 1) == EligibleAssets(env, assets, k) + [assets[k]]
  {
  }

  lemma {:induction false} RefusalStays(env: Environment, assets: seq<Asset>, m: nat, n: nat)
    requires m <= n <= |assets| && FirstRefused(env, assets, m).Some?
    ensures FirstRefused(env, assets, n) == FirstRefused(env, assets, m)
    decreases n
  {
    if m < n {
      RefusalStays(env, assets, m, n - 1);
    }
  }

  /** The loop collects the eligible assets, then the calls are sent; a refused asset stops it before the first call. */
  method ConfigureReserves(env: Environment, assets: seq<Asset>) returns (calls: seq<Call>, error: Option<string>)
    ensures error == FirstRefused(env, assets, |assets|)
    ensures error.Some? ==> calls == []
    ensures error.None? ==> calls == CallsFor(env, InputsOf(env, EligibleAssets(env, assets, |assets|)))
  {
    calls, error := [], None;
    var tokens: seq<string>, symbols: seq<string>, inputParams: seq<ConfigureInput> := [], [], [];
    for i := 0 to |assets|
      invariant error == None && FirstRefused(env, assets, i) == None && calls == []
      invariant inputParams == InputsOf(env, EligibleAssets(env, assets, i))
      invariant |tokens| == |symbols| == |inputParams|
      invariant forall k :: 0 <= k < |tokens| ==>
        tokens[k] == inputParams[k].asset && symbols[k] == EligibleAssets(env, assets, i)[k].symbol
    {
      var asset := assets[i];
      if TokenOf(env, asset.symbol) == "" {
        continue;
      }
      if asset.params.baseLTVAsCollateral == "-1" {
        continue;
      }
      var tokenAddress := env.tokenAddresses[asset.symbol];
      if env.usageAsCollateralEnabled(tokenAddress) {
        continue;
      }
      NoEarlierRefusal(env, assets, i);
      if !env.isUsable(tokenAddress) {
        error := Some(asset.symbol);
        RefusalStays(env, assets, i + 1, |assets|);
        return;
      }
      inputParams := inputParams + [InputFor(env, asset)];
      tokens := tokens + [tokenAddress];
      symbols := symbols + [asset.symbol];
    }
    if |tokens| > 0 {
      calls := [SetPoolAdmin(env.ratesHelper)];
      var chunkedSymbols := Chunk.ChunksOf(symbols, ENABLE_CHUNKS);
      var chunkedInputParams := Chunk.ChunksOf(inputParams, ENABLE_CHUNKS);
      Chunk.ChunksAlign(symbols, inputParams, ENABLE_CHUNKS);
      for chunkIndex := 0 to |chunkedInputParams|
        invariant calls == [SetPoolAdmin(env.ratesHelper)] + Configures(chunkedInputParams)[..chunkIndex]
      {
        var ready := chunkedSymbols[chunkIndex];
        calls := calls + [Configure(chunkedInputParams[chunkIndex])];
      }
      calls := calls + [SetPoolAdmin(env.admin)];
    }
  }

  // ---------- what the calls amount to ----------

  lemma {:induction false} ConfiguredByBatches(helper: string, batches: seq<seq<ConfigureInput>>)
    ensures Configured([SetPoolAdmin(helper)] + Configures(batches)) == Chunk.Concat(batches)
  {
    var calls := [SetPoolAdmin(helper)] + Configures(batches);
    if batches != [] {
      var front := batches[..|batches| - 1];
      ConfiguredByBatches(helper, front);
      assert calls[..|calls| - 1] == [SetPoolAdmin(helper)] + Configures(front);
    } else {
      assert calls[..0] == [];
    }
  }

  lemma {:induction false} HelperConfigures(before: string, helper: string, batches: seq<seq<ConfigureInput>>, k: nat)
    requires 1 <= k <= |batches| + 1
    ensures AdminAfter(before, ([SetPoolAdmin(helper)] + Configures(batches))[..k]) == helper
    decreases k
  {
    var calls := [SetPoolAdmin(helper)] + Configures(batches);
    if k > 1 {
      HelperConfigures(before, helper, batches, k - 1);
      assert calls[..k][..k - 1] == calls[..k - 1];
    }
  }

  /**
    Over the whole run: every input is configured exactly once and in order, in ceil(n / 20) calls;
    the helper is pool admin at each of them; and afterwards the admin is, or nothing was sent.
   */
  lemma EveryInputConfiguredOnce(env: Environment, inputs: seq<ConfigureInput>, before: string)
    ensures Configured(CallsFor(env, inputs)) == inputs
    ensures AdminAfter(before, CallsFor(env, inputs)) == if inputs == [] then before else env.admin
    ensures |CallsFor(env, inputs)|
      == if inputs == [] then 0 else 2 + (|inputs| + 19) / 20
  {
    if inputs != [] {
      var calls, batches := CallsFor(env, inputs), Chunk.ChunksOf(inputs, ENABLE_CHUNKS);
      assert calls[..|calls| - 1] == [SetPoolAdmin(env.ratesHelper)] + Configures(batches);
      ConfiguredByBatches(env.ratesHelper, batches);
      Chunk.ConcatOfChunksIff(inputs, ENABLE_CHUNKS);
      Chunk.ChunkSizes(inputs, ENABLE_CHUNKS);
    }
  }

  lemma HelperConfiguresEachBatch(env: Environment, inputs: seq<ConfigureInput>, before: string, k: nat)
    requires k < |CallsFor(env, inputs)| && CallsFor(env, inputs)[k].Configure?
    ensures AdminAfter(before, CallsFor(env, inputs)[..k]) == env.ratesHelper
    ensures 0 < |CallsFor(env, inputs)[k].inputs| <= 20
  {
    var calls, batches := CallsFor(env, inputs), Chunk.ChunksOf(inputs, ENABLE_CHUNKS);
    assert calls[..k] == ([SetPoolAdmin(env.ratesHelper)] + Configures(batches))[..k];
    HelperConfigures(before, env.ratesHelper, batches, k);
    Chunk.ChunkSizes(inputs, ENABLE_CHUNKS);
  }

  /** An asset is configured if and only if it has a token address, a loan-to-value, and is not enabled as collateral yet. */
  lemma {:induction false} ConfiguredIff(env: Environment, assets: seq<Asset>, n: nat, asset: Asset)
    requires n <= |assets|
    ensures asset in EligibleAssets(env, assets, n)
      <==> && asset in assets[..n]
           && asset.symbol in env.tokenAddresses && env.tokenAddresses[asset.symbol] != ""
           && asset.params.baseLTVAsCollateral != "-1"
           && !env.usageAsCollateralEnabled(env.tokenAddresses[asset.symbol])
  {
    if n > 0 {
      ConfiguredIff(env, assets, n - 1, asset);
      assert assets[..n] == assets[..n - 1] + [assets[n - 1]];
    }
  }

  /** The eligible assets keep the order in which they are given. */
  lemma {:induction false} EligibleInOrder(env: Environment, assets: seq<Asset>, m: nat, n: nat)
    requires m <= n <= |assets|
    ensures EligibleAssets(env, assets, m) <= EligibleAssets(env, assets, n)
    ensures |EligibleAssets(env, assets, n)| <= |EligibleAssets(env, assets, m)| + (n - m)
    decreases n
  {
    hide Eligible;
    if m < n {
      EligibleInOrder(env, assets, m, n - 1);
    }
  }

  /** The error names the first eligible asset whose token address is unusable. */
  lemma FirstRefusedIsFirst(env: Environment, assets: seq<Asset>, k: nat)
    requires k < |assets| && Eligible(env, assets[k]) && !env.isUsable(TokenOf(env, assets[k].symbol))
    requires forall j :: 0 <= j < k && Eligible(env, assets[j]) ==> env.isUsable(TokenOf(env, assets[j].symbol))
    ensures FirstRefused(env, assets, |assets|) == Some(assets[k].symbol)
  {
    hide Eligible, TokenOf;
    RefusedIff(env, assets, k);
    RefusalStays(env, assets, k + 1, |assets|);
  }

  /** The script stops without a call if and only if an eligible asset has an unusable token address. */
  lemma {:induction false} RefusedIff(env: Environment, assets: seq<Asset>, n: nat)
    requires n <= |assets|
    ensures FirstRefused(env, assets, n).Some?
      <==> exists k :: 0 <= k < n && Eligible(env, assets[k]) && !env.isUsable(TokenOf(env, assets[k].symbol))
  {
    if n > 0 {
      RefusedIff(env, assets, n - 1);
    }
  }
}

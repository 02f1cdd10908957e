/** `AssetBalanceUseCaseImpl.sumAssetBalances`: the fiat total of one asset
    across every chain it lives on, its fiat change over the recent rate
    change, and that change as a percentage of the total. Amounts are exact
    reals; the half-up rounding of the division is not modelled. */
module AssetBalance {
  import opened Base
  import opened Seqs

  const PolkadotChainId: string := "91b171bb158e2d3848fa23a9f1c25182fb8e20313b2c1eb49219da7a70ce90c3"
  const DollarSign: string := "$"

  /** The stored balance row of an asset on one chain. */
  datatype AssetRow = AssetRow(id: string, chainId: string, freeInPlanks: Option<int>, reservedInPlanks: Option<int>)

  /** The stored price row of the asset's token. */
  datatype TokenRow = TokenRow(fiatRate: Option<real>, fiatSymbol: Option<string>, recentRateChange: Option<real>)

  datatype AssetWithToken = AssetWithToken(asset: AssetRow, token: Option<TokenRow>)

  /** An asset as a chain's configuration describes it. */
  datatype ChainAsset = ChainAsset(id: string, precision: nat)

  datatype ChainConfig = ChainConfig(assets: seq<ChainAsset>)

  datatype AssetBalance = AssetBalance(balance: real, fiatSymbol: string, balanceChange: real, rateChange: real)

  const EmptyBalance: AssetBalance := AssetBalance(0.0, DollarSign, 0.0, 0.0)

  function Pow10(n: nat): (r: real)
    ensures r >= 1.0
  {
    if n == 0 then 1.0 else 10.0 * Pow10(n - 1)
  }

  function FiatRate(a: AssetWithToken): Option<real> {
    if a.token.Some? then a.token.value.fiatRate else None
  }

  function RecentRateChange(a: AssetWithToken): Option<real> {
    if a.token.Some? then a.token.value.recentRateChange else None
  }

  function TokenSymbol(a: AssetWithToken): Option<string> {
    if a.token.Some? then a.token.value.fiatSymbol else None
  }

  /** Kotlin's `getValue` on a missing key. */
  function MissingKey(key: string): Throwable {
    Throwable("NoSuchElementException", "Key " + key + " is missing in the map.")
  }

  /** `c` sits in `assets` with no entry of the same id before it. */
  ghost predicate FirstOfId(assets: seq<ChainAsset>, id: string, c: ChainAsset) {
    exists i :: 0 <= i < |assets| && assets[i] == c && forall j :: 0 <= j < i ==> assets[j].id != id
  }

  /** The first configuration entry with the given id, as `firstOrNull`. */
  function FirstWithId(assets: seq<ChainAsset>, id: string): (r: Option<ChainAsset>)
    ensures r.None? <==> forall i :: 0 <= i < |assets| ==> assets[i].id != id
    ensures r.Some? ==> r.value in assets && r.value.id == id
    ensures r.Some? ==> FirstOfId(assets, id, r.value)
  {
    if |assets| == 0 then None
    else if assets[0].id == id then
      assert assets[0] == assets[0];
      Some(assets[0])
    else
      var r := FirstWithId(assets[1..], id);
      assert forall i :: 0 <= i < |assets| - 1 ==> assets[1..][i] == assets[i + 1];
      assert r.Some? ==> FirstOfId(assets, id, r.value) by {
        if r.Some? {
          var i :| 0 <= i < |assets[1..]| && assets[1..][i] == r.value && forall j :: 0 <= j < i ==> assets[1..][j].id != id;
          assert assets[i + 1] == r.value && forall j :: 0 <= j < i + 1 ==> assets[j].id != id;
        }
      }
      r
  }

  /** The lookup is Kotlin's `firstOrNull { it.id == id }`. */
  lemma {:induction false} FirstWithIdIsFind(assets: seq<ChainAsset>, id: string)
    ensures FirstWithId(assets, id) == Find(assets, (c: ChainAsset) => c.id == id)
  {
    if |assets| > 0 && assets[0].id != id {
      FirstWithIdIsFind(assets[1..], id);
    }
  }

  /** The configuration entry of the asset on its chain. */
  function ChainAssetOf(chain: ChainConfig, id: string): (r: Option<ChainAsset>)
    ensures r.None? <==> forall i :: 0 <= i < |chain.assets| ==> chain.assets[i].id != id
    ensures r.Some? ==> r.value in chain.assets && r.value.id == id
  {
    FirstWithId(chain.assets, id)
  }

  /** The asset's chain is known and lists the asset. */
  predicate Resolves(a: AssetWithToken, chainsById: map<string, ChainConfig>) {
    a.asset.chainId in chainsById && ChainAssetOf(chainsById[a.asset.chainId], a.asset.id).Some?
  }

  /** Free plus reserved, a missing amount counting as zero. */
  function PlanksOf(a: AssetWithToken): int {
    OrZero(a.asset.freeInPlanks) + OrZero(a.asset.reservedInPlanks)
  }

  /** The asset's fiat value, when its token has a rate. */
  function FiatAmount(a: AssetWithToken, precision: nat): (r: Option<real>)
    ensures r.None? <==> FiatRate(a).None?
  {
    var totalDecimal := PlanksOf(a) as real / Pow10(precision);
    if FiatRate(a).Some? then Some(totalDecimal * FiatRate(a).value) else None
  }

  /** A missing free or reserved amount counts as zero: the asset is worth
      what it would be worth with a zero amount there. */
  lemma FiatAmountNullIsZero(id: string, chainId: string, amount: Option<int>, token: Option<TokenRow>, precision: nat)
    ensures var noFree := FiatAmount(AssetWithToken(AssetRow(id, chainId, None, amount), token), precision);
            var zeroFree := FiatAmount(AssetWithToken(AssetRow(id, chainId, Some(0), amount), token), precision);
            noFree.Some? == zeroFree.Some? && (noFree.Some? ==> noFree.value == zeroFree.value)
    ensures var noReserved := FiatAmount(AssetWithToken(AssetRow(id, chainId, amount, None), token), precision);
            var zeroReserved := FiatAmount(AssetWithToken(AssetRow(id, chainId, amount, Some(0)), token), precision);
            noReserved.Some? == zeroReserved.Some? && (noReserved.Some? ==> noReserved.value == zeroReserved.value)
  {
    var a1 := AssetWithToken(AssetRow(id, chainId, None, amount), token);
    var a2 := AssetWithToken(AssetRow(id, chainId, Some(0), amount), token);
    var a3 := AssetWithToken(AssetRow(id, chainId, amount, None), token);
    var a4 := AssetWithToken(AssetRow(id, chainId, amount, Some(0)), token);
    assert PlanksOf(a1) == PlanksOf(a2) && PlanksOf(a3) == PlanksOf(a4);
  }

  /** With a rate, the fiat value of an asset is the value of its free
      amount plus the value of its reserved amount. */
  lemma FiatAmountIsFreePlusReserved(a: AssetWithToken, precision: nat)
    requires FiatRate(a).Some?
    ensures FiatAmount(a, precision).value
         == FiatAmount(a.(asset := a.asset.(reservedInPlanks := None)), precision).value
          + FiatAmount(a.(asset := a.asset.(freeInPlanks := None)), precision).value
  {
    var free := OrZero(a.asset.freeInPlanks) as real;
    var reserved := OrZero(a.asset.reservedInPlanks) as real;
    var d := Pow10(precision);
    var rate := FiatRate(a).value;
    assert (free + reserved) / d * rate == free / d * rate + reserved / d * rate;
  }

  /** One more digit of precision makes the same number of planks worth a
      tenth: amounts are planks divided by ten to the precision. */
  lemma FiatAmountScalesWithPrecision(a: AssetWithToken, precision: nat)
    requires FiatRate(a).Some?
    ensures FiatAmount(a, precision + 1).value * 10.0 == FiatAmount(a, precision).value
  {
    var total := (OrZero(a.asset.freeInPlanks) + OrZero(a.asset.reservedInPlanks)) as real;
    var d := Pow10(precision);
    var rate := FiatRate(a).value;
    assert Pow10(precision + 1) == 10.0 * d;
    assert total / (10.0 * d) * rate * 10.0 == total / d * rate;
  }

  /** What one resolving asset adds to the total and to the change. */
  function BalanceToAdd(a: AssetWithToken, precision: nat): real {
    OrZeroReal(FiatAmount(a, precision))
  }

  function ChangeToAdd(a: AssetWithToken, precision: nat): real {
    var fiat := FiatAmount(a, precision);
    if fiat.Some? then fiat.value * OrZeroReal(RecentRateChange(a)) / 100.0 else 0.0
  }

  /** The change as a percentage of the balance; zero for a zero balance. */
  function RateChange(balance: real, balanceChange: real): (r: real)
    ensures balance == 0.0 ==> r == 0.0
    ensures balance != 0.0 ==> r * balance == balanceChange * 100.0
  {
    if balance == 0.0 then 0.0 else balanceChange / balance * 100.0
  }

  /** The symbol shown: the asset's own, else the currency of the first
      Polkadot asset, else the dollar sign. */
  function SymbolFor(a: AssetWithToken, fiatCurrency: Option<string>): string {
    if TokenSymbol(a).Some? then TokenSymbol(a).value
    else if fiatCurrency.Some? then fiatCurrency.value
    else DollarSign
  }

  /** One step of the fold, for an asset whose chain is known. As written,
      an asset its chain does not list makes the step return
      `AssetBalance.Empty`, dropping everything summed before it. */
  function AddAsset(acc: AssetBalance, a: AssetWithToken, chain: ChainConfig, fiatCurrency: Option<string>): (r: AssetBalance)
    ensures ChainAssetOf(chain, a.asset.id).None? ==> r == EmptyBalance
    ensures ChainAssetOf(chain, a.asset.id).Some? ==>
              var p := ChainAssetOf(chain, a.asset.id).value.precision;
              && r.balance == acc.balance + BalanceToAdd(a, p)
              && r.balanceChange == acc.balanceChange + ChangeToAdd(a, p)
              && r.rateChange == RateChange(r.balance, r.balanceChange)
              && r.fiatSymbol == SymbolFor(a, fiatCurrency)
  {
    match ChainAssetOf(chain, a.asset.id)
    case None => EmptyBalance
    case Some(chainAsset) =>
      var balance := acc.balance + BalanceToAdd(a, chainAsset.precision);
      var balanceChange := acc.balanceChange + ChangeToAdd(a, chainAsset.precision);
      AssetBalance(balance, SymbolFor(a, fiatCurrency), balanceChange, RateChange(balance, balanceChange))
  }

  /** The fold over the assets, in order; a chain missing from the map
      throws out of the whole call. */
  function FoldAssets(assets: seq<AssetWithToken>, chainsById: map<string, ChainConfig>, fiatCurrency: Option<string>): (r: Outcome<AssetBalance>)
    ensures r.Throws? <==> exists i :: 0 <= i < |assets| && assets[i].asset.chainId !in chainsById
  {
    if |assets| == 0 then Returns(EmptyBalance)
    else
      var pre := assets[..|assets| - 1];
      var a := assets[|assets| - 1];
      assert forall i :: 0 <= i < |pre| ==> pre[i] == assets[i];
      match FoldAssets(pre, chainsById, fiatCurrency)
      case Throws(e) => Throws(e)
      case Returns(acc) =>
        if a.asset.chainId !in chainsById then Throws(MissingKey(a.asset.chainId))
        else Returns(AddAsset(acc, a, chainsById[a.asset.chainId], fiatCurrency))
  }

  predicate OnPolkadot(a: AssetWithToken) {
    a.asset.chainId == PolkadotChainId
  }

  /** The currency of the first asset on Polkadot, if it has a token. */
  function PolkadotCurrency(assets: seq<AssetWithToken>): (r: Option<string>)
    ensures (forall i :: 0 <= i < |assets| ==> !OnPolkadot(assets[i])) ==> r.None?
    ensures (exists i :: 0 <= i < |assets| && OnPolkadot(assets[i])) ==>
              exists i :: && 0 <= i < |assets|
                          && OnPolkadot(assets[i])
                          && (forall j :: 0 <= j < i ==> !OnPolkadot(assets[j]))
                          && r == TokenSymbol(assets[i])
  {
    match Find(assets, OnPolkadot)
    case None => None
    case Some(a) => TokenSymbol(a)
  }

  /** `sumAssetBalances` as written. */
  function SumAssetBalances(assets: seq<AssetWithToken>, chainsById: map<string, ChainConfig>): (r: Outcome<AssetBalance>)
    ensures |assets| == 0 ==> r == Returns(EmptyBalance)
    ensures r.Throws? <==> exists i :: 0 <= i < |assets| && assets[i].asset.chainId !in chainsById
  {
    FoldAssets(assets, chainsById, PolkadotCurrency(assets))
  }

  // ---------------------------------------------------------------------
  // Reference sums
  // ---------------------------------------------------------------------

  /** Every asset's chain is known. */
  predicate AllChainsKnown(assets: seq<AssetWithToken>, chainsById: map<string, ChainConfig>) {
    forall i :: 0 <= i < |assets| ==> assets[i].asset.chainId in chainsById
  }

  /** The fiat value an asset contributes, zero when it does not resolve. */
  function FiatOf(a: AssetWithToken, chainsById: map<string, ChainConfig>): real {
    if Resolves(a, chainsById) then BalanceToAdd(a, ChainAssetOf(chainsById[a.asset.chainId], a.asset.id).value.precision)
    else 0.0
  }

  function ChangeOf(a: AssetWithToken, chainsById: map<string, ChainConfig>): real {
    if Resolves(a, chainsById) then ChangeToAdd(a, ChainAssetOf(chainsById[a.asset.chainId], a.asset.id).value.precision)
    else 0.0
  }

  /** Sums from the front, independently of the fold. */
  function FiatSum(assets: seq<AssetWithToken>, chainsById: map<string, ChainConfig>): real {
    if |assets| == 0 then 0.0 else FiatOf(assets[0], chainsById) + FiatSum(assets[1..], chainsById)
  }

  function ChangeSum(assets: seq<AssetWithToken>, chainsById: map<string, ChainConfig>): real {
    if |assets| == 0 then 0.0 else ChangeOf(assets[0], chainsById) + ChangeSum(assets[1..], chainsById)
  }

  lemma {:induction false} SumsSnoc(assets: seq<AssetWithToken>, a: AssetWithToken, chainsById: map<string, ChainConfig>)
    ensures FiatSum(assets + [a], chainsById) == FiatSum(assets, chainsById) + FiatOf(a, chainsById)
    ensures ChangeSum(assets + [a], chainsById) == ChangeSum(assets, chainsById) + ChangeOf(a, chainsById)
  {
    if |assets| > 0 {
      assert (assets + [a])[1..] == assets[1..] + [a];
      SumsSnoc(assets[1..], a, chainsById);
    }
  }

  /** One step of the fold as written, from the back. */
  lemma FoldStep(assets: seq<AssetWithToken>, chainsById: map<string, ChainConfig>, fiatCurrency: Option<string>)
    requires |assets| > 0 && assets[|assets| - 1].asset.chainId in chainsById
    requires FoldAssets(assets[..|assets| - 1], chainsById, fiatCurrency).Returns?
    ensures FoldAssets(assets, chainsById, fiatCurrency)
         == Returns(AddAsset(FoldAssets(assets[..|assets| - 1], chainsById, fiatCurrency).value, assets[|assets| - 1],
                             chainsById[assets[|assets| - 1].asset.chainId], fiatCurrency))
  {
  }

  /** A resolving asset adds exactly its contribution to the sums. */
  lemma AddResolvedAsset(acc: AssetBalance, a: AssetWithToken, chainsById: map<string, ChainConfig>, fiatCurrency: Option<string>)
    requires Resolves(a, chainsById)
    ensures AddAsset(acc, a, chainsById[a.asset.chainId], fiatCurrency).balance == acc.balance + FiatOf(a, chainsById)
    ensures AddAsset(acc, a, chainsById[a.asset.chainId], fiatCurrency).balanceChange == acc.balanceChange + ChangeOf(a, chainsById)
  {
  }

  /** When every asset resolves, the fold's balance and change are the plain
      sums of what each asset contributes. */
  lemma {:induction false} ResolvedFoldIsSum(assets: seq<AssetWithToken>, chainsById: map<string, ChainConfig>, fiatCurrency: Option<string>)
    requires forall i :: 0 <= i < |assets| ==> Resolves(assets[i], chainsById)
    ensures FoldAssets(assets, chainsById, fiatCurrency).Returns?
    ensures FoldAssets(assets, chainsById, fiatCurrency).value.balance == FiatSum(assets, chainsById)
    ensures FoldAssets(assets, chainsById, fiatCurrency).value.balanceChange == ChangeSum(assets, chainsById)
  {
    if |assets| > 0 {
      var pre := assets[..|assets| - 1];
      var a := assets[|assets| - 1];
      assert forall i :: 0 <= i < |pre| ==> Resolves(pre[i], chainsById) by {
        assert forall i :: 0 <= i < |pre| ==> pre[i] == assets[i];
      }
      ResolvedFoldIsSum(pre, chainsById, fiatCurrency);
      SumsSnoc(pre, a, chainsById);
      SplitLast(assets);
      assert Resolves(a, chainsById);
      FoldStep(assets, chainsById, fiatCurrency);
      AddResolvedAsset(FoldAssets(pre, chainsById, fiatCurrency).value, a, chainsById, fiatCurrency);
    }
  }

  /** As written, an asset its chain does not list wipes out everything
      before it: the result is what the assets after it alone give. */
  lemma {:induction false} UnlistedAssetResets(prefix: seq<AssetWithToken>, a: AssetWithToken, suffix: seq<AssetWithToken>,
                                               chainsById: map<string, ChainConfig>, fiatCurrency: Option<string>)
    requires AllChainsKnown(prefix + [a], chainsById)
    requires !Resolves(a, chainsById)
    ensures FoldAssets(prefix + [a] + suffix, chainsById, fiatCurrency) == FoldAssets(suffix, chainsById, fiatCurrency)
    decreases |suffix|
  {
    var all := prefix + [a] + suffix;
    assert forall i :: 0 <= i < |prefix + [a]| ==> (prefix + [a])[i].asset.chainId in chainsById;
    if |suffix| == 0 {
      assert all == prefix + [a];
      assert all[..|all| - 1] == prefix;
      assert FoldAssets(prefix, chainsById, fiatCurrency).Returns?;
    } else {
      var shorter := suffix[..|suffix| - 1];
      UnlistedAssetResets(prefix, a, shorter, chainsById, fiatCurrency);
      assert all[..|all| - 1] == prefix + [a] + shorter;
      assert all[|all| - 1] == suffix[|suffix| - 1];
    }
  }

  /** The smallest input that shows the reset: the same asset on two
      chains, priced on one that lists it and held on one that does not,
      sums to zero instead of the first one's value. */
  lemma UnlistedAssetDropsEarlierValue()
    ensures var chains := map["a" := ChainConfig([ChainAsset("dot", 0)]), "b" := ChainConfig([ChainAsset("ksm", 0)])];
            var priced := AssetWithToken(AssetRow("dot", "a", Some(10), None), Some(TokenRow(Some(1.0), None, None)));
            var unlisted := AssetWithToken(AssetRow("dot", "b", Some(5), None), None);
            && FiatSum([priced, unlisted], chains) == 10.0
            && SumAssetBalances([priced, unlisted], chains) == Returns(EmptyBalance)
  {
    var chains := map["a" := ChainConfig([ChainAsset("dot", 0)]), "b" := ChainConfig([ChainAsset("ksm", 0)])];
    var priced := AssetWithToken(AssetRow("dot", "a", Some(10), None), Some(TokenRow(Some(1.0), None, None)));
    var unlisted := AssetWithToken(AssetRow("dot", "b", Some(5), None), None);
    assert chains["b"].assets[0].id != "dot";
    assert ChainAssetOf(chains["b"], "dot").None?;
    assert chains["a"].assets[0].id == "dot";
    assert ChainAssetOf(chains["a"], "dot") == Some(ChainAsset("dot", 0));
    assert FiatAmount(priced, 0) == Some(10.0);
    assert FiatOf(priced, chains) == 10.0;
    assert FiatOf(unlisted, chains) == 0.0;
    assert [priced, unlisted][1..] == [unlisted];
    assert [unlisted][1..] == [];
    assert FiatSum([unlisted], chains) == 0.0;
    assert FiatSum([priced, unlisted], chains) == FiatOf(priced, chains) + FiatSum([unlisted], chains);
    assert [priced, unlisted][..1] == [priced];
    assert [priced][..0] == [];
  }

  // ---------------------------------------------------------------------
  // The evidently intended fold: an unlisted asset is skipped
  // ---------------------------------------------------------------------

  function AddAssetSkipping(acc: AssetBalance, a: AssetWithToken, chain: ChainConfig, fiatCurrency: Option<string>): (r: AssetBalance)
    ensures ChainAssetOf(chain, a.asset.id).None? ==> r == acc
    ensures ChainAssetOf(chain, a.asset.id).Some? ==> r == AddAsset(acc, a, chain, fiatCurrency)
  {
    if ChainAssetOf(chain, a.asset.id).None? then acc else AddAsset(acc, a, chain, fiatCurrency)
  }

  function FoldAssetsSkipping(assets: seq<AssetWithToken>, chainsById: map<string, ChainConfig>, fiatCurrency: Option<string>): (r: Outcome<AssetBalance>)
    ensures r.Throws? <==> exists i :: 0 <= i < |assets| && assets[i].asset.chainId !in chainsById
  {
    if |assets| == 0 then Returns(EmptyBalance)
    else
      var pre := assets[..|assets| - 1];
      var a := assets[|assets| - 1];
      assert forall i :: 0 <= i < |pre| ==> pre[i] == assets[i];
      match FoldAssetsSkipping(pre, chainsById, fiatCurrency)
      case Throws(e) => Throws(e)
      case Returns(acc) =>
        if a.asset.chainId !in chainsById then Throws(MissingKey(a.asset.chainId))
        else Returns(AddAssetSkipping(acc, a, chainsById[a.asset.chainId], fiatCurrency))
  }

  /** The intended `sumAssetBalances`. */
  function SumAssetBalancesSkipping(assets: seq<AssetWithToken>, chainsById: map<string, ChainConfig>): (r: Outcome<AssetBalance>)
    ensures |assets| == 0 ==> r == Returns(EmptyBalance)
    ensures r.Throws? <==> exists i :: 0 <= i < |assets| && assets[i].asset.chainId !in chainsById
  {
    FoldAssetsSkipping(assets, chainsById, PolkadotCurrency(assets))
  }

  /** With skipping, the balance and change are the sums over all assets,
      the unlisted ones adding nothing. */
  lemma {:induction false} SkippingFoldIsSum(assets: seq<AssetWithToken>, chainsById: map<string, ChainConfig>, fiatCurrency: Option<string>)
    requires AllChainsKnown(assets, chainsById)
    ensures FoldAssetsSkipping(assets, chainsById, fiatCurrency).Returns?
    ensures FoldAssetsSkipping(assets, chainsById, fiatCurrency).value.balance == FiatSum(assets, chainsById)
    ensures FoldAssetsSkipping(assets, chainsById, fiatCurrency).value.balanceChange == ChangeSum(assets, chainsById)
  {
    if |assets| > 0 {
      var pre := assets[..|assets| - 1];
      var a := assets[|assets| - 1];
      assert AllChainsKnown(pre, chainsById) by {
        assert forall i :: 0 <= i < |pre| ==> pre[i] == assets[i];
      }
      SkippingFoldIsSum(pre, chainsById, fiatCurrency);
      SumsSnoc(pre, a, chainsById);
      SplitLast(assets);
      var acc := FoldAssetsSkipping(pre, chainsById, fiatCurrency).value;
      assert FoldAssetsSkipping(assets, chainsById, fiatCurrency) == Returns(AddAssetSkipping(acc, a, chainsById[a.asset.chainId], fiatCurrency));
    }
  }

  /** With skipping, the rate shown is always the one `RateChange` gives
      for the balance and change shown: the change as a percentage of the
      balance, and zero for a zero balance. */
  lemma {:induction false} SkippingRateIsConsistent(assets: seq<AssetWithToken>, chainsById: map<string, ChainConfig>, fiatCurrency: Option<string>)
    requires FoldAssetsSkipping(assets, chainsById, fiatCurrency).Returns?
    ensures var b := FoldAssetsSkipping(assets, chainsById, fiatCurrency).value;
            b.rateChange == RateChange(b.balance, b.balanceChange)
  {
    if |assets| > 0 {
      var pre := assets[..|assets| - 1];
      var a := assets[|assets| - 1];
      SkippingRateIsConsistent(pre, chainsById, fiatCurrency);
      var acc := FoldAssetsSkipping(pre, chainsById, fiatCurrency).value;
      assert FoldAssetsSkipping(assets, chainsById, fiatCurrency) == Returns(AddAssetSkipping(acc, a, chainsById[a.asset.chainId], fiatCurrency));
    }
  }

  /** The two folds agree whenever every asset resolves. */
  lemma {:induction false} FoldsAgreeWhenResolved(assets: seq<AssetWithToken>, chainsById: map<string, ChainConfig>, fiatCurrency: Option<string>)
    requires forall i :: 0 <= i < |assets| ==> Resolves(assets[i], chainsById)
    ensures FoldAssetsSkipping(assets, chainsById, fiatCurrency) == FoldAssets(assets, chainsById, fiatCurrency)
  {
    if |assets| > 0 {
      var pre := assets[..|assets| - 1];
      assert forall i :: 0 <= i < |pre| ==> pre[i] == assets[i];
      FoldsAgreeWhenResolved(pre, chainsById, fiatCurrency);
    }
  }
}

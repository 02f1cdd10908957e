/** `SubqueryStakingRewardsDataSource.sync`: which indexer a chain's staking
    rewards are read from, and the total reward stored for the account. The
    indexers' answers are parameters; the stored row is the result. */
module StakingRewards {
  import opened Base

  /** The indexer kinds a chain's staking section can name. */
  datatype StakingType = Subquery | Subsquid | Giantsquid | OtherType(name: string)

  /** The chain's `externalApi.staking` section, either part possibly absent. */
  datatype StakingSection = StakingSection(url: Option<string>, stakingType: Option<StakingType>)

  datatype Chain = Chain(staking: Option<StakingSection>, isEthereumBased: bool)

  /** The query `sync` sends. */
  datatype Query =
    | SubqueryQuery(url: string, accountAddress: string)
    | SubsquidEthQuery(url: string, accountAddress: string)
    | SubsquidRelayQuery(url: string, accountAddress: string)
    | GiantsquidQuery(url: string, accountIdHex: string)

  const RewardsNotSupported: Throwable := Throwable("RewardsNotSupportedWarning", "")

  function StakingUrl(chain: Chain): Option<string> {
    if chain.staking.Some? then chain.staking.value.url else None
  }

  function StakingTypeOf(chain: Chain): Option<StakingType> {
    if chain.staking.Some? then chain.staking.value.stakingType else None
  }

  /** The chain names no staking indexer `sync` can ask. */
  predicate Unsupported(chain: Chain) {
    StakingUrl(chain).None? || StakingTypeOf(chain).None? || StakingTypeOf(chain).value.OtherType?
  }

  /** The Giantsquid branch, whose conversion of the address to a hex
      account id throws. */
  predicate HexFails(chain: Chain, accountAddress: string, toAccountIdHex: string -> Outcome<string>) {
    !Unsupported(chain) && StakingTypeOf(chain) == Some(Giantsquid) && toAccountIdHex(accountAddress).Throws?
  }

  /** The dispatch of `sync`: the chain is looked up by id first, and an
      unknown id throws; no URL, or a type none of the branches names, is
      `RewardsNotSupportedWarning`; a Subsquid chain is asked the Ethereum
      query when it is Ethereum-based and the relay query otherwise;
      Giantsquid is asked by hex account id, whose conversion may throw. */
  function SyncQuery(chains: map<string, Chain>, chainId: string, accountAddress: string,
                     toAccountIdHex: string -> Outcome<string>): (r: Outcome<Query>)
    ensures r.Throws? <==>
              chainId !in chains || Unsupported(chains[chainId]) || HexFails(chains[chainId], accountAddress, toAccountIdHex)
    ensures chainId !in chains ==> r == Throws(UnknownChain(chainId))
    ensures chainId in chains && Unsupported(chains[chainId]) ==> r == Throws(RewardsNotSupported)
    ensures chainId in chains && HexFails(chains[chainId], accountAddress, toAccountIdHex) ==>
              r == Throws(toAccountIdHex(accountAddress).cause)
    ensures r.Returns? ==> r.value.url == StakingUrl(chains[chainId]).value
    ensures r.Returns? ==> (r.value.SubqueryQuery? <==> StakingTypeOf(chains[chainId]) == Some(Subquery))
    ensures r.Returns? ==>
              (r.value.SubsquidEthQuery? <==> StakingTypeOf(chains[chainId]) == Some(Subsquid) && chains[chainId].isEthereumBased)
    ensures r.Returns? ==>
              (r.value.SubsquidRelayQuery? <==> StakingTypeOf(chains[chainId]) == Some(Subsquid) && !chains[chainId].isEthereumBased)
    ensures r.Returns? ==> (r.value.GiantsquidQuery? <==> StakingTypeOf(chains[chainId]) == Some(Giantsquid))
    ensures r.Returns? && !r.value.GiantsquidQuery? ==> r.value.accountAddress == accountAddress
    ensures r.Returns? && r.value.GiantsquidQuery? ==> r.value.accountIdHex == toAccountIdHex(accountAddress).value
  {
    if chainId !in chains then Throws(UnknownChain(chainId))
    else
      var chain := chains[chainId];
      var url := StakingUrl(chain);
      var stakingType := StakingTypeOf(chain);
      if url.None? then Throws(RewardsNotSupported)
      else if stakingType == Some(Subquery) then Returns(SubqueryQuery(url.value, accountAddress))
      else if stakingType == Some(Subsquid) && chain.isEthereumBased then Returns(SubsquidEthQuery(url.value, accountAddress))
      else if stakingType == Some(Subsquid) then Returns(SubsquidRelayQuery(url.value, accountAddress))
      else if stakingType == Some(Giantsquid) then
        match toAccountIdHex(accountAddress)
        case Throws(e) => Throws(e)
        case Returns(hex) => Returns(GiantsquidQuery(url.value, hex))
      else Throws(RewardsNotSupported)
  }

  // ---------------------------------------------------------------------
  // The indexers' answers and their totals
  // ---------------------------------------------------------------------

  datatype EthReward = EthReward(amount: Option<int>)
  datatype Reward = Reward(amount: Option<int>)
  datatype HistoryElement = HistoryElement(reward: Option<Reward>)
  datatype StakingReward = StakingReward(amount: int)

  /** `sumByBigInteger`, from the front. */
  function SumBy<T>(xs: seq<T>, f: T -> int): int {
    if |xs| == 0 then 0 else f(xs[0]) + SumBy(xs[1..], f)
  }

  lemma {:induction false} SumByConcat<T>(a: seq<T>, b: seq<T>, f: T -> int)
    ensures SumBy(a + b, f) == SumBy(a, f) + SumBy(b, f)
  {
    if |a| == 0 {
      assert a + b == b;
    } else {
      assert (a + b)[1..] == a[1..] + b;
      SumByConcat(a[1..], b, f);
    }
  }

  function EthAmount(r: EthReward): int {
    OrZero(r.amount)
  }

  function RelayAmount(e: HistoryElement): int {
    if e.reward.Some? then OrZero(e.reward.value.amount) else 0
  }

  function GiantsquidAmount(r: StakingReward): int {
    r.amount
  }

  /** The amounts an answer actually carries, missing ones dropped. */
  function PresentEthAmounts(rs: seq<EthReward>): (r: seq<int>)
    ensures |r| <= |rs|
  {
    if |rs| == 0 then []
    else (if rs[0].amount.Some? then [rs[0].amount.value] else []) + PresentEthAmounts(rs[1..])
  }

  function PresentRelayAmounts(es: seq<HistoryElement>): (r: seq<int>)
    ensures |r| <= |es|
  {
    if |es| == 0 then []
    else
      (if es[0].reward.Some? && es[0].reward.value.amount.Some? then [es[0].reward.value.amount.value] else [])
      + PresentRelayAmounts(es[1..])
  }

  function Sum(xs: seq<int>): int {
    if |xs| == 0 then 0 else xs[0] + Sum(xs[1..])
  }

  lemma {:induction false} SumConcat(a: seq<int>, b: seq<int>)
    ensures Sum(a + b) == Sum(a) + Sum(b)
  {
    if |a| == 0 {
      assert a + b == b;
    } else {
      assert (a + b)[1..] == a[1..] + b;
      SumConcat(a[1..], b);
    }
  }

  /** Counting a missing Ethereum reward as zero is summing the rewards
      that are present. */
  lemma {:induction false} EthTotalIsSumOfPresent(rs: seq<EthReward>)
    ensures SumBy(rs, EthAmount) == Sum(PresentEthAmounts(rs))
  {
    if |rs| > 0 {
      EthTotalIsSumOfPresent(rs[1..]);
      var head := if rs[0].amount.Some? then [rs[0].amount.value] else [];
      SumConcat(head, PresentEthAmounts(rs[1..]));
    }
  }

  /** The same for relay history: an element without a reward, or a reward
      without an amount, adds nothing. */
  lemma {:induction false} RelayTotalIsSumOfPresent(es: seq<HistoryElement>)
    ensures SumBy(es, RelayAmount) == Sum(PresentRelayAmounts(es))
  {
    if |es| > 0 {
      RelayTotalIsSumOfPresent(es[1..]);
      var e := es[0];
      var head := if e.reward.Some? && e.reward.value.amount.Some? then [e.reward.value.amount.value] else [];
      SumConcat(head, PresentRelayAmounts(es[1..]));
    }
  }

  /** The row `sync` stores. */
  datatype TotalRewardLocal = TotalRewardLocal(accountAddress: string, totalReward: int)

  /** What the indexers answer, one function per endpoint. The Subquery
      endpoint is given already mapped to its total, since its mapper is
      outside this model. */
  datatype Indexers = Indexers(
    subqueryTotal: (string, string) -> int,
    ethRewards: (string, string) -> seq<EthReward>,
    relayHistory: (string, string) -> seq<HistoryElement>,
    giantsquidRewards: (string, string) -> seq<StakingReward>)

  /** The total for a query, from the matching endpoint. */
  function TotalFor(q: Query, api: Indexers): int {
    match q
    case SubqueryQuery(url, address) => api.subqueryTotal(url, address)
    case SubsquidEthQuery(url, address) => SumBy(api.ethRewards(url, address), EthAmount)
    case SubsquidRelayQuery(url, address) => SumBy(api.relayHistory(url, address), RelayAmount)
    case GiantsquidQuery(url, id) => SumBy(api.giantsquidRewards(url, id), GiantsquidAmount)
  }

  /** `sync`: the row stored for the account, or the warning thrown. */
  function Sync(chains: map<string, Chain>, chainId: string, accountAddress: string,
                toAccountIdHex: string -> Outcome<string>, api: Indexers): (r: Outcome<TotalRewardLocal>)
    ensures r.Throws? <==>
              chainId !in chains || Unsupported(chains[chainId]) || HexFails(chains[chainId], accountAddress, toAccountIdHex)
    ensures chainId !in chains ==> r == Throws(UnknownChain(chainId))
    ensures chainId in chains && Unsupported(chains[chainId]) ==> r == Throws(RewardsNotSupported)
    ensures chainId in chains && HexFails(chains[chainId], accountAddress, toAccountIdHex) ==>
              r == Throws(toAccountIdHex(accountAddress).cause)
    ensures r.Returns? ==> r.value.accountAddress == accountAddress
    ensures r.Returns? && StakingTypeOf(chains[chainId]) == Some(Subsquid) && chains[chainId].isEthereumBased ==>
              r.value.totalReward == Sum(PresentEthAmounts(api.ethRewards(StakingUrl(chains[chainId]).value, accountAddress)))
    ensures r.Returns? && StakingTypeOf(chains[chainId]) == Some(Subsquid) && !chains[chainId].isEthereumBased ==>
              r.value.totalReward == Sum(PresentRelayAmounts(api.relayHistory(StakingUrl(chains[chainId]).value, accountAddress)))
    ensures r.Returns? && StakingTypeOf(chains[chainId]) == Some(Giantsquid) ==>
              r.value.totalReward
              == SumBy(api.giantsquidRewards(StakingUrl(chains[chainId]).value, toAccountIdHex(accountAddress).value), GiantsquidAmount)
    ensures r.Returns? && StakingTypeOf(chains[chainId]) == Some(Subquery) ==>
              r.value.totalReward == api.subqueryTotal(StakingUrl(chains[chainId]).value, accountAddress)
  {
    match SyncQuery(chains, chainId, accountAddress, toAccountIdHex)
    case Throws(e) => Throws(e)
    case Returns(q) =>
      EthTotalIsSumOfPresent(api.ethRewards(q.url, accountAddress));
      RelayTotalIsSumOfPresent(api.relayHistory(q.url, accountAddress));
      Returns(TotalRewardLocal(accountAddress, TotalFor(q, api)))
  }

  /** Every endpoint's total is additive over the pages of an answer. */
  lemma TotalsAreAdditive(a: seq<EthReward>, b: seq<EthReward>, c: seq<HistoryElement>, d: seq<HistoryElement>,
                          e: seq<StakingReward>, f: seq<StakingReward>)
    ensures SumBy(a + b, EthAmount) == SumBy(a, EthAmount) + SumBy(b, EthAmount)
    ensures SumBy(c + d, RelayAmount) == SumBy(c, RelayAmount) + SumBy(d, RelayAmount)
    ensures SumBy(e + f, GiantsquidAmount) == SumBy(e, GiantsquidAmount) + SumBy(f, GiantsquidAmount)
  {
    SumByConcat(a, b, EthAmount);
    SumByConcat(c, d, RelayAmount);
    SumByConcat(e, f, GiantsquidAmount);
  }
}

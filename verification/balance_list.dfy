/** The pure parts of `BalanceListViewModel`: the chain selector list, the
    asset list, the per-asset fiat-symbol flag, the network-issue banner,
    where a click on an asset leads, the hidden-assets toggle and the
    chain selection remembered per account address. `defaultChainSort` and
    `AppVersion.isSupported` are parameters. */
module BalanceList {
  import opened Base
  import opened Seqs
  import opened Text

  // ---------------------------------------------------------------------
  // Chain selector
  // ---------------------------------------------------------------------

  /** A chain as the selector shows it; `tokenSymbols` pairs an asset id
      with the symbol shown for it. */
  datatype ChainItem = ChainItem(id: string, title: string, tokenSymbols: seq<(string, string)>)

  datatype ChainSelectScreen = ChainSelectScreen(chains: seq<ChainItem>, selectedChainId: Option<string>, searchQuery: string)

  /** Some token symbol of the chain contains the query, ignoring case. */
  predicate SomeSymbolContains(symbols: seq<(string, string)>, query: string)
    ensures SomeSymbolContains(symbols, query) <==> exists i :: 0 <= i < |symbols| && ContainsIgnoreCase(symbols[i].1, query)
  {
    if |symbols| == 0 then false
    else
      assert forall i :: 0 < i < |symbols| ==> symbols[1..][i - 1] == symbols[i];
      ContainsIgnoreCase(symbols[0].1, query) || SomeSymbolContains(symbols[1..], query)
  }

  /** The search filter of `chainsState`. */
  predicate MatchesQuery(c: ChainItem, query: string) {
    |query| == 0 || ContainsIgnoreCase(c.title, query) || SomeSymbolContains(c.tokenSymbols, query)
  }

  /** Ordered by `defaultChainSort` of the id (as a rank), then by title. */
  predicate ChainLe(rank: string -> int, a: ChainItem, b: ChainItem) {
    if rank(a.id) != rank(b.id) then rank(a.id) < rank(b.id) else LexLe(a.title, b.title)
  }

  function ChainOrder(rank: string -> int): (ChainItem, ChainItem) -> bool {
    (a, b) => ChainLe(rank, a, b)
  }

  lemma ChainOrderIsTotalPreorder(rank: string -> int)
    ensures TotalPreorder(ChainOrder(rank))
  {
    forall a: ChainItem, b: ChainItem ensures ChainLe(rank, a, b) || ChainLe(rank, b, a) {
      LexLeTotal(a.title, b.title);
    }
    forall a: ChainItem, b: ChainItem, c: ChainItem | ChainLe(rank, a, b) && ChainLe(rank, b, c)
      ensures ChainLe(rank, a, c)
    {
      if rank(a.id) == rank(b.id) && rank(b.id) == rank(c.id) {
        LexLeTransitive(a.title, b.title, c.title);
      }
    }
  }

  /** The chains matching the query, each as often as it is listed, in
      list order. */
  function MatchingChains(items: seq<ChainItem>, query: string): (r: seq<ChainItem>)
    ensures forall i :: 0 <= i < |r| ==> r[i] in items && MatchesQuery(r[i], query)
    ensures forall i :: 0 <= i < |items| && MatchesQuery(items[i], query) ==> items[i] in r
    ensures forall c :: multiset(r)[c] == if MatchesQuery(c, query) then multiset(items)[c] else 0
    ensures |query| == 0 ==> r == items
  {
    var matches := (c: ChainItem) => MatchesQuery(c, query);
    FilterMultisetAll(items, matches);
    if |query| == 0 then
      FilterAll(items, matches);
      Filter(items, matches)
    else Filter(items, matches)
  }

  /** `chainsState`: the matching chains (all of them for an empty query),
      sorted by rank and title, with the selection and query passed on. */
  function ChainsState(items: seq<ChainItem>, selected: Option<string>, query: string, rank: string -> int): (s: ChainSelectScreen)
    ensures s.selectedChainId == selected && s.searchQuery == query
    ensures forall c :: c in s.chains <==> c in items && MatchesQuery(c, query)
    ensures multiset(s.chains) == multiset(MatchingChains(items, query))
    ensures |query| == 0 ==> multiset(s.chains) == multiset(items)
    ensures SortedBy(s.chains, ChainOrder(rank))
  {
    var matching := MatchingChains(items, query);
    var sorted := Sort(matching, ChainOrder(rank));
    ChainOrderIsTotalPreorder(rank);
    SortSorted(matching, ChainOrder(rank));
    assert forall c :: c in sorted <==> c in multiset(matching);
    ChainSelectScreen(sorted, selected, query)
  }

  // ---------------------------------------------------------------------
  // Asset list
  // ---------------------------------------------------------------------

  /** The configuration of an asset on its chain. */
  datatype ChainAsset = ChainAsset(
    id: string, chainId: string, chainName: string, symbol: string, symbolToShow: string,
    iconUrl: string, priceId: Option<string>, isTestNet: bool)

  datatype Token = Token(configuration: ChainAsset, fiatRate: Option<real>, fiatSymbol: Option<string>, recentRateChange: Option<real>)

  datatype Asset = Asset(token: Token, total: Option<real>, fiatAmount: Option<real>, enabled: bool, markedNotNeed: bool)

  datatype AssetWithStatus = AssetWithStatus(asset: Asset, hasAccount: bool)

  /** A chain as the asset list needs it. */
  datatype Chain = Chain(id: string, name: string, icon: string, minSupportedVersion: Option<string>,
                         assetSymbols: seq<string>, nodeCount: nat)

  /** One row of the asset list, without the formatting of its amounts. */
  datatype AssetListItem = AssetListItem(
    assetIconUrl: string,
    assetChainName: string,
    assetSymbol: string,
    displayName: string,
    assetBalance: real,
    assetBalanceFiat: Option<real>,
    assetChainUrls: map<string, string>,
    chainId: string,
    chainAssetId: string,
    isSupported: bool,
    isHidden: bool,
    hasAccount: bool,
    priceId: Option<string>,
    hasNetworkIssue: bool)

  function Config(a: AssetWithStatus): ChainAsset {
    a.asset.token.configuration
  }

  /** The first two filters of `assetStates`: shown when the account exists
      or the asset is not marked as not needed, and on the selected chain
      when a chain is selected. */
  predicate IsListed(a: AssetWithStatus, selected: Option<string>) {
    && (a.hasAccount || !a.asset.markedNotNeed)
    && (selected.None? || selected.value == Config(a).chainId)
  }

  function ListedAssets(assets: seq<AssetWithStatus>, selected: Option<string>): (r: seq<AssetWithStatus>)
    ensures forall i :: 0 <= i < |r| ==> r[i] in assets && IsListed(r[i], selected)
    ensures forall i :: 0 <= i < |assets| && IsListed(assets[i], selected) ==> assets[i] in r
    ensures forall a :: multiset(r)[a] == if IsListed(a, selected) then multiset(assets)[a] else 0
  {
    var listed := (a: AssetWithStatus) => IsListed(a, selected);
    FilterMultisetAll(assets, listed);
    Filter(assets, listed)
  }

  /** `defaultAssetListSort`: a positive balance first, then the larger
      fiat amount, then main nets before test nets, then by chain rank, then
      by chain name. */
  predicate AssetLe(rank: string -> int, a: AssetWithStatus, b: AssetWithStatus) {
    var pa := OrZeroReal(a.asset.total) > 0.0;
    var pb := OrZeroReal(b.asset.total) > 0.0;
    var fa := OrZeroReal(a.asset.fiatAmount);
    var fb := OrZeroReal(b.asset.fiatAmount);
    if pa != pb then pa
    else if fa != fb then fa > fb
    else if Config(a).isTestNet != Config(b).isTestNet then !Config(a).isTestNet
    else if rank(Config(a).chainId) != rank(Config(b).chainId) then rank(Config(a).chainId) < rank(Config(b).chainId)
    else LexLe(Config(a).chainName, Config(b).chainName)
  }

  function AssetOrder(rank: string -> int): (AssetWithStatus, AssetWithStatus) -> bool {
    (a, b) => AssetLe(rank, a, b)
  }

  /** Equal on every key but the last. */
  predicate SameLeadingKeys(rank: string -> int, a: AssetWithStatus, b: AssetWithStatus) {
    && (OrZeroReal(a.asset.total) > 0.0) == (OrZeroReal(b.asset.total) > 0.0)
    && OrZeroReal(a.asset.fiatAmount) == OrZeroReal(b.asset.fiatAmount)
    && Config(a).isTestNet == Config(b).isTestNet
    && rank(Config(a).chainId) == rank(Config(b).chainId)
  }

  lemma AssetLeTransitive(rank: string -> int, a: AssetWithStatus, b: AssetWithStatus, c: AssetWithStatus)
    requires AssetLe(rank, a, b) && AssetLe(rank, b, c)
    ensures AssetLe(rank, a, c)
  {
    if SameLeadingKeys(rank, a, b) && SameLeadingKeys(rank, b, c) {
      LexLeTransitive(Config(a).chainName, Config(b).chainName, Config(c).chainName);
    }
  }

  lemma AssetOrderIsTotalPreorder(rank: string -> int)
    ensures TotalPreorder(AssetOrder(rank))
  {
    forall a: AssetWithStatus, b: AssetWithStatus ensures AssetLe(rank, a, b) || AssetLe(rank, b, a) {
      LexLeTotal(Config(a).chainName, Config(b).chainName);
    }
    forall a: AssetWithStatus, b: AssetWithStatus, c: AssetWithStatus | AssetLe(rank, a, b) && AssetLe(rank, b, c)
      ensures AssetLe(rank, a, c)
    {
      AssetLeTransitive(rank, a, b, c);
    }
  }

  /** The listed assets in `defaultAssetListSort` order. */
  function SortedAssets(assets: seq<AssetWithStatus>, selected: Option<string>, rank: string -> int): (r: seq<AssetWithStatus>)
    ensures forall a :: a in r <==> a in assets && IsListed(a, selected)
    ensures multiset(r) == multiset(ListedAssets(assets, selected))
    ensures SortedBy(r, AssetOrder(rank))
  {
    var listed := ListedAssets(assets, selected);
    AssetOrderIsTotalPreorder(rank);
    SortSorted(listed, AssetOrder(rank));
    var r := Sort(listed, AssetOrder(rank));
    assert forall a :: a in r <==> a in multiset(listed);
    r
  }

  /** The first chain with the id, as `chains.find`. */
  function FindChain(chains: seq<Chain>, id: string): (r: Option<Chain>)
    ensures r.None? <==> forall i :: 0 <= i < |chains| ==> chains[i].id != id
    ensures r.Some? ==> r.value in chains && r.value.id == id
    ensures r.Some? ==>
              exists i :: 0 <= i < |chains| && chains[i] == r.value && forall j :: 0 <= j < i ==> chains[j].id != id
  {
    Find(chains, (c: Chain) => c.id == id)
  }

  predicate HasSymbol(c: Chain, symbolToShow: string) {
    symbolToShow in c.assetSymbols
  }

  /** `chains[i]` shows the symbol under `id`, and no later chain with
      that id does. */
  ghost predicate LastShowing(chains: seq<Chain>, symbolToShow: string, id: string, i: int) {
    && 0 <= i < |chains| && chains[i].id == id && HasSymbol(chains[i], symbolToShow)
    && forall j :: i < j < |chains| && chains[j].id == id ==> !HasSymbol(chains[j], symbolToShow)
  }

  /** The icon of every chain that has an asset shown with the symbol,
      by chain id (`associate`: a later chain with the same id wins). */
  function ChainUrls(chains: seq<Chain>, symbolToShow: string): (m: map<string, string>)
    ensures forall id :: id in m <==> exists i :: 0 <= i < |chains| && chains[i].id == id && HasSymbol(chains[i], symbolToShow)
    ensures forall id :: id in m ==> exists i :: LastShowing(chains, symbolToShow, id, i) && m[id] == chains[i].icon
  {
    if |chains| == 0 then map[]
    else
      var pre := chains[..|chains| - 1];
      var c := chains[|chains| - 1];
      assert chains == pre + [c];
      var m := ChainUrls(pre, symbolToShow);
      ChainUrlsKeysStep(pre, c, symbolToShow, m);
      ChainUrlsLastStep(pre, c, symbolToShow, m);
      if HasSymbol(c, symbolToShow) then m[c.id := c.icon] else m
  }

  /** Appending one chain to the list `associate` runs over: the keys of
      the longer list's map are the shorter one's, plus the chain's id when
      it shows the symbol. */
  lemma ChainUrlsKeysStep(pre: seq<Chain>, c: Chain, symbolToShow: string, m: map<string, string>)
    requires forall id :: id in m <==> exists i :: 0 <= i < |pre| && pre[i].id == id && HasSymbol(pre[i], symbolToShow)
    ensures var r := if HasSymbol(c, symbolToShow) then m[c.id := c.icon] else m;
            forall id :: id in r <==> exists i :: 0 <= i < |pre + [c]| && (pre + [c])[i].id == id && HasSymbol((pre + [c])[i], symbolToShow)
  {
    var chains := pre + [c];
    var r := if HasSymbol(c, symbolToShow) then m[c.id := c.icon] else m;
    forall id
      ensures id in r <==> exists i :: 0 <= i < |chains| && chains[i].id == id && HasSymbol(chains[i], symbolToShow)
    {
      if id == c.id && HasSymbol(c, symbolToShow) {
        assert chains[|pre|] == c;
      } else if id in r {
        var i :| 0 <= i < |pre| && pre[i].id == id && HasSymbol(pre[i], symbolToShow);
        assert chains[i] == pre[i];
      }
      if exists i :: 0 <= i < |chains| && chains[i].id == id && HasSymbol(chains[i], symbolToShow) {
        var i :| 0 <= i < |chains| && chains[i].id == id && HasSymbol(chains[i], symbolToShow);
        if i < |pre| { assert pre[i] == chains[i]; }
      }
    }
  }

  /** The same step for the icons: each id keeps the icon of the last
      chain showing the symbol under it. */
  lemma ChainUrlsLastStep(pre: seq<Chain>, c: Chain, symbolToShow: string, m: map<string, string>)
    requires forall id :: id in m ==> exists i :: LastShowing(pre, symbolToShow, id, i) && m[id] == pre[i].icon
    ensures var r := if HasSymbol(c, symbolToShow) then m[c.id := c.icon] else m;
            forall id :: id in r ==> exists i :: LastShowing(pre + [c], symbolToShow, id, i) && r[id] == (pre + [c])[i].icon
  {
    var chains := pre + [c];
    var r := if HasSymbol(c, symbolToShow) then m[c.id := c.icon] else m;
    forall id | id in r
      ensures exists i :: LastShowing(chains, symbolToShow, id, i) && r[id] == chains[i].icon
    {
      if id == c.id && HasSymbol(c, symbolToShow) {
        assert LastShowing(chains, symbolToShow, id, |pre|);
      } else {
        var i :| LastShowing(pre, symbolToShow, id, i) && m[id] == pre[i].icon;
        forall j | i < j < |chains| && chains[j].id == id
          ensures !HasSymbol(chains[j], symbolToShow)
        {
          if j < |pre| { assert chains[j] == pre[j]; }
        }
        assert chains[i] == pre[i];
        assert LastShowing(chains, symbolToShow, id, i);
      }
    }
  }

  /** The row built for one asset. */
  function BuildItem(a: AssetWithStatus, chains: seq<Chain>, selected: Option<string>, connecting: set<string>,
                     isSupportedVersion: string -> bool): (item: AssetListItem)
    ensures item.displayName == Config(a).symbolToShow
    ensures item.chainAssetId == Config(a).id
    ensures item.chainId == (if FindChain(chains, Config(a).chainId).Some? then Config(a).chainId else "")
    ensures item.isSupported <==>
              || FindChain(chains, Config(a).chainId).None?
              || FindChain(chains, Config(a).chainId).value.minSupportedVersion.None?
              || isSupportedVersion(FindChain(chains, Config(a).chainId).value.minSupportedVersion.value)
    ensures item.hasNetworkIssue <==> Config(a).chainId in connecting
    ensures selected.Some? ==> item.assetChainUrls == map[]
    ensures selected.None? ==> item.assetChainUrls == ChainUrls(chains, Config(a).symbolToShow)
    ensures item.isHidden <==> !a.asset.enabled
    ensures item.hasAccount == a.hasAccount
    ensures item.assetBalanceFiat.None? <==> a.asset.token.fiatRate.None?
  {
    var token := a.asset.token;
    var conf := token.configuration;
    var chainLocal := FindChain(chains, conf.chainId);
    var isSupported :=
      if chainLocal.None? || chainLocal.value.minSupportedVersion.None? then true
      else isSupportedVersion(chainLocal.value.minSupportedVersion.value);
    var total := OrZeroReal(a.asset.total);
    AssetListItem(
      assetIconUrl := conf.iconUrl,
      assetChainName := if chainLocal.Some? then chainLocal.value.name else "",
      assetSymbol := conf.symbol,
      displayName := conf.symbolToShow,
      assetBalance := total,
      assetBalanceFiat := if token.fiatRate.Some? then Some(token.fiatRate.value * total) else None,
      assetChainUrls := if selected.None? then ChainUrls(chains, conf.symbolToShow) else map[],
      chainId := if chainLocal.Some? then chainLocal.value.id else "",
      chainAssetId := conf.id,
      isSupported := isSupported,
      isHidden := !a.asset.enabled,
      hasAccount := a.hasAccount,
      priceId := conf.priceId,
      hasNetworkIssue := conf.chainId in connecting)
  }

  /** The state of the de-duplication after the first `n` names: `picked`
      holds, in order, the first position of every name seen so far, and
      `position` says where in `picked` each seen name is. */
  ghost predicate FirstsUpTo<K>(names: seq<K>, n: int, picked: seq<int>, position: map<K, int>) {
    && 0 <= n <= |names|
    && (forall i :: 0 <= i < |picked| ==> 0 <= picked[i] < n)
    && (forall i, j :: 0 <= i < j < |picked| ==> picked[i] < picked[j])
    && (forall i, l :: 0 <= i < |picked| && 0 <= l < picked[i] ==> names[l] != names[picked[i]])
    && (forall k :: 0 <= k < n ==> names[k] in position)
    && (forall x :: x in position ==> 0 <= position[x] < |picked| && names[picked[position[x]]] == x)
  }

  /** A new name is recorded at its first position. */
  lemma {:induction false} RecordNewName<K>(names: seq<K>, n: int, picked: seq<int>, position: map<K, int>)
    requires FirstsUpTo(names, n, picked, position) && n < |names| && names[n] !in position
    ensures FirstsUpTo(names, n + 1, picked + [n], position[names[n] := |picked|])
  {
    var picked' := picked + [n];
    var position' := position[names[n] := |picked|];
    assert forall i :: 0 <= i < |picked| ==> picked'[i] == picked[i];
    assert forall l :: 0 <= l < n ==> names[l] != names[n];
    forall x | x in position'
      ensures 0 <= position'[x] < |picked'| && names[picked'[position'[x]]] == x
    {
      if x != names[n] {
        assert position'[x] == position[x];
      }
    }
  }

  /** What the finished de-duplication delivers. */
  lemma FirstsComplete<K>(names: seq<K>, picked: seq<int>, position: map<K, int>)
    requires FirstsUpTo(names, |names|, picked, position)
    ensures forall i :: 0 <= i < |picked| ==> 0 <= picked[i] < |names|
    ensures forall i, j :: 0 <= i < j < |picked| ==> picked[i] < picked[j]
    ensures forall i, j :: 0 <= i < j < |picked| ==> names[picked[i]] != names[picked[j]]
    ensures forall i, l :: 0 <= i < |picked| && 0 <= l < picked[i] ==> names[l] != names[picked[i]]
    ensures forall x :: x in names ==> exists i :: 0 <= i < |picked| && names[picked[i]] == x
  {
    forall i, j | 0 <= i < j < |picked| ensures names[picked[i]] != names[picked[j]] {
      assert 0 <= picked[i] < picked[j];
    }
    forall x | x in names
      ensures exists i :: 0 <= i < |picked| && names[picked[i]] == x
    {
      var k :| 0 <= k < |names| && names[k] == x;
      var i := position[x];
      assert 0 <= i < |picked| && names[picked[i]] == x;
    }
  }

  /** The de-duplication of `assetStates`, on the display names alone: the
      positions, in order, of the first occurrence of every name. */
  method FirstOfEachName<K(==)>(names: seq<K>) returns (picked: seq<int>)
    ensures forall i :: 0 <= i < |picked| ==> 0 <= picked[i] < |names|
    ensures forall i, j :: 0 <= i < j < |picked| ==> picked[i] < picked[j]
    ensures forall i, j :: 0 <= i < j < |picked| ==> names[picked[i]] != names[picked[j]]
    ensures forall i, l :: 0 <= i < |picked| && 0 <= l < picked[i] ==> names[l] != names[picked[i]]
    ensures forall x :: x in names ==> exists i :: 0 <= i < |picked| && names[picked[i]] == x
  {
    picked := [];
    var position: map<K, int> := map[];
    var n := 0;
    while n < |names|
      invariant FirstsUpTo(names, n, picked, position)
    {
      if names[n] !in position {
        RecordNewName(names, n, picked, position);
        position := position[names[n] := |picked|];
        picked := picked + [n];
      }
      n := n + 1;
    }
    FirstsComplete(names, picked, position);
  }

  function DisplayNames(sorted: seq<AssetWithStatus>): (names: seq<string>)
    ensures |names| == |sorted|
    ensures forall k :: 0 <= k < |sorted| ==> names[k] == Config(sorted[k]).symbolToShow
  {
    seq(|sorted|, k requires 0 <= k < |sorted| => Config(sorted[k]).symbolToShow)
  }

  /** The display names of the rows, in order. */
  function RowNames(items: seq<AssetListItem>): (names: seq<string>)
    ensures |names| == |items|
    ensures forall i :: 0 <= i < |items| ==> names[i] == items[i].displayName
  {
    seq(|items|, i requires 0 <= i < |items| => items[i].displayName)
  }

  /** Every display name among the sorted assets is among the picked ones. */
  lemma EveryNameKept(sorted: seq<AssetWithStatus>, names: seq<string>, picked: seq<int>, rowNames: seq<string>)
    requires |names| == |sorted|
    requires forall k :: 0 <= k < |sorted| ==> names[k] == Config(sorted[k]).symbolToShow
    requires forall i :: 0 <= i < |picked| ==> 0 <= picked[i] < |names|
    requires forall x :: x in names ==> exists i :: 0 <= i < |picked| && names[picked[i]] == x
    requires |rowNames| == |picked|
    requires forall i :: 0 <= i < |picked| ==> rowNames[i] == names[picked[i]]
    ensures forall a :: a in sorted ==> Config(a).symbolToShow in rowNames
  {
    forall a | a in sorted ensures Config(a).symbolToShow in rowNames {
      var k :| 0 <= k < |sorted| && sorted[k] == a;
      assert names[k] in names;
      var i :| 0 <= i < |picked| && names[picked[i]] == names[k];
      assert rowNames[i] == names[k];
    }
  }

  /** The row built for each picked asset. */
  function PickedRows(sorted: seq<AssetWithStatus>, picked: seq<int>, chains: seq<Chain>, selected: Option<string>,
                      connecting: set<string>, isSupportedVersion: string -> bool): (rows: seq<AssetListItem>)
    requires forall i :: 0 <= i < |picked| ==> 0 <= picked[i] < |sorted|
    ensures |rows| == |picked|
    ensures forall i :: 0 <= i < |picked| ==> rows[i] == BuildItem(sorted[picked[i]], chains, selected, connecting, isSupportedVersion)
    ensures forall i :: 0 <= i < |picked| ==> rows[i].displayName == Config(sorted[picked[i]]).symbolToShow
  {
    seq(|picked|, i requires 0 <= i < |picked| => BuildItem(sorted[picked[i]], chains, selected, connecting, isSupportedVersion))
  }

  /** One row per display name of `sorted`, built from the first asset in
      `sorted` with that name; `origin` says which asset each row is built
      from. */
  method RowsByFirstName(sorted: seq<AssetWithStatus>, chains: seq<Chain>, selected: Option<string>, connecting: set<string>,
                         isSupportedVersion: string -> bool)
    returns (items: seq<AssetListItem>, origin: seq<int>)
    ensures |origin| == |items|
    ensures forall i, j :: 0 <= i < j < |items| ==> items[i].displayName != items[j].displayName
    ensures forall i :: 0 <= i < |items| ==>
              0 <= origin[i] < |sorted| && items[i] == BuildItem(sorted[origin[i]], chains, selected, connecting, isSupportedVersion)
    ensures forall i, l :: 0 <= i < |items| && 0 <= l < origin[i] ==> Config(sorted[l]).symbolToShow != items[i].displayName
    ensures forall a :: a in sorted ==> Config(a).symbolToShow in RowNames(items)
  {
    var names := DisplayNames(sorted);
    origin := FirstOfEachName(names);
    items := PickedRows(sorted, origin, chains, selected, connecting, isSupportedVersion);
    assert forall i :: 0 <= i < |origin| ==> items[i].displayName == names[origin[i]];
    EveryNameKept(sorted, names, origin, RowNames(items));
  }

  /** `item` is the row of an asset of `sorted` that no earlier asset of
      `sorted` shares its display name with. */
  ghost predicate BuiltFromFirst(sorted: seq<AssetWithStatus>, item: AssetListItem, chains: seq<Chain>, selected: Option<string>,
                                 connecting: set<string>, isSupportedVersion: string -> bool) {
    exists k :: 0 <= k < |sorted|
      && item == BuildItem(sorted[k], chains, selected, connecting, isSupportedVersion)
      && forall l :: 0 <= l < k ==> Config(sorted[l]).symbolToShow != item.displayName
  }

  /** `assetStates`: the listed assets in sort order, one row per display
      name, the first asset in sort order winning. */
  method AssetStates(assets: seq<AssetWithStatus>, chains: seq<Chain>, selected: Option<string>, connecting: set<string>,
                     rank: string -> int, isSupportedVersion: string -> bool)
    returns (items: seq<AssetListItem>)
    ensures forall i, j :: 0 <= i < j < |items| ==> items[i].displayName != items[j].displayName
    ensures forall i :: 0 <= i < |items| ==>
              BuiltFromFirst(SortedAssets(assets, selected, rank), items[i], chains, selected, connecting, isSupportedVersion)
    ensures forall a :: a in assets && IsListed(a, selected) ==> Config(a).symbolToShow in RowNames(items)
  {
    var sorted := SortedAssets(assets, selected, rank);
    var origin;
    items, origin := RowsByFirstName(sorted, chains, selected, connecting, isSupportedVersion);
    forall i | 0 <= i < |items|
      ensures BuiltFromFirst(sorted, items[i], chains, selected, connecting, isSupportedVersion)
    {
      var k := origin[i];
      assert 0 <= k < |sorted| && items[i] == BuildItem(sorted[k], chains, selected, connecting, isSupportedVersion);
    }
  }

  // ---------------------------------------------------------------------
  // Small rules
  // ---------------------------------------------------------------------

  /** `isTokenFiatChanged`: the token is priced in another currency than
      the selected one; unknown when either symbol is missing. */
  function IsTokenFiatChanged(selectedSymbol: Option<string>, tokenSymbol: Option<string>): (r: bool)
    ensures r <==> selectedSymbol.Some? && tokenSymbol.Some? && selectedSymbol.value != tokenSymbol.value
  {
    if selectedSymbol.None? then false
    else if tokenSymbol.None? then false
    else selectedSymbol.value != tokenSymbol.value
  }

  /** `hasNetworkIssues`: some row has no account or a network issue. */
  function HasNetworkIssues(items: seq<AssetListItem>): (r: bool)
    ensures r <==> exists i :: 0 <= i < |items| && (!items[i].hasAccount || items[i].hasNetworkIssue)
  {
    if |items| == 0 then false
    else
      assert forall i :: 0 < i < |items| ==> items[1..][i - 1] == items[i];
      !items[0].hasAccount || items[0].hasNetworkIssue || HasNetworkIssues(items[1..])
  }

  /** Where a click on a row leads. */
  datatype Navigation =
    | OpenNodes(chainId: string)
    | OpenNetworkAlert(chainName: string)
    | OpenOptionsAddAccount(metaId: int, chainId: string, chainName: string, assetId: string,
                            priceId: Option<string>, markedAsNotNeed: bool)
    | ShowUnsupportedChainAlert
    | OpenAssetDetails(chainId: string, chainAssetId: string)

  /** What `interactor.getChain` tells the click handler. */
  datatype ChainInfo = ChainInfo(name: string, nodeCount: nat)

  /** `assetClicked`: a network issue first (the node list when the chain
      has more than one node, else an alert), then a missing account, then
      an unsupported chain, and otherwise the asset's details. */
  function AssetClicked(item: AssetListItem, getChain: string -> ChainInfo, selectedMetaId: int): (nav: Navigation)
    ensures item.hasNetworkIssue ==> (nav.OpenNodes? || nav.OpenNetworkAlert?)
    ensures nav.OpenNodes? <==> item.hasNetworkIssue && getChain(item.chainId).nodeCount > 1
    ensures nav.OpenNodes? ==> nav.chainId == item.chainId
    ensures nav.OpenNetworkAlert? ==> nav.chainName == getChain(item.chainId).name
    ensures nav.OpenOptionsAddAccount? <==> !item.hasNetworkIssue && !item.hasAccount
    ensures nav.OpenOptionsAddAccount? ==>
              nav == OpenOptionsAddAccount(selectedMetaId, item.chainId, item.assetChainName, item.chainAssetId, item.priceId, false)
    ensures nav.ShowUnsupportedChainAlert? <==> !item.hasNetworkIssue && item.hasAccount && !item.isSupported
    ensures nav.OpenAssetDetails? <==> !item.hasNetworkIssue && item.hasAccount && item.isSupported
    ensures nav.OpenAssetDetails? ==> nav.chainId == item.chainId && nav.chainAssetId == item.chainAssetId
  {
    if item.hasNetworkIssue then
      var chain := getChain(item.chainId);
      if chain.nodeCount > 1 then OpenNodes(item.chainId) else OpenNetworkAlert(chain.name)
    else if !item.hasAccount then
      OpenOptionsAddAccount(selectedMetaId, item.chainId, item.assetChainName, item.chainAssetId, item.priceId, false)
    else if !item.isSupported then ShowUnsupportedChainAlert
    else OpenAssetDetails(item.chainId, item.chainAssetId)
  }

  /** `onHiddenAssetClicked`: the expansion flag flips; with no state yet
      it becomes collapsed. */
  function OnHiddenAssetClicked(isExpanded: Option<bool>): (r: bool)
    ensures isExpanded.Some? ==> r != isExpanded.value
    ensures isExpanded.None? ==> !r
  {
    if isExpanded.Some? then !isExpanded.value else false
  }

  /** Two clicks bring the hidden assets back to where they were. */
  lemma HiddenToggleIsInvolution(isExpanded: Option<bool>)
    requires isExpanded.Some?
    ensures OnHiddenAssetClicked(Some(OnHiddenAssetClicked(isExpanded))) == isExpanded.value
  {
  }

  // ---------------------------------------------------------------------
  // Chain selection per account address
  // ---------------------------------------------------------------------

  /** The selected chain and the selection remembered per address. */
  datatype SelectionState = SelectionState(selectedChainId: Option<string>, memory: map<string, Option<string>>)

  /** `currentAddressModelFlow`: an address seen for the first time clears
      the selection and is remembered with none; a known address gets its
      remembered selection back. */
  function OnAccountChanged(s: SelectionState, address: string): (r: SelectionState)
    ensures address in r.memory
    ensures address !in s.memory ==> r.selectedChainId.None? && r.memory == s.memory[address := None]
    ensures address in s.memory ==> r.selectedChainId == s.memory[address] && r.memory == s.memory
  {
    if address !in s.memory then SelectionState(None, s.memory[address := None])
    else SelectionState(s.memory[address], s.memory)
  }

  /** `onChainSelected`: the selection changes and is remembered for the
      current address. */
  function OnChainSelected(s: SelectionState, chainId: Option<string>, currentAddress: string): (r: SelectionState)
    ensures r.selectedChainId == chainId
    ensures currentAddress in r.memory && r.memory[currentAddress] == chainId
    ensures forall a :: a in s.memory && a != currentAddress ==> a in r.memory && r.memory[a] == s.memory[a]
    ensures r.memory.Keys == s.memory.Keys + {currentAddress}
  {
    SelectionState(chainId, s.memory[currentAddress := chainId])
  }

  /** Switching to another account and back restores the chain chosen
      for the first one. */
  lemma SelectionSurvivesAccountSwitch(s: SelectionState, a: string, b: string, chainId: Option<string>)
    requires a != b
    ensures OnAccountChanged(OnAccountChanged(OnChainSelected(s, chainId, a), b), a).selectedChainId == chainId
  {
  }

  /** Returning to an account does not change what is remembered. */
  lemma ReturningToAccountIsStable(s: SelectionState, a: string)
    ensures OnAccountChanged(OnAccountChanged(s, a), a) == OnAccountChanged(s, a)
  {
  }
}

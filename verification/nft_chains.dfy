/** NFT core, part 1: which chains take part, how one chain's page result
    becomes NFT collections, and how the per-chain lists are put together
    (`NFTInteractorImpl.userOwnedCollectionsFlow` and the chain lookup of
    `collectionNFTsFlow`). */
module NftChains {
  import opened Base
  import opened Seqs

  /** The chain fields the NFT core reads. */
  datatype Chain = Chain(id: string, name: string, supportNft: bool, alchemyNftId: Option<string>)

  /** Kotlin's `isNullOrEmpty()`. */
  predicate IsNullOrEmpty(s: Option<string>) {
    s.None? || |s.value| == 0
  }

  /** A chain the NFT provider can serve. */
  predicate SupportsNft(c: Chain) {
    c.supportNft && !IsNullOrEmpty(c.alchemyNftId)
  }

  /** The chains the owned-collections fetch runs on: NFT-capable chains,
      narrowed to the selected one when a selection is given. */
  function EligibleChains(chains: seq<Chain>, selection: Option<string>): (r: seq<Chain>)
    ensures forall c :: c in r <==> c in chains && SupportsNft(c) && (IsNullOrEmpty(selection) || c.id == selection.value)
    ensures |r| <= |chains|
  {
    var supported := Filter(chains, SupportsNft);
    if IsNullOrEmpty(selection) then supported
    else Filter(supported, (c: Chain) => c.id == selection.value)
  }

  /** With no selection, every NFT-capable chain takes part, as often as it
      is listed; with a selection, at most the chains carrying that id do. */
  lemma EligibleChainsCount(chains: seq<Chain>, selection: Option<string>, c: Chain)
    ensures IsNullOrEmpty(selection) && SupportsNft(c) ==> multiset(EligibleChains(chains, selection))[c] == multiset(chains)[c]
    ensures !SupportsNft(c) ==> multiset(EligibleChains(chains, selection))[c] == 0
    ensures !IsNullOrEmpty(selection) && c.id != selection.value ==> multiset(EligibleChains(chains, selection))[c] == 0
  {
    FilterMultiset(chains, SupportsNft, c);
    if !IsNullOrEmpty(selection) {
      FilterMultiset(Filter(chains, SupportsNft), (c: Chain) => c.id == selection.value, c);
    }
  }

  /** The chain the collection-detail pipeline works on: the first
      NFT-capable chain with the selected id; none is an error that ends the
      pipeline. */
  function DetailChain(chains: seq<Chain>, selection: string): (r: Outcome<Chain>)
    ensures r.Returns? <==> exists c :: c in chains && SupportsNft(c) && c.id == selection
    ensures r.Returns? ==> r.value in chains && SupportsNft(r.value) && r.value.id == selection
    ensures r.Returns? ==>
              exists i :: 0 <= i < |chains| && chains[i] == r.value &&
                forall j :: 0 <= j < i ==> !(SupportsNft(chains[j]) && chains[j].id == selection)
  {
    var supported := Filter(chains, SupportsNft);
    var found := Find(supported, (c: Chain) => c.id == selection);
    FindInFilter(chains, SupportsNft, (c: Chain) => c.id == selection);
    match found
    case Some(c) => Returns(c)
    case None => Throws(Throwable("IllegalStateException",
                                  "Chain with id - " + selection + " - is either not supported \nor does not support NFT operations."))
  }

  /** Finding in a filtered list is finding the first element satisfying
      both predicates. */
  lemma {:induction false} FindInFilter<T>(s: seq<T>, p: T -> bool, q: T -> bool)
    ensures Find(Filter(s, p), q) == Find(s, (x: T) => p(x) && q(x))
  {
    if |s| > 0 {
      FindInFilter(s[1..], p, q);
    }
  }

  /** One step of the paginated protocol: a page, or the end of pagination
      in one direction. */
  datatype PaginationEvent<P> = PageIsLoaded(items: seq<P>) | AllNextPagesLoaded | AllPreviousPagesLoaded

  /** What the interactor hands to the screen for one chain. `Data` carries
      the converted payload together with the chain it came from. */
  datatype NFTCollection<T> =
    | Empty(chainId: string, chainName: string)
    | Data(chainId: string, chainName: string, content: T)
    | Error(chainId: string, chainName: string, cause: Throwable)

  /** One chain's answer to one page request. */
  datatype ChainResult<C> = ChainResult(chain: Chain, result: Result<PaginationEvent<C>>)

  predicate IsNonEmptyPage<C>(result: Result<PaginationEvent<C>>) {
    result.Success? && result.value.PageIsLoaded? && |result.value.items| > 0
  }

  predicate HasData<T>(list: seq<NFTCollection<T>>) {
    exists i :: 0 <= i < |list| && list[i].Data?
  }

  /** Kotlin's `map` with a converter that may throw, as it runs inside
      `mapCatching`: every element converted in order, or the exception of
      the first element whose conversion throws. */
  function ConvertAll<C, T>(items: seq<C>, chain: Chain, convert: (C, Chain) -> Outcome<T>): (r: Outcome<seq<T>>)
    ensures r.Returns? <==> forall i :: 0 <= i < |items| ==> convert(items[i], chain).Returns?
    ensures r.Returns? ==>
              && |r.value| == |items|
              && forall i :: 0 <= i < |items| ==> r.value[i] == convert(items[i], chain).value
    ensures r.Throws? ==>
              exists i :: && 0 <= i < |items|
                          && convert(items[i], chain).Throws?
                          && r.cause == convert(items[i], chain).cause
                          && forall j :: 0 <= j < i ==> convert(items[j], chain).Returns?
  {
    if |items| == 0 then Returns([])
    else
      match convert(items[0], chain)
      case Throws(e) => Throws(e)
      case Returns(x) =>
        var rest := ConvertAll(items[1..], chain, convert);
        assert forall i :: 0 <= i < |items| - 1 ==> items[1..][i] == items[i + 1];
        match rest
        case Throws(e) =>
          assert exists i :: && 0 <= i < |items|
                             && convert(items[i], chain).Throws?
                             && e == convert(items[i], chain).cause
                             && forall j :: 0 <= j < i ==> convert(items[j], chain).Returns?
          by {
            var k :| && 0 <= k < |items| - 1
                     && convert(items[1..][k], chain).Throws?
                     && e == convert(items[1..][k], chain).cause
                     && forall j :: 0 <= j < k ==> convert(items[1..][j], chain).Returns?;
            assert forall j :: 0 <= j < k + 1 ==> convert(items[j], chain).Returns? by {
              forall j | 0 <= j < k + 1 ensures convert(items[j], chain).Returns? {
                if j > 0 {
                  assert items[j] == items[1..][j - 1];
                }
              }
            }
          }
          Throws(e)
        case Returns(xs) => Returns([x] + xs)
  }

  /** A non-empty page all of whose contracts convert. */
  predicate ConvertsPage<C, T>(chain: Chain, result: Result<PaginationEvent<C>>, toLight: (C, Chain) -> Outcome<T>) {
    IsNonEmptyPage(result) && forall i :: 0 <= i < |result.value.items| ==> toLight(result.value.items[i], chain).Returns?
  }

  /** The per-chain mapping of the owned-collections flow: a non-empty page
      gives one light collection per contract; any other event or an empty
      page gives one `Empty`; a failed request, or a contract whose
      conversion throws, gives one `Error`. */
  function OwnedCollections<C, T>(chain: Chain, result: Result<PaginationEvent<C>>, toLight: (C, Chain) -> Outcome<T>): (r: seq<NFTCollection<T>>)
    ensures |r| >= 1
    ensures forall i :: 0 <= i < |r| ==> r[i].chainId == chain.id && r[i].chainName == chain.name
    ensures HasData(r) <==> ConvertsPage(chain, result, toLight)
    ensures result.Failure? ==> r == [Error(chain.id, chain.name, result.cause)]
    ensures result.Success? && !IsNonEmptyPage(result) ==> r == [Empty(chain.id, chain.name)]
    ensures IsNonEmptyPage(result) && !ConvertsPage(chain, result, toLight) ==>
              exists i :: && 0 <= i < |result.value.items|
                          && toLight(result.value.items[i], chain).Throws?
                          && r == [Error(chain.id, chain.name, toLight(result.value.items[i], chain).cause)]
                          && forall j :: 0 <= j < i ==> toLight(result.value.items[j], chain).Returns?
    ensures ConvertsPage(chain, result, toLight) ==>
              && |r| == |result.value.items|
              && forall i :: 0 <= i < |r| ==> r[i] == Data(chain.id, chain.name, toLight(result.value.items[i], chain).value)
  {
    match result
    case Failure(e) =>
      var r := [Error(chain.id, chain.name, e)];
      assert !r[0].Data?;
      r
    case Success(event) =>
      if !event.PageIsLoaded? || |event.items| == 0 then
        var r := [Empty(chain.id, chain.name)];
        assert !r[0].Data?;
        r
      else
        match ConvertAll(event.items, chain, toLight)
        case Throws(e) =>
          var r := [Error(chain.id, chain.name, e)];
          assert !r[0].Data?;
          r
        case Returns(ps) =>
          var r := seq(|ps|, i requires 0 <= i < |ps| => Data(chain.id, chain.name, ps[i]));
          assert r[0].Data?;
          r
  }

  /** All chains' collections for one request: the per-chain lists, one
      after the other. */
  function Aggregate<C, T>(rs: seq<ChainResult<C>>, toLight: (C, Chain) -> Outcome<T>): (r: seq<NFTCollection<T>>)
    ensures |r| >= |rs|
  {
    if |rs| == 0 then []
    else OwnedCollections(rs[0].chain, rs[0].result, toLight) + Aggregate(rs[1..], toLight)
  }

  lemma {:induction false} AggregateConcat<C, T>(a: seq<ChainResult<C>>, b: seq<ChainResult<C>>, toLight: (C, Chain) -> Outcome<T>)
    ensures Aggregate(a + b, toLight) == Aggregate(a, toLight) + Aggregate(b, toLight)
  {
    if |a| == 0 {
      assert a + b == b;
    } else {
      assert (a + b)[1..] == a[1..] + b;
      AggregateConcat(a[1..], b, toLight);
    }
  }

  predicate Asked<C>(rs: seq<ChainResult<C>>, id: string) {
    exists k :: 0 <= k < |rs| && rs[k].chain.id == id
  }

  predicate DistinctChains<C>(rs: seq<ChainResult<C>>) {
    forall k, l :: 0 <= k < l < |rs| ==> rs[k].chain.id != rs[l].chain.id
  }

  /** The entries of a collection list that carry chain `id`, in order. */
  function EntriesOf<T>(list: seq<NFTCollection<T>>, id: string): (r: seq<NFTCollection<T>>)
    ensures forall i :: 0 <= i < |r| ==> r[i].chainId == id && r[i] in list
  {
    if |list| == 0 then []
    else (if list[0].chainId == id then [list[0]] else []) + EntriesOf(list[1..], id)
  }

  lemma {:induction false} EntriesOfConcat<T>(a: seq<NFTCollection<T>>, b: seq<NFTCollection<T>>, id: string)
    ensures EntriesOf(a + b, id) == EntriesOf(a, id) + EntriesOf(b, id)
  {
    if |a| == 0 {
      assert a + b == b;
    } else {
      var head: seq<NFTCollection<T>> := if a[0].chainId == id then [a[0]] else [];
      assert (a + b)[0] == a[0];
      assert (a + b)[1..] == a[1..] + b;
      EntriesOfConcat(a[1..], b, id);
      assert EntriesOf(a + b, id) == head + (EntriesOf(a[1..], id) + EntriesOf(b, id));
      assert EntriesOf(a, id) == head + EntriesOf(a[1..], id);
    }
  }

  /** A list tagged throughout with one chain: its entries for that chain
      are all of it, for any other chain none. */
  lemma {:induction false} EntriesOfTagged<T>(list: seq<NFTCollection<T>>, tag: string, id: string)
    requires forall i :: 0 <= i < |list| ==> list[i].chainId == tag
    ensures EntriesOf(list, id) == if tag == id then list else []
  {
    if |list| > 0 {
      EntriesOfTagged(list[1..], tag, id);
      assert list == [list[0]] + list[1..];
    }
  }

  /** One step of the isolation proof: the aggregate's entries for `id` are
      the first chain's entries followed by the rest's. */
  lemma AggregateEntriesStep<C, T>(rs: seq<ChainResult<C>>, id: string, toLight: (C, Chain) -> Outcome<T>)
    requires |rs| > 0
    ensures EntriesOf(Aggregate(rs, toLight), id)
         == (if rs[0].chain.id == id then OwnedCollections(rs[0].chain, rs[0].result, toLight) else [])
            + EntriesOf(Aggregate(rs[1..], toLight), id)
  {
    var head := OwnedCollections(rs[0].chain, rs[0].result, toLight);
    EntriesOfConcat(head, Aggregate(rs[1..], toLight), id);
    EntriesOfTagged(head, rs[0].chain.id, id);
  }

  /** Chain isolation, for a chain that was not asked: no entry names it. */
  lemma {:induction false} UnaskedChainHasNoEntries<C, T>(rs: seq<ChainResult<C>>, id: string, toLight: (C, Chain) -> Outcome<T>)
    requires !Asked(rs, id)
    ensures EntriesOf(Aggregate(rs, toLight), id) == []
  {
    if |rs| > 0 {
      AggregateEntriesStep(rs, id, toLight);
      assert !Asked(rs[1..], id) by {
        forall k | 0 <= k < |rs[1..]| ensures rs[1..][k].chain.id != id {
          assert rs[1..][k] == rs[k + 1];
        }
      }
      UnaskedChainHasNoEntries(rs[1..], id, toLight);
    }
  }

  /** Chain isolation: the entries tagged with a chain are exactly that
      chain's own mapping, whatever the other chains answered. */
  lemma {:induction false} ChainIsolation<C, T>(rs: seq<ChainResult<C>>, k: int, toLight: (C, Chain) -> Outcome<T>)
    requires DistinctChains(rs)
    requires 0 <= k < |rs|
    ensures EntriesOf(Aggregate(rs, toLight), rs[k].chain.id) == OwnedCollections(rs[k].chain, rs[k].result, toLight)
  {
    var id := rs[k].chain.id;
    AggregateEntriesStep(rs, id, toLight);
    if k == 0 {
      assert !Asked(rs[1..], id) by {
        forall l | 0 <= l < |rs[1..]| ensures rs[1..][l].chain.id != id {
          assert rs[1..][l] == rs[l + 1];
        }
      }
      UnaskedChainHasNoEntries(rs[1..], id, toLight);
    } else {
      assert DistinctChains(rs[1..]) by {
        forall i, j | 0 <= i < j < |rs[1..]| ensures rs[1..][i].chain.id != rs[1..][j].chain.id {
          assert rs[1..][i] == rs[i + 1] && rs[1..][j] == rs[j + 1];
        }
      }
      assert rs[1..][k - 1] == rs[k];
      ChainIsolation(rs[1..], k - 1, toLight);
    }
  }

  /** Fan-out completeness: every chain asked contributes at least one
      entry, tagged with its own id. */
  lemma AggregateCoversEveryChain<C, T>(rs: seq<ChainResult<C>>, k: int, toLight: (C, Chain) -> Outcome<T>)
    requires DistinctChains(rs)
    requires 0 <= k < |rs|
    ensures exists e :: e in Aggregate(rs, toLight) && e.chainId == rs[k].chain.id && e.chainName == rs[k].chain.name
  {
    ChainIsolation(rs, k, toLight);
    var own := OwnedCollections(rs[k].chain, rs[k].result, toLight);
    assert own[0] in EntriesOf(Aggregate(rs, toLight), rs[k].chain.id);
  }

  lemma AggregateSingle<C, T>(x: ChainResult<C>, toLight: (C, Chain) -> Outcome<T>)
    ensures Aggregate([x], toLight) == OwnedCollections(x.chain, x.result, toLight)
  {
    assert [x][1..] == [];
  }

  /** Taking one chain's answer out of the middle of a batch. */
  lemma AggregateSplit<C, T>(a: seq<ChainResult<C>>, x: ChainResult<C>, b: seq<ChainResult<C>>, toLight: (C, Chain) -> Outcome<T>)
    ensures multiset(Aggregate(a + [x] + b, toLight))
         == multiset(OwnedCollections(x.chain, x.result, toLight)) + multiset(Aggregate(a + b, toLight))
  {
    AggregateConcat(a + [x], b, toLight);
    AggregateConcat(a, [x], toLight);
    AggregateConcat(a, b, toLight);
    AggregateSingle(x, toLight);
  }

  /** Locates the first element of `rs` inside a permutation `rs'` of it. */
  lemma PickOut<T>(rs: seq<T>, rs': seq<T>) returns (a: seq<T>, b: seq<T>)
    requires |rs| > 0 && multiset(rs) == multiset(rs')
    ensures rs' == a + [rs[0]] + b
    ensures multiset(rs[1..]) == multiset(a + b)
  {
    var x := rs[0];
    assert x in multiset(rs');
    var i :| 0 <= i < |rs'| && rs'[i] == x;
    a, b := rs'[..i], rs'[i + 1..];
    assert rs' == a + [x] + b;
    assert rs == [x] + rs[1..];
    assert multiset(rs) == multiset{x} + multiset(rs[1..]);
    assert multiset(rs') == multiset(a) + multiset{x} + multiset(b);
    assert multiset(a + b) == multiset(a) + multiset(b);
    calc {
      multiset(rs[1..]);
      multiset(rs) - multiset{x};
      (multiset(a) + multiset{x} + multiset(b)) - multiset{x};
      multiset(a) + multiset(b);
    }
  }

  /** The order in which chains answer does not change what is shown, only
      where: reordering the answers permutes the aggregate. */
  lemma {:induction false} AggregatePermutation<C, T>(rs: seq<ChainResult<C>>, rs': seq<ChainResult<C>>, toLight: (C, Chain) -> Outcome<T>)
    requires multiset(rs) == multiset(rs')
    ensures multiset(Aggregate(rs, toLight)) == multiset(Aggregate(rs', toLight))
    decreases |rs|
  {
    if |rs| == 0 {
      assert |rs'| == |multiset(rs')|;
    } else {
      var a, b := PickOut(rs, rs');
      AggregateSplit(a, rs[0], b, toLight);
      AggregatePermutation(rs[1..], a + b, toLight);
      assert Aggregate(rs, toLight) == OwnedCollections(rs[0].chain, rs[0].result, toLight) + Aggregate(rs[1..], toLight);
    }
  }

  /** A mixed batch: `polkadot` answers with one contract while
      `moonbeam` fails; the aggregate shows the converted contract and an
      error card for `moonbeam` only. */
  lemma MixedBatchScenario<T>(contract: string, cause: Throwable, toLight: (string, Chain) -> Outcome<T>)
    requires toLight(contract, Chain("polkadot", "Polkadot", true, Some("p"))).Returns?
    ensures Aggregate([ChainResult(Chain("polkadot", "Polkadot", true, Some("p")), Success(PageIsLoaded([contract]))),
                       ChainResult(Chain("moonbeam", "Moonbeam", true, Some("m")), Failure(cause))], toLight)
         == [Data("polkadot", "Polkadot", toLight(contract, Chain("polkadot", "Polkadot", true, Some("p"))).value),
             Error("moonbeam", "Moonbeam", cause)]
  {
    var x := ChainResult(Chain("polkadot", "Polkadot", true, Some("p")), Success(PageIsLoaded([contract])));
    var y := ChainResult(Chain("moonbeam", "Moonbeam", true, Some("m")), Failure(cause));
    AggregateConcat([x], [y], toLight);
    AggregateSingle(x, toLight);
    AggregateSingle(y, toLight);
    assert [x] + [y] == [x, y];
  }

  /** A contract whose conversion throws turns its whole page into one
      `Error` carrying that exception, even when the contract before it
      converts; the other chains are not affected. */
  lemma ConverterFailureScenario<T>(good: string, bad: string, cause: Throwable, other: ChainResult<string>,
                                    toLight: (string, Chain) -> Outcome<T>)
    requires toLight(good, Chain("polkadot", "Polkadot", true, Some("p"))).Returns?
    requires toLight(bad, Chain("polkadot", "Polkadot", true, Some("p"))) == Throws(cause)
    ensures Aggregate([ChainResult(Chain("polkadot", "Polkadot", true, Some("p")), Success(PageIsLoaded([good, bad]))), other], toLight)
         == [Error("polkadot", "Polkadot", cause)] + OwnedCollections(other.chain, other.result, toLight)
  {
    var chain := Chain("polkadot", "Polkadot", true, Some("p"));
    var x := ChainResult(chain, Success(PageIsLoaded([good, bad])));
    AggregateConcat([x], [other], toLight);
    AggregateSingle(x, toLight);
    AggregateSingle(other, toLight);
    assert [x] + [other] == [x, other];
    assert x.result.value.items[1] == bad;
    assert !ConvertsPage(chain, x.result, toLight);
  }
}

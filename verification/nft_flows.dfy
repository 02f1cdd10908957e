/** NFT core, part 2: the public flows of `NFTInteractorImpl` as
    sequential systems over a trace of events — the owned-collections flow
    (aggregate, then stale fallback) and the collection-detail flow (two
    producers behind the non-blocking hand-off gate, each with its own
    stale fallback) — plus the filter toggle and the two point queries. */
module NftFlows {
  import opened Base
  import opened NftChains
  import opened StaleFallback

  // ---------------------------------------------------------------------
  // Owned collections
  // ---------------------------------------------------------------------

  /** The aggregate of every batch of chain answers, one per request. */
  function AggregateAll<C, T>(batches: seq<seq<ChainResult<C>>>, toLight: (C, Chain) -> Outcome<T>): (r: seq<seq<NFTCollection<T>>>)
    ensures |r| == |batches|
    ensures forall i :: 0 <= i < |r| ==> r[i] == Aggregate(batches[i], toLight)
  {
    seq(|batches|, i requires 0 <= i < |batches| => Aggregate(batches[i], toLight))
  }

  /** `userOwnedCollectionsFlow`: each batch's aggregate, passed through the
      stale fallback whose "real data" is "holds at least one `Data`". */
  function UserOwnedCollections<C, T>(batches: seq<seq<ChainResult<C>>>, toLight: (C, Chain) -> Outcome<T>): (out: seq<seq<NFTCollection<T>>>)
    ensures |out| == |batches|
  {
    Run(None, AggregateAll(batches, toLight), HasData)
  }

  /** What the owned flow shows for batch `j`: its own aggregate if that
      holds data; otherwise the last earlier aggregate that held data; and
      when there is none, its own aggregate. */
  lemma UserOwnedShowsLastData<C, T>(batches: seq<seq<ChainResult<C>>>, j: int, toLight: (C, Chain) -> Outcome<T>)
    requires 0 <= j < |batches|
    ensures HasData(Aggregate(batches[j], toLight)) ==> UserOwnedCollections(batches, toLight)[j] == Aggregate(batches[j], toLight)
    ensures !HasData(Aggregate(batches[j], toLight)) ==>
              || (exists k :: 0 <= k < j && HasData(Aggregate(batches[k], toLight)) &&
                   UserOwnedCollections(batches, toLight)[j] == Aggregate(batches[k], toLight) &&
                   forall l :: k < l < j ==> !HasData(Aggregate(batches[l], toLight)))
              || ((forall k :: 0 <= k < j ==> !HasData(Aggregate(batches[k], toLight))) &&
                   UserOwnedCollections(batches, toLight)[j] == Aggregate(batches[j], toLight))
  {
    var trace := AggregateAll(batches, toLight);
    var out := UserOwnedCollections(batches, toLight);
    FallbackShowsLastRealAt(trace, HasData, j);
    if !HasData(trace[j]) {
      if exists k :: 0 <= k < j && HasData(trace[k]) && out[j] == trace[k] && forall l :: k < l < j ==> !HasData(trace[l]) {
        var k :| 0 <= k < j && HasData(trace[k]) && out[j] == trace[k] && forall l :: k < l < j ==> !HasData(trace[l]);
        assert forall l :: k < l < j ==> !HasData(Aggregate(batches[l], toLight)) by {
          forall l | k < l < j ensures !HasData(Aggregate(batches[l], toLight)) {
            assert trace[l] == Aggregate(batches[l], toLight);
          }
        }
        assert HasData(Aggregate(batches[k], toLight)) && out[j] == Aggregate(batches[k], toLight);
      } else {
        assert forall k :: 0 <= k < j ==> !HasData(Aggregate(batches[k], toLight)) by {
          forall k | 0 <= k < j ensures !HasData(Aggregate(batches[k], toLight)) {
            assert trace[k] == Aggregate(batches[k], toLight);
          }
        }
      }
    }
  }

  /** No regression for the owned flow: once a list with `Data` has been
      shown, every later list shown holds `Data`. */
  lemma UserOwnedNeverRegresses<C, T>(batches: seq<seq<ChainResult<C>>>, i: int, j: int, toLight: (C, Chain) -> Outcome<T>)
    requires 0 <= i <= j < |batches|
    requires HasData(UserOwnedCollections(batches, toLight)[i])
    ensures HasData(UserOwnedCollections(batches, toLight)[j])
  {
    NoRegression(AggregateAll(batches, toLight), HasData, i, j);
  }

  /** A page with data followed by
      `AllNextPagesLoaded` keeps showing the data. */
  lemma DataThenEndScenario<T>(chain: Chain, contract: string, toLight: (string, Chain) -> Outcome<T>)
    requires toLight(contract, chain).Returns?
    ensures UserOwnedCollections([[ChainResult(chain, Success(PageIsLoaded([contract])))],
                                  [ChainResult(chain, Success(AllNextPagesLoaded))]], toLight)
         == [[Data(chain.id, chain.name, toLight(contract, chain).value)],
             [Data(chain.id, chain.name, toLight(contract, chain).value)]]
  {
    var b0 := [ChainResult(chain, Success(PageIsLoaded([contract])))];
    var b1: seq<ChainResult<string>> := [ChainResult(chain, Success(AllNextPagesLoaded))];
    AggregateSingle(b0[0], toLight);
    AggregateSingle(b1[0], toLight);
    assert b0 == [b0[0]] && b1 == [b1[0]];
    var trace := AggregateAll([b0, b1], toLight);
    assert b0[0].result.value.items[0] == contract;
    assert trace[0] == [Data(chain.id, chain.name, toLight(contract, chain).value)];
    assert trace[1] == [Empty(chain.id, chain.name)];
    assert HasData(trace[0]) && !HasData(trace[1]);
    FallbackShowsLastReal(trace, HasData, 0);
    FallbackShowsLastReal(trace, HasData, 1);
    assert trace[..1] == [trace[0]];
  }

  // ---------------------------------------------------------------------
  // Collection detail: the hand-off gate
  // ---------------------------------------------------------------------

  /** The two producers sharing the request stream and the sink. */
  datatype Producer = UserOwned | Available

  const UserOwnedNFTsStartedLoading: int := 0
  const AvailableNFTsStartedLoading: int := 1

  /** The token value that lets a producer's requests through. */
  function UnlockOn(p: Producer): int {
    match p
    case UserOwned => UserOwnedNFTsStartedLoading
    case Available => AvailableNFTsStartedLoading
  }

  predicate ValidToken(token: int) {
    token == UserOwnedNFTsStartedLoading || token == AvailableNFTsStartedLoading
  }

  function Other(p: Producer): Producer {
    match p
    case UserOwned => Available
    case Available => UserOwned
  }

  /** A request handed to one producer. */
  datatype Delivery<R> = Delivery(to: Producer, request: R)

  /** Both producers' filters, each evaluated on its own: a producer gets
      the request when the token equals its `unlockOn`. */
  function Gate<R>(token: int, request: R): (ds: seq<Delivery<R>>)
    ensures ValidToken(token) ==> |ds| == 1
    ensures !ValidToken(token) ==> |ds| == 0
    ensures forall i :: 0 <= i < |ds| ==> ds[i].request == request && UnlockOn(ds[i].to) == token
  {
    (if token == UnlockOn(UserOwned) then [Delivery(UserOwned, request)] else [])
    + (if token == UnlockOn(Available) then [Delivery(Available, request)] else [])
  }

  /** A producer's page result that hands the floor over: the end of the
      owned pages forward, or the end of the collection pages backward. */
  predicate HandsOver<P>(from: Producer, result: Result<PaginationEvent<P>>) {
    && result.Success?
    && match from
       case UserOwned => result.value.AllNextPagesLoaded?
       case Available => result.value.AllPreviousPagesLoaded?
  }

  /** The collection the detail flow shows for one page result: `Data`
      for a non-empty page the converter accepts, `Error` for a failed
      request or a conversion that throws, `Empty` otherwise. */
  function DetailCollection<P, T>(chain: Chain, result: Result<PaginationEvent<P>>, toFull: (seq<P>, Chain) -> Outcome<T>): (c: NFTCollection<T>)
    ensures c.chainId == chain.id && c.chainName == chain.name
    ensures c.Data? <==> IsNonEmptyPage(result) && toFull(result.value.items, chain).Returns?
    ensures c.Error? <==> result.Failure? || (IsNonEmptyPage(result) && toFull(result.value.items, chain).Throws?)
    ensures c.Data? ==> c.content == toFull(result.value.items, chain).value
    ensures c.Error? && result.Failure? ==> c.cause == result.cause
    ensures c.Error? && result.Success? ==> c.cause == toFull(result.value.items, chain).cause
  {
    match result
    case Failure(e) => Error(chain.id, chain.name, e)
    case Success(event) =>
      if !event.PageIsLoaded? || |event.items| == 0 then Empty(chain.id, chain.name)
      else
        match toFull(event.items, chain)
        case Throws(e) => Error(chain.id, chain.name, e)
        case Returns(full) => Data(chain.id, chain.name, full)
  }

  /** What the detail flow sends: a collection with the request it answers. */
  datatype Shown<T, R> = Shown(collection: NFTCollection<T>, paginationRequest: R)

  predicate IsDataShown<T, R>(s: Shown<T, R>) {
    s.collection.Data?
  }

  /** What happens next in the detail flow: the screen asks for a page, or
      one producer answers a request for one chain. */
  datatype DetailInput<P, R> =
    | Request(request: R)
    | Response(from: Producer, chain: Chain, result: Result<PaginationEvent<P>>, paginationRequest: R)

  /** The flow's state: the token, the latest request (kept by the combine
      with the re-signal), and each producer's remembered last `Data`. */
  datatype DetailState<T, R> = DetailState(
    token: int,
    latestRequest: Option<R>,
    ownedLastGood: Option<Shown<T, R>>,
    availableLastGood: Option<Shown<T, R>>)

  /** What one step produces: requests handed to producers, and at most
      one value sent to the screen, with the producer that sent it. */
  datatype StepOutput<T, R> = StepOutput(deliveries: seq<Delivery<R>>, sent: Option<(Producer, Shown<T, R>)>)

  function InitialDetailState<T, R>(): DetailState<T, R> {
    DetailState(UserOwnedNFTsStartedLoading, None, None, None)
  }

  function CacheOf<T, R>(s: DetailState<T, R>, p: Producer): Option<Shown<T, R>> {
    match p
    case UserOwned => s.ownedLastGood
    case Available => s.availableLastGood
  }

  function WithCache<T, R>(s: DetailState<T, R>, p: Producer, c: Option<Shown<T, R>>): DetailState<T, R> {
    match p
    case UserOwned => s.(ownedLastGood := c)
    case Available => s.(availableLastGood := c)
  }

  /** One step of `collectionNFTsFlow`. A request goes through the gate. A
      response is mapped and passed through its producer's fallback; if it
      hands over, the token flips and the re-signal re-delivers the latest
      request through the gate. */
  function DetailStep<P, T, R>(s: DetailState<T, R>, input: DetailInput<P, R>, toFull: (seq<P>, Chain) -> Outcome<T>): (r: (DetailState<T, R>, StepOutput<T, R>))
    ensures ValidToken(s.token) ==> ValidToken(r.0.token)
    ensures forall i :: 0 <= i < |r.1.deliveries| ==> UnlockOn(r.1.deliveries[i].to) == r.0.token
    ensures input.Request? ==>
              && r.0 == s.(latestRequest := Some(input.request))
              && r.1.sent.None?
              && (ValidToken(s.token) ==> |r.1.deliveries| == 1 && r.1.deliveries[0].request == input.request)
    ensures input.Response? && HandsOver(input.from, input.result) ==>
              && r.0.token == UnlockOn(Other(input.from))
              && (s.latestRequest.Some? ==> r.1.deliveries == [Delivery(Other(input.from), s.latestRequest.value)])
              && (s.latestRequest.None? ==> r.1.deliveries == [])
    ensures input.Response? && !HandsOver(input.from, input.result) ==>
              r.0.token == s.token && r.1.deliveries == []
    ensures input.Response? ==>
              && r.0.latestRequest == s.latestRequest
              && CacheOf(r.0, Other(input.from)) == CacheOf(s, Other(input.from))
              && r.1.sent.Some? && r.1.sent.value.0 == input.from
  {
    match input
    case Request(req) =>
      (s.(latestRequest := Some(req)), StepOutput(Gate(s.token, req), None))
    case Response(from, chain, result, req) =>
      var current := Shown(DetailCollection(chain, result, toFull), req);
      var lastGood := CacheOf(s, from);
      var sent := Emit(lastGood, current, IsDataShown);
      var token := if HandsOver(from, result) then UnlockOn(Other(from)) else s.token;
      var redelivered :=
        if HandsOver(from, result) && s.latestRequest.Some? then Gate(token, s.latestRequest.value) else [];
      (WithCache(s.(token := token), from, Remember(lastGood, current, IsDataShown)),
       StepOutput(redelivered, Some((from, sent))))
  }

  /** The state after a whole trace. */
  function StateAfter<P, T, R>(s: DetailState<T, R>, trace: seq<DetailInput<P, R>>, toFull: (seq<P>, Chain) -> Outcome<T>): DetailState<T, R> {
    if |trace| == 0 then s
    else DetailStep(StateAfter(s, trace[..|trace| - 1], toFull), trace[|trace| - 1], toFull).0
  }

  /** Everything the flow does for a trace, one step output per input. */
  function RunDetail<P, T, R>(s: DetailState<T, R>, trace: seq<DetailInput<P, R>>, toFull: (seq<P>, Chain) -> Outcome<T>): (out: seq<StepOutput<T, R>>)
    ensures |out| == |trace|
  {
    if |trace| == 0 then []
    else
      var pre := trace[..|trace| - 1];
      RunDetail(s, pre, toFull) + [DetailStep(StateAfter(s, pre, toFull), trace[|trace| - 1], toFull).1]
  }

  lemma {:induction false} RunDetailAt<P, T, R>(s: DetailState<T, R>, trace: seq<DetailInput<P, R>>, j: int, toFull: (seq<P>, Chain) -> Outcome<T>)
    requires 0 <= j < |trace|
    ensures RunDetail(s, trace, toFull)[j] == DetailStep(StateAfter(s, trace[..j], toFull), trace[j], toFull).1
  {
    var pre := trace[..|trace| - 1];
    if j < |trace| - 1 {
      RunDetailAt(s, pre, j, toFull);
      assert pre[..j] == trace[..j];
    } else {
      assert pre == trace[..j];
    }
  }

  /** The token stays one of the two phases along any trace. */
  lemma {:induction false} TokenStaysValid<P, T, R>(trace: seq<DetailInput<P, R>>, toFull: (seq<P>, Chain) -> Outcome<T>)
    ensures ValidToken(StateAfter(InitialDetailState(), trace, toFull).token)
  {
    if |trace| > 0 {
      TokenStaysValid(trace[..|trace| - 1], toFull);
    }
  }

  /** Hand-off exclusivity: every request of the screen reaches exactly one
      producer, the one the token names at that moment. */
  lemma RequestReachesOneProducer<P, T, R>(trace: seq<DetailInput<P, R>>, j: int, toFull: (seq<P>, Chain) -> Outcome<T>)
    requires 0 <= j < |trace| && trace[j].Request?
    ensures |RunDetail(InitialDetailState(), trace, toFull)[j].deliveries| == 1
    ensures RunDetail(InitialDetailState(), trace, toFull)[j].deliveries[0].request == trace[j].request
    ensures UnlockOn(RunDetail(InitialDetailState(), trace, toFull)[j].deliveries[0].to)
         == StateAfter(InitialDetailState(), trace[..j], toFull).token
  {
    RunDetailAt(InitialDetailState(), trace, j, toFull);
    TokenStaysValid(trace[..j], toFull);
  }

  predicate IsHandOver<P, R>(input: DetailInput<P, R>) {
    input.Response? && HandsOver(input.from, input.result)
  }

  /** The token, stated without the state machine: the phase of the
      producer the last hand-over passed the floor to, or the owned phase
      when nothing has been handed over yet. */
  lemma {:induction false} TokenIsLastHandOver<P, T, R>(trace: seq<DetailInput<P, R>>, toFull: (seq<P>, Chain) -> Outcome<T>)
    ensures StateAfter(InitialDetailState(), trace, toFull).token
         == match LastSatisfying(trace, IsHandOver)
            case None => UserOwnedNFTsStartedLoading
            case Some(h) => UnlockOn(Other(h.from))
  {
    if |trace| > 0 {
      TokenIsLastHandOver(trace[..|trace| - 1], toFull);
    }
  }

  /** After a producer hands over, the token names the other producer
      until that one hands back. */
  lemma {:induction false} TokenAfterHandOver<P, T, R>(trace: seq<DetailInput<P, R>>, i: int, from: Producer, toFull: (seq<P>, Chain) -> Outcome<T>)
    requires 0 <= i < |trace| && IsHandOver(trace[i]) && trace[i].from == from
    requires forall k :: i < k < |trace| ==> !(IsHandOver(trace[k]) && trace[k].from == Other(from))
    ensures StateAfter(InitialDetailState(), trace, toFull).token == UnlockOn(Other(from))
  {
    var pre := trace[..|trace| - 1];
    if i < |trace| - 1 {
      assert forall k :: i < k < |pre| ==> pre[k] == trace[k];
      TokenAfterHandOver(pre, i, from, toFull);
    }
  }

  /** The hand-off: after the owned producer reports `AllNextPagesLoaded`,
      requests go to the available producer until that one reports
      `AllPreviousPagesLoaded`. */
  lemma HandOffToAvailable<P, T, R>(trace: seq<DetailInput<P, R>>, i: int, j: int, toFull: (seq<P>, Chain) -> Outcome<T>)
    requires 0 <= i < j < |trace|
    requires trace[i].Response? && trace[i].from == UserOwned && HandsOver(UserOwned, trace[i].result)
    requires forall k :: i < k < j ==> !(trace[k].Response? && trace[k].from == Available && HandsOver(Available, trace[k].result))
    requires trace[j].Request?
    ensures RunDetail(InitialDetailState(), trace, toFull)[j].deliveries == [Delivery(Available, trace[j].request)]
  {
    var pre := trace[..j];
    assert forall k :: 0 <= k < |pre| ==> pre[k] == trace[k];
    TokenAfterHandOver(pre, i, UserOwned, toFull);
    RunDetailAt(InitialDetailState(), trace, j, toFull);
  }

  /** And back: after the available producer reports
      `AllPreviousPagesLoaded`, requests go to the owned producer until it
      reports `AllNextPagesLoaded` again. */
  lemma HandBackToOwned<P, T, R>(trace: seq<DetailInput<P, R>>, i: int, j: int, toFull: (seq<P>, Chain) -> Outcome<T>)
    requires 0 <= i < j < |trace|
    requires trace[i].Response? && trace[i].from == Available && HandsOver(Available, trace[i].result)
    requires forall k :: i < k < j ==> !(trace[k].Response? && trace[k].from == UserOwned && HandsOver(UserOwned, trace[k].result))
    requires trace[j].Request?
    ensures RunDetail(InitialDetailState(), trace, toFull)[j].deliveries == [Delivery(UserOwned, trace[j].request)]
  {
    var pre := trace[..j];
    assert forall k :: 0 <= k < |pre| ==> pre[k] == trace[k];
    TokenAfterHandOver(pre, i, Available, toFull);
    RunDetailAt(InitialDetailState(), trace, j, toFull);
  }

  /** The values one producer sent to the screen, in order. */
  function SentBy<T, R>(outs: seq<StepOutput<T, R>>, p: Producer): seq<Shown<T, R>> {
    if |outs| == 0 then []
    else
      var last := outs[|outs| - 1];
      SentBy(outs[..|outs| - 1], p)
      + (if last.sent.Some? && last.sent.value.0 == p then [last.sent.value.1] else [])
  }

  /** The collections one producer's answers map to, before the fallback. */
  function AnswersOf<P, T, R>(trace: seq<DetailInput<P, R>>, p: Producer, toFull: (seq<P>, Chain) -> Outcome<T>): seq<Shown<T, R>> {
    if |trace| == 0 then []
    else
      var last := trace[|trace| - 1];
      AnswersOf(trace[..|trace| - 1], p, toFull)
      + (if last.Response? && last.from == p then [Shown(DetailCollection(last.chain, last.result, toFull), last.paginationRequest)] else [])
  }

  /** Each producer has a stale fallback of its own: what it sends is
      exactly the combiner run over its own answers, whatever the other
      producer and the gate do. */
  lemma {:induction false} ProducerFallbackIsolated<P, T, R>(trace: seq<DetailInput<P, R>>, p: Producer, toFull: (seq<P>, Chain) -> Outcome<T>)
    ensures CacheOf(StateAfter(InitialDetailState(), trace, toFull), p) == Remembered(None, AnswersOf(trace, p, toFull), IsDataShown)
    ensures SentBy(RunDetail(InitialDetailState(), trace, toFull), p) == Run(None, AnswersOf(trace, p, toFull), IsDataShown)
  {
    if |trace| > 0 {
      var pre := trace[..|trace| - 1];
      var last := trace[|trace| - 1];
      ProducerFallbackIsolated(pre, p, toFull);
      var outs := RunDetail(InitialDetailState(), trace, toFull);
      assert outs[..|outs| - 1] == RunDetail(InitialDetailState(), pre, toFull);
      var answers := AnswersOf(trace, p, toFull);
      if last.Response? && last.from == p {
        assert answers[..|answers| - 1] == AnswersOf(pre, p, toFull);
      } else {
        assert answers == AnswersOf(pre, p, toFull);
      }
    }
  }

  /** No regression for the detail flow, per producer: once a producer has
      sent `Data`, everything it sends later is `Data`, possibly the old
      pair with its old request. */
  lemma DetailNeverRegresses<P, T, R>(trace: seq<DetailInput<P, R>>, p: Producer, i: int, j: int, toFull: (seq<P>, Chain) -> Outcome<T>)
    requires 0 <= i <= j < |SentBy(RunDetail(InitialDetailState(), trace, toFull), p)|
    requires SentBy(RunDetail(InitialDetailState(), trace, toFull), p)[i].collection.Data?
    ensures SentBy(RunDetail(InitialDetailState(), trace, toFull), p)[j].collection.Data?
  {
    ProducerFallbackIsolated(trace, p, toFull);
    NoRegression(AnswersOf(trace, p, toFull), IsDataShown, i, j);
  }

  // ---------------------------------------------------------------------
  // Filters
  // ---------------------------------------------------------------------

  /** An NFT filter, known by its enum name. */
  datatype NFTFilter = NFTFilter(name: string)

  /** `nftFiltersFlow`: every filter maps to "applied", which holds when its
      name is not among the names the repository stores. */
  function FiltersMap(all: seq<NFTFilter>, stored: set<string>): (m: map<NFTFilter, bool>)
    ensures m.Keys == set i | 0 <= i < |all| :: all[i]
    ensures forall f :: f in m ==> (m[f] <==> f.name !in stored)
  {
    map i | 0 <= i < |all| :: all[i] := all[i].name !in stored
  }

  /** The repository's `setNFTFilter(name, flag)`: a true flag stores the
      name, a false one removes it. */
  function StoreFilterFlag(stored: set<string>, name: string, flag: bool): set<string> {
    if flag then stored + {name} else stored - {name}
  }

  /** `setNFTFilter`: the repository is told the negation of `isApplied`. */
  function SetNFTFilter(stored: set<string>, filter: NFTFilter, isApplied: bool): (r: set<string>)
    ensures filter.name in r <==> !isApplied
    ensures forall n :: n != filter.name ==> (n in r <==> n in stored)
  {
    StoreFilterFlag(stored, filter.name, !isApplied)
  }

  /** Round trip: after setting a filter, the filter map reports it as set,
      and every filter with another name as before. */
  lemma SetThenObserveFilter(all: seq<NFTFilter>, stored: set<string>, f: NFTFilter, isApplied: bool, g: NFTFilter)
    requires f in all && g in all
    ensures f in FiltersMap(all, SetNFTFilter(stored, f, isApplied))
    ensures FiltersMap(all, SetNFTFilter(stored, f, isApplied))[f] == isApplied
    ensures g.name != f.name ==> FiltersMap(all, SetNFTFilter(stored, f, isApplied))[g] == FiltersMap(all, stored)[g]
  {
  }

  // ---------------------------------------------------------------------
  // Point queries
  // ---------------------------------------------------------------------

  /** The fields of a full NFT the owners query reads. */
  datatype FullNFT = FullNFT(chainId: string, contractAddress: Option<string>, tokenId: Option<string>)

  /** `getOwnersForNFT`: an unknown chain throws; a missing contract address
      or token id is a failed result; otherwise the repository's answer. */
  function GetOwnersForNFT(chains: map<string, Chain>, token: FullNFT,
                           tokenOwners: (Chain, string, string) -> Result<seq<string>>): (r: Outcome<Result<seq<string>>>)
    ensures r.Throws? <==> token.chainId !in chains
    ensures r.Returns? && (token.contractAddress.None? || token.tokenId.None?) ==> r.value.Failure?
    ensures r.Returns? && token.contractAddress.Some? && token.tokenId.Some? ==>
              r.value == tokenOwners(chains[token.chainId], token.contractAddress.value, token.tokenId.value)
  {
    if token.chainId !in chains then Throws(UnknownChain(token.chainId))
    else
      var chain := chains[token.chainId];
      match (token.contractAddress, token.tokenId)
      case (None, _) => Returns(Failure(Throwable("IllegalStateException", "TokenId supplied is null.")))
      case (_, None) => Returns(Failure(Throwable("IllegalStateException", "TokenId supplied is null.")))
      case (Some(contract), Some(id)) => Returns(tokenOwners(chain, contract, id))
  }

  /** `getNFTDetails`: an unknown chain throws; the repository's failure is
      passed on unchanged; its token is converted. The conversion runs in
      `Result.map`, not `mapCatching`, so an exception it throws is not
      caught into the result but escapes the call. */
  function GetNFTDetails<M, F>(chains: map<string, Chain>, chainId: string, contract: string, tokenId: string,
                               tokenMetadata: (Chain, string, string) -> Result<M>,
                               toFullNFT: (M, Chain, string) -> Outcome<F>): (r: Outcome<Result<F>>)
    ensures r.Throws? <==>
              || chainId !in chains
              || (var m := tokenMetadata(chains[chainId], contract, tokenId);
                  m.Success? && toFullNFT(m.value, chains[chainId], contract).Throws?)
    ensures chainId !in chains ==> r == Throws(UnknownChain(chainId))
    ensures chainId in chains && r.Throws? ==>
              r.cause == toFullNFT(tokenMetadata(chains[chainId], contract, tokenId).value, chains[chainId], contract).cause
    ensures r.Returns? ==> (r.value.Failure? <==> tokenMetadata(chains[chainId], contract, tokenId).Failure?)
    ensures r.Returns? && r.value.Failure? ==> r.value.cause == tokenMetadata(chains[chainId], contract, tokenId).cause
    ensures r.Returns? && r.value.Success? ==>
              r.value.value == toFullNFT(tokenMetadata(chains[chainId], contract, tokenId).value, chains[chainId], contract).value
  {
    if chainId !in chains then Throws(UnknownChain(chainId))
    else
      var chain := chains[chainId];
      match tokenMetadata(chain, contract, tokenId)
      case Failure(e) => Returns(Failure(e))
      case Success(m) =>
        match toFullNFT(m, chain, contract)
        case Throws(e) => Throws(e)
        case Returns(nft) => Returns(Success(nft))
  }
}

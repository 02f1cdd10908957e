/** The decision logic of `AccountDataSourceImpl`: the per-chain account
    lookup table, the stored authentication type, the preferred crypto
    type, and the selected account kept in memory and in preferences. The
    mappers from stored accounts to `Account` values are parameters. */
module AccountDataSource {
  import opened Base

  // ---------------------------------------------------------------------
  // selectedAccountMapping
  // ---------------------------------------------------------------------

  /** The lookup table the merge is meant to build: a chain-specific account
      where the meta account has one, otherwise the account derived from
      the chain. */
  ghost predicate IsMergedMapping<M, CA, Ch, A>(mapping: map<string, Option<A>>, meta: M,
                                              chainAccounts: map<string, CA>, chainsById: map<string, Ch>,
                                              fromChainAccount: (M, CA) -> Option<A>, fromChain: (Ch, M) -> Option<A>) {
    && mapping.Keys == chainAccounts.Keys + chainsById.Keys
    && (forall id :: id in chainAccounts ==> mapping[id] == fromChainAccount(meta, chainAccounts[id]))
    && (forall id :: id in chainsById && id !in chainAccounts ==> mapping[id] == fromChain(chainsById[id], meta))
  }

  /** `selectedAccountMapping`: first every chain account under its chain
      id, then every chain of `chainsById` not yet in the table, in some
      order. */
  method SelectedAccountMapping<M, CA, Ch, A>(meta: M, chainAccounts: map<string, CA>, chainsById: map<string, Ch>,
                                              fromChainAccount: (M, CA) -> Option<A>, fromChain: (Ch, M) -> Option<A>)
    returns (mapping: map<string, Option<A>>)
    ensures mapping.Keys == chainAccounts.Keys + chainsById.Keys
    ensures forall id :: id in chainAccounts ==> mapping[id] == fromChainAccount(meta, chainAccounts[id])
    ensures forall id :: id in chainsById && id !in chainAccounts ==> mapping[id] == fromChain(chainsById[id], meta)
  {
    mapping := map id | id in chainAccounts :: fromChainAccount(meta, chainAccounts[id]);
    var remaining := chainsById.Keys;
    while remaining != {}
      invariant remaining <= chainsById.Keys
      invariant mapping.Keys == chainAccounts.Keys + (chainsById.Keys - remaining)
      invariant forall id :: id in chainAccounts ==> mapping[id] == fromChainAccount(meta, chainAccounts[id])
      invariant forall id :: id in chainsById && id !in remaining && id !in chainAccounts ==> mapping[id] == fromChain(chainsById[id], meta)
      decreases remaining
    {
      var chainId :| chainId in remaining;
      if chainId !in mapping {
        mapping := mapping[chainId := fromChain(chainsById[chainId], meta)];
      }
      remaining := remaining - {chainId};
    }
  }

  /** The merged table is unique: whatever order the chains are visited in,
      the merge builds the same table. */
  lemma MergedMappingIsUnique<M, CA, Ch, A>(m1: map<string, Option<A>>, m2: map<string, Option<A>>, meta: M,
                                             chainAccounts: map<string, CA>, chainsById: map<string, Ch>,
                                             fromChainAccount: (M, CA) -> Option<A>, fromChain: (Ch, M) -> Option<A>)
    requires IsMergedMapping(m1, meta, chainAccounts, chainsById, fromChainAccount, fromChain)
    requires IsMergedMapping(m2, meta, chainAccounts, chainsById, fromChainAccount, fromChain)
    ensures m1 == m2
  {
    forall id | id in m1 ensures m1[id] == m2[id] {
      if id !in chainAccounts {
        assert id in chainsById;
      }
    }
  }

  // ---------------------------------------------------------------------
  // Authentication type
  // ---------------------------------------------------------------------

  const PrefsAuthType: string := "auth_type"

  /** An `AuthType` constant, known by its name; `values` holds the names
      the enum declares. */
  datatype AuthType = AuthType(name: string)

  const Pincode: AuthType := AuthType("PINCODE")

  /** The canonical class name `Enum.valueOf` puts in its message. */
  const AuthTypeClassName := "jp.co.soramitsu.account.api.domain.model.AuthType"

  /** Kotlin's `Enum.valueOf`: the constant with that name, or
      `IllegalArgumentException` naming the class and the missing constant. */
  function ValueOf(values: set<string>, s: string): (r: Outcome<AuthType>)
    ensures r.Returns? <==> s in values
    ensures r.Returns? ==> r.value.name == s
    ensures r.Throws? ==> r.cause.kind == "IllegalArgumentException"
    ensures r.Throws? ==> r.cause.message == "No enum constant " + AuthTypeClassName + "." + s
  {
    if s in values then Returns(AuthType(s))
    else Throws(Throwable("IllegalArgumentException", "No enum constant " + AuthTypeClassName + "." + s))
  }

  /** `saveAuthType`: the preferences after storing the type's name. */
  function SaveAuthType(prefs: map<string, string>, t: AuthType): (r: map<string, string>)
    ensures PrefsAuthType in r && r[PrefsAuthType] == t.name
    ensures forall k :: k in prefs && k != PrefsAuthType ==> k in r && r[k] == prefs[k]
    ensures r.Keys == prefs.Keys + {PrefsAuthType}
  {
    prefs[PrefsAuthType := t.name]
  }

  /** `getAuthType`: `PINCODE` when nothing is stored, else the stored name
      parsed back. */
  function GetAuthType(prefs: map<string, string>, values: set<string>): (r: Outcome<AuthType>)
    ensures PrefsAuthType !in prefs ==> r == Returns(Pincode)
    ensures PrefsAuthType in prefs ==> (r.Returns? <==> prefs[PrefsAuthType] in values)
    ensures PrefsAuthType in prefs && r.Returns? ==> r.value.name == prefs[PrefsAuthType]
  {
    if PrefsAuthType !in prefs then Returns(Pincode) else ValueOf(values, prefs[PrefsAuthType])
  }

  /** Round trip: a saved type is read back. */
  lemma AuthTypeRoundTrip(prefs: map<string, string>, values: set<string>, t: AuthType)
    requires t.name in values
    ensures GetAuthType(SaveAuthType(prefs, t), values) == Returns(t)
  {
  }

  // ---------------------------------------------------------------------
  // Crypto type
  // ---------------------------------------------------------------------

  datatype CryptoType = SR25519 | ED25519 | ECDSA

  const DefaultCryptoType: CryptoType := SR25519

  /** `getPreferredCryptoTypeOrSelected`: the given meta account's type;
      with no id, the selected account's type, or `SR25519` when no account
      is selected. */
  function PreferredCryptoTypeOrSelected(metaId: Option<int>, selected: Option<CryptoType>,
                                         metaCryptoType: int -> CryptoType): (r: CryptoType)
    ensures metaId.Some? ==> r == metaCryptoType(metaId.value)
    ensures metaId.None? && selected.Some? ==> r == selected.value
    ensures metaId.None? && selected.None? ==> r == SR25519
  {
    match metaId
    case Some(id) => metaCryptoType(id)
    case None => if selected.Some? then selected.value else DefaultCryptoType
  }

  // ---------------------------------------------------------------------
  // Selected account
  // ---------------------------------------------------------------------

  const PrefsSelectedAccount: string := "selected_address"

  /** The one-slot replay cache of the selected account and the
      preferences it is written to. */
  datatype AccountStore<A> = AccountStore(cache: Option<A>, prefs: map<string, string>)

  const NoAccountSelected: Throwable := Throwable("IllegalArgumentException", "No account selected")

  /** `retrieveAccountFromStorage`: the stored JSON parsed, or the error. */
  function RetrieveAccountFromStorage<A>(prefs: map<string, string>, fromJson: string -> A): (r: Outcome<A>)
    ensures r.Throws? <==> PrefsSelectedAccount !in prefs
    ensures r.Throws? ==> r.cause == NoAccountSelected
    ensures r.Returns? ==> r.value == fromJson(prefs[PrefsSelectedAccount])
  {
    if PrefsSelectedAccount in prefs then Returns(fromJson(prefs[PrefsSelectedAccount])) else Throws(NoAccountSelected)
  }

  /** `getSelectedAccount`: the cached account when there is one; storage
      is read only otherwise. */
  function GetSelectedAccount<A>(store: AccountStore<A>, fromJson: string -> A): (r: Outcome<A>)
    ensures store.cache.Some? ==> r == Returns(store.cache.value)
    ensures store.cache.None? ==> r == RetrieveAccountFromStorage(store.prefs, fromJson)
    ensures r.Throws? <==> store.cache.None? && PrefsSelectedAccount !in store.prefs
  {
    if store.cache.Some? then Returns(store.cache.value) else RetrieveAccountFromStorage(store.prefs, fromJson)
  }

  /** `saveSelectedAccount`: the JSON is written and the account emitted. */
  function SaveSelectedAccount<A>(store: AccountStore<A>, account: A, toJson: A -> string): (r: AccountStore<A>)
    ensures r.cache == Some(account)
    ensures PrefsSelectedAccount in r.prefs && r.prefs[PrefsSelectedAccount] == toJson(account)
    ensures forall k :: k in store.prefs && k != PrefsSelectedAccount ==> k in r.prefs && r.prefs[k] == store.prefs[k]
    ensures r.prefs.Keys == store.prefs.Keys + {PrefsSelectedAccount}
  {
    AccountStore(Some(account), store.prefs[PrefsSelectedAccount := toJson(account)])
  }

  /** `createAccountFlow`: at start-up the cache holds the stored account
      when there is one. */
  function StartUp<A>(prefs: map<string, string>, fromJson: string -> A): (r: AccountStore<A>)
    ensures r.prefs == prefs
    ensures r.cache.Some? <==> PrefsSelectedAccount in prefs
  {
    AccountStore(if PrefsSelectedAccount in prefs then Some(fromJson(prefs[PrefsSelectedAccount])) else None, prefs)
  }

  /** Round trip: the account just saved is the selected one, whatever the
      JSON mapping does. */
  lemma SelectedAccountRoundTrip<A>(store: AccountStore<A>, account: A, toJson: A -> string, fromJson: string -> A)
    ensures GetSelectedAccount(SaveSelectedAccount(store, account, toJson), fromJson) == Returns(account)
  {
  }

  /** After a restart the selected account is the one in storage, and it
      is the last one saved when the JSON mapping round-trips. */
  lemma SelectedAccountSurvivesRestart<A>(store: AccountStore<A>, account: A, toJson: A -> string, fromJson: string -> A)
    requires fromJson(toJson(account)) == account
    ensures GetSelectedAccount(StartUp(SaveSelectedAccount(store, account, toJson).prefs, fromJson), fromJson) == Returns(account)
  {
  }

  /** Whether a cache was filled at start-up or not, reading the selected
      account right after start-up gives what storage holds. */
  lemma StartUpAgreesWithStorage<A>(prefs: map<string, string>, fromJson: string -> A)
    ensures GetSelectedAccount(StartUp(prefs, fromJson), fromJson) == RetrieveAccountFromStorage(prefs, fromJson)
  {
  }
}

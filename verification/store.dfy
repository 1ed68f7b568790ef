/**
 The storefront configuration context (`context/store.tsx`).

 The provider normalises the props it is given: the personalisation context
 is reduced to a customer group and a view history, the API endpoint and key
 are chosen by a case analysis on the environment type, and everything else
 passes through. Without a provider, consumers see a fixed default value.
 The endpoint and key constants are fixed when the bundle is built; here
 they are a parameter.
 */
module Store {
  import opened Js
  import opened Types

  /** `TEST_URL`, `API_URL` and `SANDBOX_KEY`. */
  datatype Constants = Constants(testUrl: string, apiUrl: string, sandboxKey: string)

  /** The product-redirect callback (`RedirectRouteFunc`), passed along unread. */
  datatype Route = Route(id: nat)

  /** `StoreDetailsProps` without `children`; `None` is a prop that is `undefined`. */
  datatype StoreDetails = StoreDetails(
    environmentId: string,
    environmentType: Option<string>,
    websiteCode: string,
    storeCode: string,
    storeViewCode: string,
    config: seq<Field>,
    context: Option<QueryContext>,
    apiUrl: Option<string>,
    apiKey: Option<string>,
    promoTilesDataPath: string,
    route: Option<Route>,
    searchQuery: Option<string>)

  /** `environmentType?.toLowerCase() === 'testing'` */
  predicate IsTesting(environmentType: Option<string>)
  {
    environmentType.Some? && ToLower(environmentType.value) == "testing"
  }

  /** The context the provider publishes: only the customer group and the view history, both defaulted. */
  function NormalisedContext(context: Option<QueryContext>): (c: QueryContext)
    ensures c.otherFields == []
    ensures c.customerGroup == Some(CustomerGroupOf(context))
    ensures c.userViewHistory.Some?
    ensures context.Some? && context.value.userViewHistory.Some? ==>
              c.userViewHistory == context.value.userViewHistory
    ensures (context.None? || context.value.userViewHistory.None?) ==> c.userViewHistory == Some([])
  {
    var history := match context case Some(q) => q.userViewHistory case None => None;
    QueryContext(Some(CustomerGroupOf(context)), Some(OrElse(history, [])), [])
  }

  /** The value `StoreContextProvider` publishes for its props (`storeProps`). */
  function StoreProps(p: StoreDetails, k: Constants): (r: StoreDetails)
    ensures IsTesting(p.environmentType) ==> r.apiUrl == Some(k.testUrl)
    ensures !IsTesting(p.environmentType) && Truthy(p.apiUrl) ==> r.apiUrl == p.apiUrl
    ensures !IsTesting(p.environmentType) && !Truthy(p.apiUrl) ==> r.apiUrl == Some(k.apiUrl)
    ensures IsTesting(p.environmentType) && !Truthy(p.apiKey) ==> r.apiKey == Some(k.sandboxKey)
    ensures !(IsTesting(p.environmentType) && !Truthy(p.apiKey)) ==> r.apiKey == p.apiKey
    ensures r.context == Some(NormalisedContext(p.context))
    ensures r == p.(apiUrl := r.apiUrl, apiKey := r.apiKey, context := r.context)
  {
    var testing := IsTesting(p.environmentType);
    p.(
      context := Some(NormalisedContext(p.context)),
      apiUrl := if testing then Some(k.testUrl) else if Truthy(p.apiUrl) then p.apiUrl else Some(k.apiUrl),
      apiKey := if testing && !Truthy(p.apiKey) then Some(k.sandboxKey) else p.apiKey)
  }

  /** Publishing what was published changes nothing: the resolution is idempotent. */
  lemma StorePropsIdempotent(p: StoreDetails, k: Constants)
    ensures StoreProps(StoreProps(p, k), k) == StoreProps(p, k)
  {
    var r := StoreProps(p, k);
    var r2 := StoreProps(r, k);
    assert r2.context == r.context;
    assert r2.apiUrl == r.apiUrl;
    assert r2.apiKey == r.apiKey;
  }

  /** The environment check ignores letter case: `'TESTING'` and `'Testing'` count as testing. */
  lemma EnvironmentTypeIgnoresCase(p: StoreDetails, k: Constants, t: string)
    ensures IsTesting(Some(ToUpper(t))) <==> IsTesting(Some(t))
    ensures StoreProps(p.(environmentType := Some(ToUpper(t))), k).apiUrl
         == StoreProps(p.(environmentType := Some(t)), k).apiUrl
    ensures StoreProps(p.(environmentType := Some(ToUpper(t))), k).apiKey
         == StoreProps(p.(environmentType := Some(t)), k).apiKey
  {
    ToLowerOfToUpper(t);
  }

  /** The sandbox key replaces a supplied key only in a testing environment, and only an empty or missing one. */
  lemma SandboxKeyOnlyWhenTestingAndMissing(p: StoreDetails, k: Constants)
    ensures StoreProps(p, k).apiKey != p.apiKey ==>
              IsTesting(p.environmentType) && !Truthy(p.apiKey) && Some(k.sandboxKey) != p.apiKey
  {
  }

  /** `useStore()` without a provider: the context's default value. */
  function DefaultStore(): (d: StoreDetails)
    ensures d.searchQuery == Some("q") && d.route.None?
    ensures d.apiUrl == Some("") && d.apiKey == Some("")
    ensures d.context == Some(QueryContext(None, None, []))
    ensures d.environmentId == "" && d.websiteCode == "" && d.storeCode == "" && d.storeViewCode == ""
    ensures d.environmentType == Some("") && d.promoTilesDataPath == "" && d.config == []
  {
    StoreDetails("", Some(""), "", "", "", [], Some(QueryContext(None, None, [])),
                 Some(""), Some(""), "", None, Some("q"))
  }

  /** `useStore()`: the provider's resolved value, or the default without one. */
  function UseStore(provider: Option<StoreDetails>, k: Constants): (r: StoreDetails)
    ensures provider.None? ==> r == DefaultStore()
    ensures provider.Some? ==> r == StoreProps(provider.value, k)
  {
    match provider
    case None => DefaultStore()
    case Some(p) => StoreProps(p, k)
  }

  /**
   The default value is not what a provider would publish for the same
   fields: its endpoint stays empty and its context has no customer group.
   */
  lemma DefaultStoreIsNotResolved(k: Constants)
    ensures UseStore(None, k).apiUrl == Some("")
    ensures UseStore(None, k).context.value.customerGroup.None?
    ensures StoreProps(DefaultStore(), k).apiUrl == Some(k.apiUrl)
    ensures StoreProps(DefaultStore(), k).context.value.customerGroup == Some("")
  {
    assert !IsTesting(Some(""));
  }
}

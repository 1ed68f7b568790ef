/**
 The storefront's product-search API client (`api/search.ts`).

 Each call builds one POST request to the commerce backend: a fixed set of
 routing headers plus a JSON body naming a GraphQL operation and its
 variables. `getProductSearch` also adds the catalog's default filters to the
 caller's filter list and reports its progress to an optional analytics
 collaborator. `getCategoryPromoTiles` reads a static JSON document and keeps
 the tiles that apply to a category.

 Everything the code reaches outside itself is an input here: the values
 `uuidv4()` returns, the analytics publisher, and the parsed response (or the
 error a failed `fetch` or `response.json()` raises). Calls of the
 data-collection hooks and of the publisher appear in an event trace.
 */
module Search {
  import opened Js
  import opened Types
  import Seqs

  // ---------------------------------------------------------------------------
  // Request data
  // ---------------------------------------------------------------------------

  /** One attribute filter of a product search (`SearchClauseInput`). */
  datatype Clause =
    | InClause(attribute: string, values: seq<string>)
    | EqClause(attribute: string, value: string)
    | OtherClause(attribute: string, fields: seq<Field>)

  /** One sort directive of a product search. */
  datatype SortClause = SortClause(attribute: string, direction: string)

  /** `ClientProps`: tenant routing, credentials, endpoint and an optional pinned request id. */
  datatype ClientProps = ClientProps(
    environmentId: string,
    websiteCode: string,
    storeCode: string,
    storeViewCode: string,
    apiKey: string,
    apiUrl: string,
    xRequestId: Option<string>)

  /** `ProductSearchQuery`: what the caller asks for; `None` is an omitted argument. */
  datatype ProductSearchQuery = ProductSearchQuery(
    phrase: string,
    pageSize: Option<int>,
    currentPage: Option<int>,
    displayOutOfStock: Option<string>,
    filter: Option<seq<Clause>>,
    sort: Option<seq<SortClause>>,
    context: Option<QueryContext>,
    categorySearch: Option<bool>)

  /**
   The values successive `uuidv4()` calls return: `requestId` is used only
   when the caller pinned no `xRequestId`; `searchRequestId` keys the
   analytics records of one search.
   */
  datatype FreshIds = FreshIds(requestId: string, searchRequestId: string)

  // ---------------------------------------------------------------------------
  // Headers
  // ---------------------------------------------------------------------------

  /** `MagentoHeaders`: the values `getHeaders` turns into HTTP headers. */
  datatype MagentoHeaders = MagentoHeaders(
    environmentId: string,
    websiteCode: string,
    storeCode: string,
    storeViewCode: string,
    apiKey: string,
    xRequestId: string,
    customerGroup: string)

  datatype Header = Header(name: string, value: string)

  const CustomerGroupHeader := "Magento-Customer-Group"
  const RequestIdHeader := "X-Request-Id"

  /** The value of the first header called `name`. */
  function HeaderValue(headers: seq<Header>, name: string): Option<string>
  {
    if |headers| == 0 then None
    else if headers[0].name == name then Some(headers[0].value)
    else HeaderValue(headers[1..], name)
  }

  /** With distinct names, looking a header up by its own name finds its own value. */
  lemma {:induction false} HeaderValueOfDistinct(headers: seq<Header>)
    requires forall i, j :: 0 <= i < j < |headers| ==> headers[i].name != headers[j].name
    ensures forall i :: 0 <= i < |headers| ==> HeaderValue(headers, headers[i].name) == Some(headers[i].value)
    decreases |headers|
  {
    if |headers| > 0 {
      HeaderValueOfDistinct(headers[1..]);
      forall i | 1 <= i < |headers|
        ensures HeaderValue(headers, headers[i].name) == Some(headers[i].value)
      {
        assert headers[1..][i - 1] == headers[i];
      }
    }
  }

  /** `getHeaders`: eight distinct headers, all but the content type copied from `h`. */
  function GetHeaders(h: MagentoHeaders): (r: seq<Header>)
    ensures |r| == 8
    ensures forall i, j :: 0 <= i < j < |r| ==> r[i].name != r[j].name
    ensures HeaderValue(r, "Magento-Environment-Id") == Some(h.environmentId)
    ensures HeaderValue(r, "Magento-Website-Code") == Some(h.websiteCode)
    ensures HeaderValue(r, "Magento-Store-Code") == Some(h.storeCode)
    ensures HeaderValue(r, "Magento-Store-View-Code") == Some(h.storeViewCode)
    ensures HeaderValue(r, "X-Api-Key") == Some(h.apiKey)
    ensures HeaderValue(r, RequestIdHeader) == Some(h.xRequestId)
    ensures HeaderValue(r, "Content-Type") == Some("application/json")
    ensures HeaderValue(r, CustomerGroupHeader) == Some(h.customerGroup)
  {
    var r :=
    [ Header("Magento-Environment-Id", h.environmentId),
      Header("Magento-Website-Code", h.websiteCode),
      Header("Magento-Store-Code", h.storeCode),
      Header("Magento-Store-View-Code", h.storeViewCode),
      Header("X-Api-Key", h.apiKey),
      Header(RequestIdHeader, h.xRequestId),
      Header("Content-Type", "application/json"),
      Header(CustomerGroupHeader, h.customerGroup) ];
    HeaderValueOfDistinct(r);
    assert r[2].name == "Magento-Store-Code" && r[3].name == "Magento-Store-View-Code";
    assert r[4].name == "X-Api-Key" && r[5].name == RequestIdHeader && r[6].name == "Content-Type";
    assert r[7].name == CustomerGroupHeader;
    r
  }

  /** The headers of a call made for `client` on behalf of `customerGroup`. */
  function ClientHeaders(client: ClientProps, ids: FreshIds, customerGroup: string): seq<Header>
  {
    GetHeaders(MagentoHeaders(
      client.environmentId, client.websiteCode, client.storeCode, client.storeViewCode,
      client.apiKey, OrElse(client.xRequestId, ids.requestId), customerGroup))
  }

  // ---------------------------------------------------------------------------
  // Requests and responses
  // ---------------------------------------------------------------------------

  /** The `variables` object of the product-search operation. */
  datatype SearchVariables = SearchVariables(
    phrase: string,
    pageSize: int,
    currentPage: int,
    filter: seq<Clause>,
    sort: seq<SortClause>,
    context: Option<QueryContext>)

  /** The JSON body: which GraphQL operation (its text is not modelled) and its variables. */
  datatype Body =
    | ProductSearchBody(variables: SearchVariables)
    | AttributeMetadataBody
    | RefineProductBody(optionIds: seq<string>, sku: string)

  /** A `POST` to `url`. */
  datatype Request = Request(url: string, headers: seq<Header>, body: Body)

  /** A JSON value the code passes along without looking inside. */
  datatype Payload = Payload(fields: seq<Field>)

  /** The `data` envelope of a GraphQL response. */
  datatype ResponseData = ResponseData(productSearch: Option<Payload>, otherFields: seq<Field>)

  /** What `response.json()` yields: `null`, or an object that may lack `data`. */
  datatype ResponseJson = JsonNull | JsonObject(data: Option<ResponseData>)

  /** Why a call threw instead of returning. */
  datatype CallError = TransportError | MalformedResponse

  /** `results?.data` */
  function DataOf(json: ResponseJson): Option<ResponseData>
  {
    match json
    case JsonNull => None
    case JsonObject(d) => d
  }

  /** `results?.data?.productSearch` */
  function ProductSearchOf(json: ResponseJson): Option<Payload>
  {
    match DataOf(json)
    case None => None
    case Some(d) => d.productSearch
  }

  /** The value a call resolves to, or the error it rejects with. */
  function Settle(response: Result<ResponseJson, CallError>): Result<Option<ResponseData>, CallError>
  {
    match response
    case Failure(e) => Failure(e)
    case Success(json) => Success(DataOf(json))
  }

  // ---------------------------------------------------------------------------
  // Default filters
  // ---------------------------------------------------------------------------

  const CombinedVisibility := "Catalog, Search"

  /** `displayOutOfStock != '1'`, for a string or missing flag. */
  predicate InStockOnly(displayOutOfStock: Option<string>)
  {
    displayOutOfStock != Some("1")
  }

  /** The visibility clause; its second value is one literal string, not two values. */
  function VisibilityClause(categorySearch: bool): Clause
  {
    InClause("visibility", [if categorySearch then "Catalog" else "Search", CombinedVisibility])
  }

  const InStockClause := EqClause("inStock", "true")

  /**
   The filter list `getProductSearch` sends: the caller's clauses unchanged and
   first, then one visibility clause, then the in-stock clause when it applies.
   */
  function OutgoingFilters(caller: seq<Clause>, categorySearch: bool, displayOutOfStock: Option<string>): (f: seq<Clause>)
    ensures |f| == |caller| + (if InStockOnly(displayOutOfStock) then 2 else 1)
    ensures f[..|caller|] == caller
    ensures f[|caller|] == VisibilityClause(categorySearch)
    ensures InStockOnly(displayOutOfStock) ==> f[|caller| + 1] == InStockClause
    ensures Seqs.Count(f, InStockClause) == Seqs.Count(caller, InStockClause) + (if InStockOnly(displayOutOfStock) then 1 else 0)
    ensures Seqs.Count(f, VisibilityClause(categorySearch)) == Seqs.Count(caller, VisibilityClause(categorySearch)) + 1
  {
    var withVisibility := caller + [VisibilityClause(categorySearch)];
    var f := if InStockOnly(displayOutOfStock) then withVisibility + [InStockClause] else withVisibility;
    Seqs.CountAppend(caller, [VisibilityClause(categorySearch)], InStockClause);
    Seqs.CountAppend(caller, [VisibilityClause(categorySearch)], VisibilityClause(categorySearch));
    Seqs.CountAppend(withVisibility, [InStockClause], InStockClause);
    Seqs.CountAppend(withVisibility, [InStockClause], VisibilityClause(categorySearch));
    f
  }

  // ---------------------------------------------------------------------------
  // Analytics
  // ---------------------------------------------------------------------------

  /** The hooks of `window.magentoStorefrontEvents.publish`. */
  datatype Hook = RequestSent | ResponseReceived | CategoryResultsView | SearchResultsView

  /** Which hooks the page's publisher provides. */
  datatype Publisher = Publisher(
    searchRequestSent: bool,
    searchResponseReceived: bool,
    categoryResultsView: bool,
    searchResultsView: bool)

  predicate Provides(publisher: Option<Publisher>, hook: Hook)
  {
    match publisher
    case None => false
    case Some(p) =>
      match hook
      case RequestSent => p.searchRequestSent
      case ResponseReceived => p.searchResponseReceived
      case CategoryResultsView => p.categoryResultsView
      case SearchResultsView => p.searchResultsView
  }

  /** What a product search does, in order, besides computing its value. */
  datatype Event =
    | SearchInputRecorded(
        unitId: string, searchRequestId: string, phrase: string, filter: seq<Clause>,
        pageSize: int, currentPage: int, sort: seq<SortClause>)
    | RequestDispatched(request: Request)
    | SearchResultsRecorded(unitId: string, searchRequestId: string, productSearch: Option<Payload>)
    | Published(hook: Hook, unitId: string)

  /** `publish?.hook && publish.hook(unitId)`: nothing happens when the hook is missing. */
  function Notify(publisher: Option<Publisher>, hook: Hook, unitId: string): seq<Event>
  {
    if Provides(publisher, hook) then [Published(hook, unitId)] else []
  }

  /** After a response: the results record, then `searchResponseReceived`, then the view hook. */
  function ResponseEvents(results: Event, publisher: Option<Publisher>, viewHook: Hook, unitId: string): seq<Event>
  {
    [results] + Notify(publisher, ResponseReceived, unitId) + Notify(publisher, viewHook, unitId)
  }

  /** `a` happens before `b` in `trace`. */
  ghost predicate Before(trace: seq<Event>, a: Event, b: Event)
  {
    exists i, j :: 0 <= i < j < |trace| && trace[i] == a && trace[j] == b
  }

  // ---------------------------------------------------------------------------
  // getProductSearch
  // ---------------------------------------------------------------------------

  /** The request sent, the events in the order they happen, and the value or error of the call. */
  datatype SearchCall = SearchCall(
    request: Request,
    trace: seq<Event>,
    result: Result<Option<ResponseData>, CallError>)

  /**
   `getProductSearch`. `unitId` is `SEARCH_UNIT_ID`, `publisher` the page's
   analytics publisher and `response` what the POST produced. The filter list
   the request carries is also the caller's own list after the call, since
   the source appends to it in place.
   */
  function ProductSearch(
    client: ClientProps, query: ProductSearchQuery, unitId: string, ids: FreshIds,
    publisher: Option<Publisher>, response: Result<ResponseJson, CallError>): (c: SearchCall)
    ensures c.request.url == client.apiUrl
    ensures c.request.body.ProductSearchBody?
    ensures c.request.body.variables.filter
         == OutgoingFilters(OrElse(query.filter, []), OrElse(query.categorySearch, false), query.displayOutOfStock)
    ensures c.request.body.variables.pageSize == if query.pageSize.Some? then query.pageSize.value else 24
    ensures c.request.body.variables.currentPage == if query.currentPage.Some? then query.currentPage.value else 1
    ensures c.request.body.variables.sort == if query.sort.Some? then query.sort.value else []
    ensures query.filter.Some? ==> c.request.body.variables.filter[..|query.filter.value|] == query.filter.value
    ensures c.request.body.variables.phrase == query.phrase && c.request.body.variables.context == query.context
    ensures c.request.headers == GetHeaders(MagentoHeaders(
              client.environmentId, client.websiteCode, client.storeCode, client.storeViewCode, client.apiKey,
              if client.xRequestId.Some? then client.xRequestId.value else ids.requestId,
              CustomerGroupOf(query.context)))
    ensures HeaderValue(c.request.headers, CustomerGroupHeader) == Some(CustomerGroupOf(query.context))
    ensures HeaderValue(c.request.headers, RequestIdHeader)
         == Some(if client.xRequestId.Some? then client.xRequestId.value else ids.requestId)
    ensures |c.trace| >= 2
    ensures c.trace[0] == SearchInputRecorded(
              unitId, ids.searchRequestId, query.phrase, c.request.body.variables.filter,
              c.request.body.variables.pageSize, c.request.body.variables.currentPage,
              c.request.body.variables.sort)
    ensures response.Failure? ==> c.result == Failure(response.error)
    ensures response.Success? ==> c.result == Success(DataOf(response.value))
  {
    var categorySearch := OrElse(query.categorySearch, false);
    var filter := OutgoingFilters(OrElse(query.filter, []), categorySearch, query.displayOutOfStock);
    var variables := SearchVariables(
      query.phrase, OrElse(query.pageSize, 24), OrElse(query.currentPage, 1),
      filter, OrElse(query.sort, []), query.context);
    var request := Request(client.apiUrl, ClientHeaders(client, ids, CustomerGroupOf(query.context)),
                           ProductSearchBody(variables));
    var sent :=
      [SearchInputRecorded(unitId, ids.searchRequestId, query.phrase, filter,
                           variables.pageSize, variables.currentPage, variables.sort)]
      + Notify(publisher, RequestSent, unitId)
      + [RequestDispatched(request)];
    match response
    case Failure(e) => SearchCall(request, sent, Failure(e))
    case Success(json) =>
      var received := ResponseEvents(
        SearchResultsRecorded(unitId, ids.searchRequestId, ProductSearchOf(json)),
        publisher, if categorySearch then CategoryResultsView else SearchResultsView, unitId);
      SearchCall(request, sent + received, Success(DataOf(json)))
  }

  /** Events of `b` follow those of `a` in `a + b`. */
  lemma BeforeAcross(a: seq<Event>, b: seq<Event>, x: Event, y: Event)
    requires x in a && y in b
    ensures Before(a + b, x, y)
  {
    var i :| 0 <= i < |a| && a[i] == x;
    var j :| 0 <= j < |b| && b[j] == y;
    assert (a + b)[i] == x && (a + b)[|a| + j] == y;
  }

  lemma BeforePrefix(a: seq<Event>, b: seq<Event>, x: Event, y: Event)
    requires Before(a, x, y)
    ensures Before(a + b, x, y)
  {
    var i, j :| 0 <= i < j < |a| && a[i] == x && a[j] == y;
    assert (a + b)[i] == x && (a + b)[j] == y;
  }

  /** The hook events of one trace: which hook was published. */
  ghost predicate PublishedIn(trace: seq<Event>, hook: Hook, unitId: string)
  {
    Published(hook, unitId) in trace
  }

  /**
   The events up to the request: the input record, then `searchRequestSent`
   when the publisher has it, then the request, whatever follows.
   */
  lemma RequestHeadOrder(input: Event, publisher: Option<Publisher>, unitId: string, dispatched: Event, rest: seq<Event>)
    requires !input.Published? && !dispatched.Published?
    requires Published(RequestSent, unitId) !in rest
    ensures var t := [input] + Notify(publisher, RequestSent, unitId) + [dispatched] + rest;
      var sent := Published(RequestSent, unitId);
      && t[0] == input
      && (PublishedIn(t, RequestSent, unitId) <==> Provides(publisher, RequestSent))
      && (Provides(publisher, RequestSent) ==> Before(t, input, sent) && Before(t, sent, dispatched))
      && Before(t, input, dispatched)
  {
    var sent := Published(RequestSent, unitId);
    var head := [input] + Notify(publisher, RequestSent, unitId) + [dispatched];
    var t := head + rest;
    assert t[..|head|] == head;
    if Provides(publisher, RequestSent) {
      assert t[0] == input && t[1] == sent && t[2] == dispatched;
    } else {
      assert t[0] == input && t[1] == dispatched;
      assert sent !in head;
    }
  }

  /** The trace of a search: the events up to the request, then the response events after a response. */
  lemma SearchTraceShape(
    client: ClientProps, query: ProductSearchQuery, unitId: string, ids: FreshIds,
    publisher: Option<Publisher>, response: Result<ResponseJson, CallError>)
    ensures
      var c := ProductSearch(client, query, unitId, ids, publisher, response);
      var head := [c.trace[0]] + Notify(publisher, RequestSent, unitId) + [RequestDispatched(c.request)];
      var viewHook := if OrElse(query.categorySearch, false) then CategoryResultsView else SearchResultsView;
      && c.trace[0].SearchInputRecorded?
      && (response.Failure? ==> c.trace == head)
      && (response.Success? ==> c.trace == head + ResponseEvents(
            SearchResultsRecorded(unitId, ids.searchRequestId, ProductSearchOf(response.value)),
            publisher, viewHook, unitId))
  {
  }

  /**
   The analytics calls before the request: the input record first, then
   `searchRequestSent` when the publisher has that hook, then the request.
   */
  lemma SearchEventOrder(
    client: ClientProps, query: ProductSearchQuery, unitId: string, ids: FreshIds,
    publisher: Option<Publisher>, response: Result<ResponseJson, CallError>)
    ensures
      var c := ProductSearch(client, query, unitId, ids, publisher, response);
      var dispatched := RequestDispatched(c.request);
      var sent := Published(RequestSent, unitId);
      && (PublishedIn(c.trace, RequestSent, unitId) <==> Provides(publisher, RequestSent))
      && (Provides(publisher, RequestSent) ==> Before(c.trace, c.trace[0], sent) && Before(c.trace, sent, dispatched))
      && Before(c.trace, c.trace[0], dispatched)
  {
    SearchTraceShape(client, query, unitId, ids, publisher, response);
    var c := ProductSearch(client, query, unitId, ids, publisher, response);
    var dispatched := RequestDispatched(c.request);
    if response.Failure? {
      assert c.trace == [c.trace[0]] + Notify(publisher, RequestSent, unitId) + [dispatched] + [];
      RequestHeadOrder(c.trace[0], publisher, unitId, dispatched, []);
    } else {
      var viewHook := if OrElse(query.categorySearch, false) then CategoryResultsView else SearchResultsView;
      var results := SearchResultsRecorded(unitId, ids.searchRequestId, ProductSearchOf(response.value));
      var tail := ResponseEvents(results, publisher, viewHook, unitId);
      ResponseMembers(results, publisher, viewHook, unitId);
      RequestHeadOrder(c.trace[0], publisher, unitId, dispatched, tail);
    }
  }

  /** The events before the request are the input record, `searchRequestSent` and the request. */
  lemma HeadMembers(input: Event, publisher: Option<Publisher>, unitId: string, dispatched: Event)
    ensures forall e :: e in [input] + Notify(publisher, RequestSent, unitId) + [dispatched] ==>
              e == input || e == dispatched || (e == Published(RequestSent, unitId) && publisher.Some?)
  {
  }

  /** The events after a response are the results record and the two hooks. */
  lemma ResponseMembers(results: Event, publisher: Option<Publisher>, viewHook: Hook, unitId: string)
    ensures forall e :: e in ResponseEvents(results, publisher, viewHook, unitId) ==>
              e == results || (publisher.Some? && (e == Published(ResponseReceived, unitId) || e == Published(viewHook, unitId)))
  {
  }

  /** A failed request ends the trace: no results are recorded and only `searchRequestSent` is published. */
  lemma FailedSearchTrace(
    client: ClientProps, query: ProductSearchQuery, unitId: string, ids: FreshIds,
    publisher: Option<Publisher>, response: Result<ResponseJson, CallError>)
    requires response.Failure?
    ensures
      var c := ProductSearch(client, query, unitId, ids, publisher, response);
      && c.trace[|c.trace| - 1] == RequestDispatched(c.request)
      && forall e :: e in c.trace ==> !e.SearchResultsRecorded? && (e.Published? ==> e.hook == RequestSent)
  {
    SearchTraceShape(client, query, unitId, ids, publisher, response);
    var c := ProductSearch(client, query, unitId, ids, publisher, response);
    HeadMembers(c.trace[0], publisher, unitId, RequestDispatched(c.request));
  }

  /**
   What a trace holds: results only under the search's own request id, and
   nothing published without a publisher.
   */
  lemma SearchTraceContents(
    client: ClientProps, query: ProductSearchQuery, unitId: string, ids: FreshIds,
    publisher: Option<Publisher>, response: Result<ResponseJson, CallError>)
    ensures
      var c := ProductSearch(client, query, unitId, ids, publisher, response);
      && (forall e :: e in c.trace && e.SearchResultsRecorded? ==> e.searchRequestId == ids.searchRequestId)
      && (publisher.None? ==> forall e :: e in c.trace ==> !e.Published?)
  {
    SearchTraceShape(client, query, unitId, ids, publisher, response);
    var c := ProductSearch(client, query, unitId, ids, publisher, response);
    var head := [c.trace[0]] + Notify(publisher, RequestSent, unitId) + [RequestDispatched(c.request)];
    HeadMembers(c.trace[0], publisher, unitId, RequestDispatched(c.request));
    if response.Success? {
      var viewHook := if OrElse(query.categorySearch, false) then CategoryResultsView else SearchResultsView;
      var results := SearchResultsRecorded(unitId, ids.searchRequestId, ProductSearchOf(response.value));
      ResponseMembers(results, publisher, viewHook, unitId);
      assert forall e :: e in c.trace ==> e in head || e in ResponseEvents(results, publisher, viewHook, unitId);
    }
  }

  /** Ordering within a trace that ends with the response events. */
  lemma ResponseEventsOrder(head: seq<Event>, results: Event, publisher: Option<Publisher>, viewHook: Hook, unitId: string)
    requires viewHook != ResponseReceived
    requires !results.Published?
    requires forall e :: e in head ==> e != results && (e.Published? ==> e.hook == RequestSent)
    ensures var t := head + ResponseEvents(results, publisher, viewHook, unitId);
      var received := Published(ResponseReceived, unitId);
      var view := Published(viewHook, unitId);
      && (received in t <==> Provides(publisher, ResponseReceived))
      && (Published(CategoryResultsView, unitId) in t <==> viewHook == CategoryResultsView && Provides(publisher, viewHook))
      && (Published(SearchResultsView, unitId) in t <==> viewHook == SearchResultsView && Provides(publisher, viewHook))
      && (Provides(publisher, ResponseReceived) ==> Before(t, results, received))
      && (Provides(publisher, viewHook) ==> Before(t, results, view))
      && (Provides(publisher, viewHook) && Provides(publisher, ResponseReceived) ==> Before(t, received, view))
      && (forall e :: e in head ==> Before(t, e, results))
  {
    var tail := ResponseEvents(results, publisher, viewHook, unitId);
    var t := head + tail;
    var received := Published(ResponseReceived, unitId);
    var view := Published(viewHook, unitId);
    assert forall e :: e in tail ==> e == results || e == received || e == view;
    assert t[|head|] == results;
    forall e | e in head
      ensures Before(t, e, results)
    {
      BeforeAcross(head, tail, e, results);
    }
    if Provides(publisher, ResponseReceived) {
      assert t[|head| + 1] == received;
    }
    if Provides(publisher, viewHook) {
      assert t[|t| - 1] == view;
    }
    var n1 := Notify(publisher, ResponseReceived, unitId);
    var n2 := Notify(publisher, viewHook, unitId);
    assert tail == [results] + n1 + n2;
    forall h | h != RequestSent
      ensures Published(h, unitId) in t <==> (h == ResponseReceived || h == viewHook) && Provides(publisher, h)
    {
      if Published(h, unitId) in t {
        assert Published(h, unitId) !in head;
        assert Published(h, unitId) in n1 || Published(h, unitId) in n2;
      }
    }
  }

  /** The events that follow a response, in order. */
  lemma SearchResponseOrder(
    client: ClientProps, query: ProductSearchQuery, unitId: string, ids: FreshIds,
    publisher: Option<Publisher>, response: Result<ResponseJson, CallError>)
    requires response.Success?
    ensures
      var c := ProductSearch(client, query, unitId, ids, publisher, response);
      var category := OrElse(query.categorySearch, false);
      var dispatched := RequestDispatched(c.request);
      var results := SearchResultsRecorded(unitId, ids.searchRequestId, ProductSearchOf(response.value));
      var received := Published(ResponseReceived, unitId);
      var view := Published(if category then CategoryResultsView else SearchResultsView, unitId);
      && Before(c.trace, dispatched, results)
      && (PublishedIn(c.trace, ResponseReceived, unitId) <==> Provides(publisher, ResponseReceived))
      && (Provides(publisher, ResponseReceived) ==> Before(c.trace, results, received))
      && (PublishedIn(c.trace, CategoryResultsView, unitId) <==> category && Provides(publisher, CategoryResultsView))
      && (PublishedIn(c.trace, SearchResultsView, unitId) <==> !category && Provides(publisher, SearchResultsView))
      && (view in c.trace ==> Before(c.trace, results, view))
      && (view in c.trace && Provides(publisher, ResponseReceived) ==> Before(c.trace, received, view))
  {
    var c := ProductSearch(client, query, unitId, ids, publisher, response);
    var category := OrElse(query.categorySearch, false);
    var dispatched := RequestDispatched(c.request);
    var results := SearchResultsRecorded(unitId, ids.searchRequestId, ProductSearchOf(response.value));
    var viewHook := if category then CategoryResultsView else SearchResultsView;
    var head := [c.trace[0]] + Notify(publisher, RequestSent, unitId) + [dispatched];
    SearchTraceShape(client, query, unitId, ids, publisher, response);
    HeadMembers(c.trace[0], publisher, unitId, dispatched);
    ResponseEventsOrder(head, results, publisher, viewHook, unitId);
    assert dispatched in head;
  }

  // ---------------------------------------------------------------------------
  // getAttributeMetadata and refineProductSearch
  // ---------------------------------------------------------------------------

  /** The request sent and the value or error of a call without analytics. */
  datatype ApiCall = ApiCall(request: Request, result: Result<Option<ResponseData>, CallError>)

  /** `getAttributeMetadata`: no variables, and never a customer group. */
  function AttributeMetadata(client: ClientProps, ids: FreshIds, response: Result<ResponseJson, CallError>): (c: ApiCall)
    ensures c.request.url == client.apiUrl && c.request.body == AttributeMetadataBody
    ensures HeaderValue(c.request.headers, CustomerGroupHeader) == Some("")
    ensures HeaderValue(c.request.headers, RequestIdHeader)
         == Some(if client.xRequestId.Some? then client.xRequestId.value else ids.requestId)
    ensures response.Failure? ==> c.result == Failure(response.error)
    ensures response.Success? ==> c.result == Success(DataOf(response.value))
  {
    ApiCall(Request(client.apiUrl, ClientHeaders(client, ids, ""), AttributeMetadataBody), Settle(response))
  }

  /** `refineProductSearch`: the chosen option ids and sku, with the search's customer group. */
  function RefineProductSearch(
    client: ClientProps, context: Option<QueryContext>, optionIds: seq<string>, sku: string,
    ids: FreshIds, response: Result<ResponseJson, CallError>): (c: ApiCall)
    ensures c.request.url == client.apiUrl && c.request.body == RefineProductBody(optionIds, sku)
    ensures HeaderValue(c.request.headers, CustomerGroupHeader) == Some(CustomerGroupOf(context))
    ensures HeaderValue(c.request.headers, RequestIdHeader)
         == Some(if client.xRequestId.Some? then client.xRequestId.value else ids.requestId)
    ensures response.Failure? ==> c.result == Failure(response.error)
    ensures response.Success? ==> c.result == Success(DataOf(response.value))
  {
    ApiCall(Request(client.apiUrl, ClientHeaders(client, ids, CustomerGroupOf(context)),
                    RefineProductBody(optionIds, sku)),
            Settle(response))
  }

  /**
   The three calls share one header set: a refinement carries exactly the
   headers of a search in the same context, and attribute metadata those of
   a search without a context.
   */
  lemma HeadersAgreeAcrossCalls(
    client: ClientProps, query: ProductSearchQuery, unitId: string, ids: FreshIds,
    publisher: Option<Publisher>, response: Result<ResponseJson, CallError>,
    optionIds: seq<string>, sku: string)
    ensures RefineProductSearch(client, query.context, optionIds, sku, ids, response).request.headers
         == ProductSearch(client, query, unitId, ids, publisher, response).request.headers
    ensures AttributeMetadata(client, ids, response).request.headers
         == ProductSearch(client, query.(context := None), unitId, ids, publisher, response).request.headers
  {
  }

  // ---------------------------------------------------------------------------
  // getCategoryPromoTiles
  // ---------------------------------------------------------------------------

  /**
   What fetching and `JSON.parse`-ing the promo-tile document gave.
   `UnfilterableData` is a document whose `data` makes the filter throw: it is
   not an array, or it holds a `null` entry, or an entry whose four fields are
   truthy but whose `path` is not a string (it has no `replace`).
   */
  datatype TileDocument =
    | FetchFailed
    | NotJson
    | JsonNullDocument
    | UnfilterableData
    | JsonDocument(data: Option<seq<PromoTile>>)

  /** `s.replace(/^\/|\/$/g, '')`: one leading and one trailing slash removed. */
  function TrimSlashes(s: string): string
  {
    var a := if |s| > 0 && s[0] == '/' then s[1..] else s;
    if |a| > 0 && a[|a| - 1] == '/' then a[..|a| - 1] else a
  }

  /** A path as the tile filter compares it: slash-trimmed and upper-cased. */
  function NormalisedPath(s: string): string
  {
    ToUpper(TrimSlashes(s))
  }

  /** The tile filter's test: all four fields present and a plain prefix match of the paths. */
  predicate TileApplies(categoryPath: string, tile: PromoTile)
  {
    && Truthy(tile.path) && Truthy(tile.destination) && Truthy(tile.image) && Truthy(tile.position)
    && StartsWith(NormalisedPath(categoryPath), NormalisedPath(tile.path.value))
  }

  /**
   `getCategoryPromoTiles`, given what fetching `promoTilesDataPath` gave.
   Every failure, including a document without `data` and data on which the
   filter throws, yields `[]`; a JSON `null` document short-circuits
   `tiles?.data.filter` to `undefined` (`None`).
   */
  function CategoryPromoTiles(categoryPath: string, document: TileDocument): (r: Option<seq<PromoTile>>)
    ensures r.None? <==> document.JsonNullDocument?
    ensures (document.FetchFailed? || document.NotJson? || document.UnfilterableData? || document == JsonDocument(None))
              ==> r == Some([])
    ensures document.JsonDocument? && document.data.Some? ==>
              && r.Some?
              && Seqs.IsSubsequence(r.value, document.data.value)
              && (forall t :: t in r.value <==> t in document.data.value && TileApplies(categoryPath, t))
              && forall t :: Seqs.Count(r.value, t)
                   == if TileApplies(categoryPath, t) then Seqs.Count(document.data.value, t) else 0
  {
    match document
    case FetchFailed => Some([])
    case NotJson => Some([])
    case JsonNullDocument => None
    case UnfilterableData => Some([])
    case JsonDocument(None) => Some([])
    case JsonDocument(Some(data)) =>
      var applies := (t: PromoTile) => TileApplies(categoryPath, t);
      Seqs.FilterIsSubsequence(data, applies);
      Seqs.FilterMembership(data, applies);
      Seqs.FilterCounts(data, applies);
      Some(Seqs.Filter(data, applies))
  }

  /** Trimming commutes with upper-casing, because `/` has no case. */
  lemma TrimSlashesOfToUpper(s: string)
    ensures TrimSlashes(ToUpper(s)) == ToUpper(TrimSlashes(s))
  {
    var u := ToUpper(s);
    var a := if |s| > 0 && s[0] == '/' then s[1..] else s;
    var b := if |u| > 0 && u[0] == '/' then u[1..] else u;
    assert b == ToUpper(a);
    if |a| > 0 {
      assert b[|b| - 1] == UpperChar(a[|a| - 1]);
      assert b[..|b| - 1] == ToUpper(a[..|a| - 1]);
    }
  }

  /** The comparison ignores case: upper-casing either path first changes nothing. */
  lemma NormalisedPathIgnoresCase(s: string)
    ensures NormalisedPath(ToUpper(s)) == NormalisedPath(s)
  {
    TrimSlashesOfToUpper(s);
    var t := TrimSlashes(s);
    assert ToUpper(ToUpper(t)) == ToUpper(t);
  }

  /** A tile at the root path `/` applies to every category. */
  lemma RootTileAppliesEverywhere(categoryPath: string, tile: PromoTile)
    requires tile.path == Some("/")
    requires Truthy(tile.destination) && Truthy(tile.image) && Truthy(tile.position)
    ensures TileApplies(categoryPath, tile)
  {
    assert NormalisedPath("/") == "";
  }

  /** A tile whose trimmed path is a prefix of the trimmed category path applies, whatever the case. */
  lemma PrefixTileApplies(categoryPath: string, tile: PromoTile)
    requires Truthy(tile.path) && Truthy(tile.destination) && Truthy(tile.image) && Truthy(tile.position)
    requires StartsWith(TrimSlashes(categoryPath), TrimSlashes(tile.path.value))
    ensures TileApplies(categoryPath, tile)
  {
    var s, p := TrimSlashes(categoryPath), TrimSlashes(tile.path.value);
    assert ToUpper(s)[..|p|] == ToUpper(p) by {
      forall i | 0 <= i < |p|
        ensures ToUpper(s)[..|p|][i] == ToUpper(p)[i]
      {
        assert s[i] == p[i];
      }
    }
  }

  /** The match is a plain string prefix, not a path-segment prefix, and ignores case and outer slashes. */
  lemma PrefixMatchExamples()
    ensures var tile := PromoTile(Some("/shoes"), Some("/sale"), Some("tile.png"), Some("1"), []);
      && TileApplies("/shoes/running", tile)
      && TileApplies("/shoesies", tile)
      && TileApplies("/Shoes/", tile)
  {
    var tile := PromoTile(Some("/shoes"), Some("/sale"), Some("tile.png"), Some("1"), []);
    assert TrimSlashes("/shoes") == "shoes";
    assert TrimSlashes("/shoes/running")[..5] == "shoes";
    PrefixTileApplies("/shoes/running", tile);
    assert TrimSlashes("/shoesies")[..5] == "shoes";
    PrefixTileApplies("/shoesies", tile);
    assert NormalisedPath("/Shoes/") == NormalisedPath("/shoes");
  }

  /** A tile for another path, or with an empty image, is filtered out. */
  lemma TileMismatchExamples()
    ensures var tile := PromoTile(Some("/boots"), Some("/sale"), Some("tile.png"), Some("1"), []);
      && !TileApplies("/shoes/running", tile)
      && !TileApplies("/boots", tile.(image := Some("")))
  {
    assert NormalisedPath("/shoes/running")[0] == 'S';
    assert NormalisedPath("/boots") == "BOOTS";
  }
}

# Storefront product listing page: a Dafny model of its request and URL shaping

The product listing page is a Preact widget that searches a commerce
catalog, rewrites product image URLs onto an image edge host, interleaves
merchandising "promo tiles" with the products it shows, and reads its
configuration from a store context. This project models the deterministic
core of that widget as pure functions over sequences and strings, and proves
what each of them promises.

- `search.dfy` (module `Search`, from `src/api/search.ts`): the eight routing
  headers of every backend call; the default filters `getProductSearch`
  appends to the caller's filter list; the request it sends; the order of its
  data-collection and analytics calls, as an event trace; the header choice of
  `getAttributeMetadata` and `refineProductSearch`; and the promo-tile filter
  of `getCategoryPromoTiles`.
- `product_image.dfy` (module `ProductImage`, from
  `src/utils/getProductImage.ts`): a URL record with its `href` and parser;
  `getProductImageURLs`, which moves every gallery image onto
  `edge-fr.dolce-gusto.com`, cuts `/ndgfredge` from its path, puts an
  optional top image first and truncates; `resolveImageUrl`; and
  `generateOptimizedImages`.
- `search_params.dfy` (module `SearchParams`): the part of `URLSearchParams`
  `resolveImageUrl` uses. This covers parsing a query into an ordered list of
  name/value pairs, `set`, `delete` and `toString`.
- `product_list.dfy` (module `ProductList`, from
  `src/components/ProductList/ProductList.tsx`): which promo tile, if any, is
  rendered before each product. The list view and the grid use the same
  expression, so one function, `ProductList.Slots`, models both branches.
- `store.tsx` is modelled by `store.dfy` (module `Store`): how the provider
  resolves `apiUrl`, `apiKey` and the personalisation `context`, and the
  value consumers see without a provider.
- `js.dfy` (module `Js`) holds the JavaScript semantics the code relies on:
  `undefined`, `??`, truthiness, `slice`, `toString` of naturals, ASCII case
  mapping, `split`/`join`, `indexOf` and `replace`.
- `seqs.dfy` (module `Seqs`) holds `Array.prototype.filter`, occurrence
  counting and the subsequence order.
- `types.dfy` (module `Types`) holds the records several modules share.

The model takes these as parameters:
- the values `uuidv4()` returns;
- the analytics publisher, and which hooks it has;
- the parsed JSON response of each call, or the error its `fetch` or parse
  raised;
- the build-time constants `TEST_URL`, `API_URL` and `SANDBOX_KEY`.

Calls of `updateSearchInputCtx` and `updateSearchResultsCtx` and of the
publisher's hooks appear as events in a trace, in the order they happen.

## Model

| member | source | states |
|---|---|---|
| Search.GetHeaders | src/api/search.ts:30-41 | Exactly eight headers with pairwise distinct names. `Content-Type` is `application/json`, and each other header carries its own input field. |
| Search.OutgoingFilters | src/api/search.ts:71-92 | The caller's clauses come first and unchanged. Then comes one visibility clause, `[Catalog or Search, 'Catalog, Search']` chosen by `categorySearch`. The in-stock clause follows exactly when `displayOutOfStock` is not `'1'`. So the list grows by 2 or by 1, and each default clause occurs once more than the caller had it. |
| Search.ProductSearch | src/api/search.ts:43-153 | When omitted, `pageSize` is 24, `currentPage` is 1, `sort` is `[]` and `categorySearch` is false; a given `sort` is sent as it is. The request carries the augmented filter list. Its headers are `getHeaders` of the client's environment id, website, store and store-view codes and API key, the caller's pinned request id (else a fresh one), and the context's customer group (else `''`). The first event records the search input with the same augmented filter. A failed call rejects with its error; otherwise the call yields `results?.data`. |
| Search.SearchEventOrder | src/api/search.ts:104-130 | The input is recorded before anything else. `searchRequestSent` is published exactly when the publisher has that hook, and then between the input record and the request. |
| Search.FailedSearchTrace | src/api/search.ts:104-133 | When the request fails, the request is the last event. No results are recorded, and nothing but `searchRequestSent` is published. |
| Search.SearchTraceContents | src/api/search.ts:104-149 | Every results record carries the search's own `searchRequestId`. Without a publisher, nothing is published. |
| Search.ResponseEventsOrder | src/api/search.ts:133-149 | After the response, `searchResponseReceived` is published iff the hook exists. Each view hook is published iff it is the one selected and it exists. |
| Search.SearchResponseOrder | src/api/search.ts:133-149 | After a response, the results are recorded after the request, then `searchResponseReceived`, then exactly the view hook `categorySearch` selects. Each hook is published iff the publisher has it. |
| Search.AttributeMetadata | src/api/search.ts:155-183 | Same endpoint and request-id rule as a search. The customer-group header is always `''`. Errors propagate, and otherwise the call yields `results?.data`. |
| Search.RefineProductSearch | src/api/search.ts:214-251 | The body carries the option ids and sku. The customer-group header is `context?.customerGroup ?? ''`. Errors propagate, and otherwise the call yields `results?.data`. |
| Search.HeadersAgreeAcrossCalls | src/api/search.ts:94-102 | The `getHeaders` calls of `getAttributeMetadata` and `refineProductSearch` (lines 164-172 and 231-239) agree with the search's: a refinement sends exactly the headers of a search in the same context, and attribute metadata exactly those of a search without a context. |
| Search.CategoryPromoTiles | src/api/search.ts:185-212 | A failed fetch, a parse error, a document without `data`, or data on which the filter throws gives `[]`. A JSON `null` document gives `undefined`. Otherwise the result is an order-preserving subsequence of `data`: a tile is in it iff it has all four fields non-empty and its normalised path is a prefix of the category's, and every such tile is kept as many times as `data` holds it. |
| Search.NormalisedPathIgnoresCase | src/api/search.ts:203-206 | Trimming the slashes and upper-casing make the comparison ignore letter case. |
| Search.RootTileAppliesEverywhere | src/api/search.ts:197-207 | A complete tile whose path is `/` applies to every category. |
| Search.PrefixTileApplies | src/api/search.ts:197-207 | A complete tile applies whenever its slash-trimmed path is a character prefix of the slash-trimmed category path, whatever the letter case. |
| Search.PrefixMatchExamples | src/api/search.ts:203-206 | The match is a plain string prefix, not a path-segment prefix. `/shoes` matches `/shoes/running`, `/shoesies` and `/Shoes/`. |
| Search.TileMismatchExamples | src/api/search.ts:197-206 | A tile for `/boots` does not apply to `/shoes/running`, and a tile with an empty image does not apply even to its own path. |
| SearchParams.ParseOfSerialize | src/utils/getProductImage.ts:64-72 | Parsing what `toString` wrote gives back the same pairs in the same order, for pairs without separators. |
| SearchParams.Set | src/utils/getProductImage.ts:68 | After `set(name, value)`, exactly one pair is called `name` and it holds `value`. All pairs with other names are as before. |
| SearchParams.SetOfAbsent | src/utils/getProductImage.ts:68 | Setting a name the query lacks appends one pair at the end. |
| SearchParams.SetOfPresent | src/utils/getProductImage.ts:68 | Setting a name the query has rewrites its first pair in place and drops the later ones. Everything before that pair is untouched. |
| SearchParams.SetEachValues | src/utils/getProductImage.ts:66-70 | After the `set`s of distinct names, each name set occurs exactly once, with the value it was set to. |
| SearchParams.SetEachKeepsOtherNames | src/utils/getProductImage.ts:66-70 | The lookup and count of a name no `set` touches are unchanged. |
| SearchParams.SetEachKeepsUnrelated | src/utils/getProductImage.ts:66-70 | Pairs whose name no `set` touches keep their values and relative order. |
| SearchParams.SetEachKeepsNameOrder | src/utils/getProductImage.ts:66-70 | Names the query had keep their order of first appearance. New names follow in the order they were first set. |
| ProductImage.ParseHrefOfHref | src/utils/getProductImage.ts:25-28 | For a well-formed URL record, parsing its `href` gives back the same record. |
| ProductImage.StripSchemeOfPrefixed | src/utils/getProductImage.ts:23 | One leading `http://` or `https://` is removed. |
| ProductImage.DeriveUrlShape | src/utils/getProductImage.ts:25-28 | A derived URL is well formed, uses `https`, is on the edge host, and copies the parsed query and fragment verbatim (no percent-encoding). Its path is unchanged when the path has no `/ndgfredge`. |
| ProductImage.DerivedPathCutsFirstLegacy | src/utils/getProductImage.ts:27 | Only the first `/ndgfredge` is cut from the path, any later one stays, and the path keeps a leading `/`. |
| ProductImage.DeriveUrlIgnoresHost | src/utils/getProductImage.ts:25-26 | The original (non-empty) host never affects the derived URL. |
| ProductImage.DeriveUrlSkipsSlashes | src/utils/getProductImage.ts:23-25 | Slashes left after the scheme is stripped are skipped before the host, so `//cdn/x.jpg` derives the same URL as `cdn/x.jpg`. |
| ProductImage.GalleryUrlsOfUsable | src/utils/getProductImage.ts:22-30 | Items without a URL, or whose URL is a bare scheme, are skipped. The rest map one-to-one and in order to their derived URLs. |
| ProductImage.GalleryUrlsOnEdge | src/utils/getProductImage.ts:22-30 | Every gallery URL is the `href` of an `https` URL on the edge host. |
| ProductImage.GalleryUrlsAppend | src/utils/getProductImage.ts:22-30 | The gallery of two concatenated lists is the concatenation of their galleries. |
| ProductImage.ProductImageUrls | src/utils/getProductImage.ts:12-51 | `amount` defaults to 3, and for `amount >= 0` there are at most `amount` URLs. A negative `amount` counts back from the end of the list, as `slice` does. Without a top image the result is the gallery truncated to `amount`. With a top image the result starts with it, holds the gallery from index 1 on, and has `min(amount, max(gallery size, 1))` URLs for `amount >= 0`. |
| ProductImage.ProductImageUrlsOnEdge | src/utils/getProductImage.ts:12-51 | Every URL returned, the top image included, is an `https` URL on the edge host. |
| ProductImage.TopImageDropsFirst | src/utils/getProductImage.ts:42-47 | With a top image, the first gallery URL is missing from the result whenever it differs from the top image and occurs only once. |
| ProductImage.TopImageDropsUnrelatedFirst | src/utils/getProductImage.ts:42-47 | Concrete case: a gallery `a/1`, `a/2` with top image `a/3` gives the top image and `a/2`, so `a/1` is lost. |
| ProductImage.DeduplicatedImageUrls | src/utils/getProductImage.ts:42-50 | The corrected list has at most `amount` URLs, and without a top image it agrees with the original. |
| ProductImage.TopFirstCounts | src/utils/getProductImage.ts:42-47 | In the corrected list the top image occurs once, or as often as the gallery already had it. Every other URL occurs exactly as often as in the gallery. |
| ProductImage.DeduplicatedKeepsFirst | src/utils/getProductImage.ts:42-50 | The corrected list keeps the first gallery URL right after the top image whenever the two differ. |
| ProductImage.UpdatesSkipUndefined | src/utils/getProductImage.ts:66-70 | An option whose value is `undefined` or `null` changes nothing. |
| ProductImage.UpdatesOfDefined | src/utils/getProductImage.ts:66-70 | With every option defined, there is one `set` per option, in option order, with `String(value)`. |
| ProductImage.ResolvedUrlParts | src/utils/getProductImage.ts:62-73 | The text before the first `?` is kept verbatim. The written query reads back as the original query with the options set into it. |
| ProductImage.ResolveIgnoresSecondQuery | src/utils/getProductImage.ts:63 | Anything after a second `?` is discarded. |
| ProductImage.ResolveImageUrlParams | src/utils/getProductImage.ts:62-73 | Each option occurs exactly once with its value. Unrelated parameters keep their order. Existing names keep their first place, and new names are appended in option order. |
| ProductImage.GenerateOptimizedImages | src/utils/getProductImage.ts:75-105 | One entry per input URL, each with a three-entry `srcset`. |
| ProductImage.SrcParams | src/utils/getProductImage.ts:79-91 | Each `src` keeps its URL up to the query and carries `fit=cover`, `crop=false`, `dpi=1` and the base width, once each. |
| ProductImage.SrcsetUrlParams | src/utils/getProductImage.ts:93-98 | A `srcset` URL keeps its base and carries `fit=cover`, `crop=false`, `dpi=1`, `auto=webp`, `quality=80` and the requested width, once each. |
| ProductImage.SrcsetParams | src/utils/getProductImage.ts:92-100 | Entry k (1 to 3) ends in ` kx`. Its URL keeps the base, has width k times the base width, and `fit=cover`, `crop=false`, `dpi=1`, `auto=webp` and `quality=80`, once each. |
| ProductList.FirstTileAt | src/components/ProductList/ProductList.tsx:94 | `find` returns the first tile whose position is exactly the wanted string, and none exists before it. |
| ProductList.Slots | src/components/ProductList/ProductList.tsx:92-112 | Null products give no slots. Otherwise there is one slot per product, holding that product, in order. |
| ProductList.ProductsInOrder | src/components/ProductList/ProductList.tsx:92-112 | Every product is rendered exactly once and in its original order. |
| ProductList.RenderedTiles | src/components/ProductList/ProductList.tsx:95-99 | A tile is rendered iff some slot carries it. |
| ProductList.RenderEndsWithProduct | src/components/ProductList/ProductList.tsx:95-112 | The last rendered item is the last product, so no tile follows it. |
| ProductList.TileRule | src/components/ProductList/ProductList.tsx:124-130 | Before the product at index i there is a tile iff some tile's position is exactly `(i+1).toString()`. The tile shown is the first such tile. |
| ProductList.NoTileTwice | src/components/ProductList/ProductList.tsx:94 | No tile is placed before two different products. |
| ProductList.ShownTilePositions | src/components/ProductList/ProductList.tsx:92-94 | A rendered tile's position is the decimal of some k with 1 ≤ k ≤ the number of products. |
| ProductList.NonCanonicalNeverShown | src/components/ProductList/ProductList.tsx:125 | A tile is never shown if its position is missing, empty, has a leading zero or has a non-digit character. |
| ProductList.TilePastEndNeverShown | src/components/ProductList/ProductList.tsx:92-94 | A tile positioned past the last product is never shown. |
| ProductList.RenderWithoutTiles | src/components/ProductList/ProductList.tsx:96-111 | Slots without tiles render as the products alone. |
| ProductList.NullInputs | src/components/ProductList/ProductList.tsx:92-94 | Null products render nothing. Null promo tiles render the products with no tiles. |
| Js.NatToStringInjective | src/components/ProductList/ProductList.tsx:94 | Distinct indices have distinct `toString()` renderings. |
| Store.NormalisedContext | src/context/store.tsx:76-79 | The context keeps only the customer group (default `''`) and the view history (default `[]`). |
| Store.StoreProps | src/context/store.tsx:68-95 | In a testing environment `apiUrl` is `TEST_URL`. Otherwise it is the supplied URL if non-empty, else `API_URL`. `apiKey` becomes `SANDBOX_KEY` only when testing and the key is empty or missing. All other props pass through unchanged. |
| Store.StorePropsIdempotent | src/context/store.tsx:68-95 | Resolving the resolved props changes nothing. |
| Store.SandboxKeyOnlyWhenTestingAndMissing | src/context/store.tsx:87-90 | The published key differs from the supplied one only in a testing environment whose supplied key is empty or missing. |
| Store.EnvironmentTypeIgnoresCase | src/context/store.tsx:80-90 | The environment check ignores letter case, and so do the `apiUrl` and `apiKey` it chooses. |
| Store.DefaultStore | src/context/store.tsx:38-51 | Without a provider, `searchQuery` is `'q'`; the environment id, environment type, the three codes, URL, key and promo-tile path are `''`; `config` is empty; there is no route; and the context is empty. |
| Store.DefaultStoreIsNotResolved | src/context/store.tsx:38-51 | The default value is not normalised: its URL stays empty and its context has no customer group, unlike a provider's. |
| Store.UseStore | src/context/store.tsx:108-111 | `useStore()` yields the provider's resolved props, or the default value when there is no provider. |

## Left out

- The network and JSON: `fetch`, `response.json()`, `JSON.parse` and the GraphQL query texts from `./queries` are not modelled. Responses and errors are inputs, and a request body names its operation without its text.
- `uuidv4`, `window.magentoStorefrontEvents`, `updateSearchInputCtx` and `updateSearchResultsCtx` are inputs or trace events. Their bodies are not part of this model.
- Only the part of WHATWG URL parsing these helpers reach is modelled. That part includes skipping extra `/` after `https://`. Left out are the throw on invalid input (an empty host included), user info, ports, backslashes, dot segments, and host validation. Also left out is the clean-up `href` applies before parsing: it trims leading and trailing C0 controls and spaces, and removes tab, CR and LF anywhere. Percent-encoding is left out too. `href` encodes the path, and it encodes the query (space, `"`, `<`, `>`, `'` and non-ASCII text as UTF-8) and the fragment (the same set, with a backtick instead of `'`). None of this is done here.
- `window.location.protocol` is assumed to be `http:` or `https:`. Then forcing `https` makes the page's protocol invisible in the top image URL, and `ProductImage.TopImageUrl` is written that way.
- `URLSearchParams` percent- and `+`-encoding is not modelled. Names and values are raw text between separators.
- ProductImage.DeriveUrlShape: the query, fragment and path it promises are the input's text copied verbatim. For input holding spaces, quotes, angle brackets, controls or non-ASCII text, the source's `href` gives the encoded or trimmed text instead, so there the promise is about the model, not the program.
- ProductImage.ResolvedUrlParts: holds only for options whose keys and values contain no `&` or `?` and whose keys contain no `=`, because without encoding such text would be read back differently.
- ProductImage.ResolveImageUrlParams: has the same restriction on options, and also assumes distinct option keys, which is always true for an object's entries.
- JSON value typing of promo tiles is not modelled: tile fields are strings or missing. A document whose `data` makes the filter throw (not an array, a `null` entry, a non-string `path`) is one case, `UnfilterableData`, giving `[]`. A numeric `position`, which passes the filter but never equals the index string in `ProductList.tsx`, is not represented.
- Case mapping is ASCII only, not Unicode `toUpperCase`/`toLowerCase`.
- Widths and the numeric image option values are naturals, so a negative width (written by the source as `width=-100`) is not expressible. Page sizes and `amount` are integers. Fractional `number`s and their decimal rendering are not modelled, and `amount` is not truncated towards zero.
- Search.ProductSearch: `displayOutOfStock` is a string or missing. JavaScript's loose `!=` on other types is not modelled.
- The order of `Object.entries` is taken as the order the options object lists its keys. Integer-like keys, which JavaScript lists first, do not occur.
- Rendering is not modelled: JSX, CSS classes, alerts, the cart, `refreshCart`, and the choice between list view and grid. Both layouts interleave tiles the same way.
- `src/containers/ProductsContainer.tsx` is not part of this model. It is rendering, pagination state and URL sync through helpers outside the core.
- `src/components/OutOfStockForm/OutOfStockForm.tsx` is not part of this model, because it is DOM `<dialog>` handling plus an asynchronous submit. Its `onSuccess` callback fires twice on success and once on failure.
- `src/components/ProductItem/OutOfStockDisplay.tsx` is presentational and not part of this model, and neither is the render smoke test `OutOfStockForm.test.tsx`.
- Preact context plumbing is not modelled. `useMemo` recomputation, including the incomplete dependency list in `store.tsx`, is not modelled: `Store.StoreProps` is the value computed from the current props.

## Findings

| source | as written | input that shows it | evidently intended | confidence | as-written member | corrected member |
|---|---|---|---|---|---|---|
| src/utils/getProductImage.ts:42-45 | `topImageUrlFormatted.indexOf(topImageUrlFormatted)` is always 0, so `splice(0, 1)` removes the first gallery URL whatever it is | gallery `a/1`, `a/2` with top image `a/3`: the result is the top image and `a/2`, so `a/1` is lost | `imageUrlArray.indexOf(topImageUrlFormatted)`, which removes the gallery's copy of the top image, if any, before prepending it | high; not executed | ProductImage.TopImageDropsUnrelatedFirst | ProductImage.DeduplicatedImageUrls |

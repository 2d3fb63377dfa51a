# Product catalog front end: a Dafny model

This project models the logic of a small product-catalog web front end written
in TypeScript: the page's filter/sort pipeline over the product list, the
products API helpers that validate what the server returned and filter it on
the client, the HTTP client's error normalisation and retry predicate, the
formatting helpers that label a gender and build a WhatsApp contact link, and
the dotted-key lookup into the English message table.

Files and modules:

- `types.dfy` (`Types`): `Gender` codes, `Product`, `ProductFilters`,
  `ApiException`, what a `catch` clause can receive, and the shared rewrapping
  of unexpected errors.
- `seqs.dfy` (`Seqs`): `Array.prototype.filter` as a function, with the
  subsequence relation and the laws the pipeline needs.
- `strings.dfy` (`Strings`): `toLowerCase`, `includes`, `trim`, `split`,
  `join` and decimal rendering of an index.
- `page.dfy` (`CatalogPage`): `GENDER_LABEL`, `cn`, the four sort
  comparators, a stable sort, and the memoised filter/sort body as a method
  over the module-level product array.
- `products.dfy` (`ProductsApi`): `getProducts`, `getProductById` and
  `applyClientFilters`.
- `client.dfy` (`ApiClientModel`): the `ApiClient` class, its configuration,
  `retryCondition`, the response-error interceptor and `get`.
- `messages.dfy` (`Messages`): the message table, `getMessage` and
  `whatsApp.messageTemplate`.
- `formatters.dfy` (`Formatters`): `genderLabel`, `encodeURIComponent`
  (section 19.2.6.5 of ECMA-262, UTF-8 octets per RFC 3629 section 3 written as
  `%XX` escapes per section 2.1 of RFC 3986), its inverse
  `decodeURIComponent`, and `generateWhatsAppURL`.

Three inconsistencies of the code are reproduced, not corrected:

- The `Gender` enum is UNISEX = 0, MALE = 1 and FEMALE = 2. The page's own
  `GENDER_LABEL` shows 0 as "Male", 1 as "Female" and 2 as "Unisex".
  `CatalogPage.PageLabelsAreShifted` proves the page's label for each code is
  the one `genderLabel` gives the next code.
- In `applyClientFilters`, the gender branch is a placeholder: any gender
  filter other than 'all' rejects every product.
- In `applyClientFilters`, a `maxPrice` of 0 is falsy and switches the price
  filter off.

The page's memo body has no category or price filter; only
`applyClientFilters` has them.

## Model

| member | source | states |
|---|---|---|
| Types.Rewrap | src/lib/api/products.ts:41-53 | an `ApiException` propagates unchanged; any other thrown value becomes status 500 'Internal Server Error' carrying the error's message, or the fallback text when it is not an `Error` |
| Strings.Lower | src/app/page.tsx:185-190 | lowercasing keeps the length and maps every character on its own |
| Strings.TrimEmptyIffBlank | src/app/page.tsx:184 | `query.trim()` is empty exactly when the query is empty or only whitespace |
| Strings.Split | src/lib/i18n/messages.ts:144 | `split('.')` gives at least one piece and no piece holds the separator |
| Strings.SplitJoin | src/lib/i18n/messages.ts:144 | splitting the join of separator-free pieces gives the pieces back |
| Strings.JoinSplit | src/lib/i18n/messages.ts:144 | joining the pieces of a split restores the string |
| Strings.ParseNatToString | src/lib/api/products.ts:28 | the decimal rendering of an index reads back as that index |
| CatalogPage.PageGenderLabel | src/app/page.tsx:148-152 | `GENDER_LABEL[g]` is defined exactly for 0, 1 and 2, and is one of the three labels |
| CatalogPage.PageLabelsAreShifted | src/app/page.tsx:148-152 | the page's label for each enum value is the formatter's label of the next value, and never the formatter's label of the same value |
| CatalogPage.KeptClasses | src/app/page.tsx:168-170 | the kept strings are the names of `args.filter(Boolean)`, one for one and in argument order: only non-empty strings, and none exactly when no argument is truthy |
| CatalogPage.CnKeepsTruthyInOrder | src/app/page.tsx:168-170 | `cn` is "" exactly when no argument is truthy; otherwise, for space-free class strings, splitting its result on " " gives the truthy strings in argument order |
| CatalogPage.OrderFor | src/app/page.tsx:202-217 | "priceAsc", "priceDesc" and "name" select their comparator; every other key falls to the newest-first default |
| CatalogPage.LexCompareZero | src/app/page.tsx:210 | `LexCompare`, the code-point order under the name comparator, is zero exactly for equal strings |
| CatalogPage.LexCompareTrans | src/app/page.tsx:210 | the name comparison is transitive |
| CatalogPage.CompareFlip | src/app/page.tsx:204-215 | each of the four comparators changes sign when its arguments are swapped |
| CatalogPage.CompareTrans | src/app/page.tsx:204-215 | each of the four comparators is transitive |
| CatalogPage.StableSort | src/app/page.tsx:204-215 | `[...data].sort(cmp)` returns a permutation of its input ordered by the comparator |
| CatalogPage.SortKeepsTies | src/app/page.tsx:204-215 | the sort is stable: the products that compare equal keep their input order |
| CatalogPage.SortOfSorted | src/app/page.tsx:204-215 | sorting an already ordered sequence changes nothing |
| CatalogPage.StableOrderIsUnique | src/app/page.tsx:204-215 | two sorted permutations of the same products that keep every group of equal keys in the same order are equal |
| CatalogPage.StableSortIsUnique | src/app/page.tsx:204-215 | any sorted permutation that keeps equal keys in input order is exactly the model's sort result, so the grid order is fully determined by the comparator and the input |
| CatalogPage.FilteredProducts | src/app/page.tsx:181-220 | the memo body leaves the product array alone and returns the view: only active products; each matches a non-blank lowercased query in name, description or slug; each has the chosen gender code; each is featured when asked; a permutation of exactly the selected products; ordered by price up, price down, name, or newest first; equal keys in input order |
| CatalogPage.ViewFacts | src/app/page.tsx:182-217 | for every catalog and every input, the view holds only selected products, is a permutation of the selection, is ordered by the chosen key and keeps ties in order |
| CatalogPage.ViewIdempotent | src/app/page.tsx:181-220 | running the pipeline again on its own output, with the same inputs, gives the same output |
| CatalogPage.BlankQueryKeepsEveryActive | src/app/page.tsx:182-184 | an empty or whitespace-only query filters nothing: with no other restriction every active product is kept |
| ProductsApi.FirstInvalid | src/lib/api/products.ts:25-33 | finds the lowest index whose entry lacks a truthy id, a truthy name or a numeric basePrice, and finds none exactly when every entry passes |
| ProductsApi.InvalidEntry | src/lib/api/products.ts:27-31 | the failure is status 500 'Invalid Data' with a message holding the index in decimal |
| ProductsApi.InvalidEntryNamesIndex | src/lib/api/products.ts:28 | two failing indices give the same exception only when they are equal |
| ProductsApi.Products | src/lib/api/products.ts:40 | the validated array is the received products, element by element |
| ProductsApi.ValidateEntries | src/lib/api/products.ts:25-33 | the `forEach` check succeeds exactly when every entry passes, returning the products; otherwise it fails with the exception for the lowest failing index |
| ProductsApi.GetProducts | src/lib/api/products.ts:11-54 | fetch failures are rewrapped; a non-array is rejected with 500; an invalid entry fails naming the first bad index; otherwise the products, filtered by `applyClientFilters` when filters are given and unchanged when not; every failure not propagated from an `ApiException` has status 500 |
| ProductsApi.GetProductById | src/lib/api/products.ts:61-86 | succeeds exactly when the fetched product passes the field check and returns it unchanged; a failing check gives 500 'Invalid Data'; fetch failures are rewrapped |
| ProductsApi.ApplyClientFilters | src/lib/api/products.ts:95-124 | an order-preserving subsequence of the input holding every copy of each product that passes every enabled check and no copy of any other: query in name or description (not slug), exact category, no gender filter on, price at most a truthy maxPrice |
| ProductsApi.GenderFilterRejectsAll | src/lib/api/products.ts:112-116 | a gender filter other than 'all' leaves nothing |
| ProductsApi.ZeroMaxPriceDisablesPriceFilter | src/lib/api/products.ts:119-121 | maxPrice 0 gives the same result as no maxPrice |
| ProductsApi.NoEnabledFilterKeepsAll | src/lib/api/products.ts:95-124 | with no check enabled the products come back unchanged |
| ApiClientModel.FirstTruthy | src/lib/api/client.ts:67 | `a || b || ... || fallback` is the first non-empty candidate, or the fallback when there is none |
| ApiClientModel.ToApiException | src/lib/api/client.ts:62-89 | with a response: its status and statusText, and the first truthy of data.message, data.error, error.message, 'Server error'; with only a request: status 0 'Network Error'; otherwise status 0 'Request Error' with error.message or 'Request failed'; the message is never empty |
| ApiClientModel.RetryCondition | src/lib/api/client.ts:32-35 | retry exactly when the library predicate holds or the response status is at least 500 |
| ApiClientModel.ApiClient.constructor | src/lib/api/client.ts:16-30 | the client is configured with the base URL, the 10 s timeout, the JSON headers and 3 retries |
| ApiClientModel.Intercepted | src/lib/api/client.ts:23-89 | the custom interceptor runs once more per retry, on the exception the retried request threw; the message is always the last attempt's, and after a retry the status is 0 'Request Error' |
| ApiClientModel.RetriedFailureLosesStatus | src/lib/api/client.ts:81-88 | a retried failure reaches the caller as exactly `ApiException(message, 0, 'Request Error')`, and further retries change nothing |
| ApiClientModel.ApiClient.Get | src/lib/api/client.ts:93-96 | a delivered response yields its `data` unchanged; a failed one yields the exception the interceptor chain leaves, which is the interceptor's mapping of the transport error when no retry happened |
| Messages.Child | src/lib/i18n/messages.ts:148 | `value?.[k]` is defined exactly on an object holding the member `k`, and is then that member |
| Messages.GetMessage | src/lib/i18n/messages.ts:143-152 | the loop walks the table one segment of `key.split('.')` at a time; a missing segment or an empty string gives back the key, a non-empty string is returned |
| Messages.UndefinedStaysUndefined | src/lib/i18n/messages.ts:148 | once the walk is `undefined` it stays `undefined` through the remaining segments |
| Messages.WalkPrefix | src/lib/i18n/messages.ts:147-149 | walking a path is walking a prefix of it and then the rest |
| Messages.PrefixMissing | src/lib/i18n/messages.ts:147-149 | a path whose prefix leads nowhere leads nowhere |
| Messages.MissingSegmentGivesKey | src/lib/i18n/messages.ts:147-151 | a key with a missing leading segment falls back to the key itself |
| Messages.KeyResolves | src/lib/i18n/messages.ts:143-152 | a key made of dot-free segments that lead to a non-empty string resolves to that string, so every declared key with a non-empty leaf returns its leaf |
| Messages.MessageTemplate | src/lib/i18n/messages.ts:103-104 | the message is the fixed opening text, the name, " (slug: ", the slug and the fixed closing text, each at its position |
| Formatters.GenderLabel | src/lib/utils/formatters.ts:5-15 | "Male" exactly for MALE, "Female" exactly for FEMALE, "Unisex" for UNISEX, `undefined` and every other number |
| Formatters.Utf8RoundTrip | src/lib/utils/formatters.ts:23 | the UTF-8 octets of a character decode back to it, and the lead octet announces the sequence length |
| Formatters.DecodeEncode | src/lib/utils/formatters.ts:23 | `decodeURIComponent(encodeURIComponent(s)) == s` for every string |
| Formatters.EncodeWellFormed | src/lib/utils/formatters.ts:23 | the encoding consists only of unreserved characters and uppercase `%XX` escapes |
| Formatters.WhatsAppUrlCarriesMessage | src/lib/utils/formatters.ts:21-24 | the URL is "https://wa.me/5581999999999?text=" followed by a value with no raw space, `&`, `#`, `?`, `=` or `+`, and that value decodes to the template message |

## Left out

- Network I/O: the GET itself, the request interceptor and the `console.log` calls. What `apiClient.get` resolves or rejects with is a parameter of `GetProducts`, `GetProductById` and `ApiClient.Get`.
- axios-retry's retry loop, exponential backoff and the 10 s timeout. These are library behaviour. The client records the retry budget and the model states the retry predicate; `isNetworkOrIdempotentRequestError` is an opaque boolean input. How many retries a failed request went through is a parameter of the outcome, and is not tied to the predicate or to the budget of 3.
- `post`, `put`, `delete` and `getAxiosInstance` of the client: the catalog does not use them.
- Prices are JS numbers; the model uses integers (for instance cents), so floating-point rounding is not modelled.
- `createdAt` is an ISO-8601 string parsed by `new Date`; the model holds the resulting integer timestamp, and an unparsable date (NaN) is not modelled.
- CatalogPage.LocaleCompare: `localeCompare` is modelled as code-point comparison of ASCII-lowercased strings. This order differs from locale collation: accents, non-ASCII case and the placement of punctuation are not handled, and names that differ only in ASCII case ("apple" and "Apple") compare as 0, so the name sort keeps them in input order where `localeCompare` would order them.
- Strings.Lower: `toLowerCase` lowers ASCII letters only; other scripts' case mappings are not modelled.
- Array elements that are `null` or not objects (a TypeError in the validation loop) are not modelled; every element is a product record whose checked fields may be empty or non-numeric.
- A NaN `maxPrice` is not modelled; a present `maxPrice` is an integer.
- `getMessage` is typed to take only the declared `MessageKey` literals. The model accepts any string, and a segment naming a built-in string property (for example `length`) or a property every object inherits (for example `constructor`) is treated as missing.
- Messages.KeyResolves is proved once for every key shape; it is not instantiated for each of the 26 declared keys one by one.
- `encodeURIComponent` throws a URIError on a lone surrogate; Dafny strings hold Unicode scalar values, so that input cannot arise in the model.
- `usd`, `formatPrice` and `isNew` (floating-point formatting and the wall clock), the JSX markup, React state hooks and `useTranslation`.

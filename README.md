# Article proxy front-end: a Dafny model of its core

The server fronts a remote article API. `GET /pages` renders the article list and
`GET /pages/:id` renders one article with Open Graph metadata. Both read through a
30-second in-memory cache, and the article page derives its description from the
article body with a naive tag stripper. This project models that core of
`server.js` and proves what it promises:

- `Sanitizer`: `stripHtml`, the global replacement of `/<\/?[^>]+(>|$)/g` by "".
  It is modelled as a left-to-right scanner (`StripTags`) that deletes a whole tag at
  a time. It is proved equal to a literal reading of the regular expression, with its
  optional `/` and greedy, backtracking `[^>]+` (`ReplaceAll`). A tag starts at a `<`
  whose next character exists and is not `>`. It ends after the next `>`, or at the
  end of the text. So `<>` and a final lone `<` are kept, while `</>` and a final
  `</` are removed.
- `Json`: parsed JSON values, with the JavaScript operations the core applies to
  them: truthiness, property reads (`?.`), and `String(v)` as a template literal
  inserts it.
- `Metadata`: `getServerBaseUrl` and the `meta` object of `renderArticle`, that is
  the title, description, image URL and canonical URL.
- `Cache`: the module-level `cache` object, a class with a `list` slot and an
  `items` map, each entry stamped with its fetch time.
- `Routes`: the two handlers. `ListStep` and `ArticleStep` specify one request as a
  step on the cache contents. `ListPage` and `ArticlePage` perform it in place on an
  `ArticleCache` and are proved to agree with them.

Inputs from outside the model are parameters. The clock reading `now` is one.
`upstream` is the other: the result of the fetch a request would issue, either
`Ok(body)` or `Err`. `Err` covers network failure, a non-2xx status and a body that
is not JSON. `upstream` is consulted only when the handler reports `fetched`.

In these edge cases the model follows the code:

- An entry is stale once `now - ts` reaches exactly 30000 ms (`<` at server.js:40
  and 62), not only after "more than" the TTL.
- On the list route a `null` JSON body is a 500, because `data.data` throws. On the
  article route the same body is a 404, because it uses `json?.data`.
- A truthy `ArticleText` that is not a string makes `stripHtml` throw. The article
  route turns this into its 500 response. On a miss the article has already been
  stored by then, so the 500 repeats from the cache until the entry expires
  (`ThrowingRenderIsCached`).
- An `id` that is an object with its own `toString` key, or an array holding one,
  cannot be written into the image URL (server.js:81), so that article is also
  stored and then answered with a 500 (`UnprintableIdExample`).

## Model

| member | source | states |
|---|---|---|
| `Sanitizer.StripTags` | server.js:26 | the stripped text is never longer than the input |
| `Sanitizer.StripHtml` | server.js:25-27 | an absent or falsy input gives ""; the call throws exactly for a truthy non-string; for a string the output is never longer than the input |
| `Sanitizer.ReplaceAll` | server.js:26 | the literal global replacement of the pattern, trying each position in turn; stated equal to the scanner by `StripAgreesWithPattern` |
| `Sanitizer.MatchAtStartIsTag` | server.js:26 | the pattern `<\/?[^>]+(>|$)` matches at a position exactly when a tag starts there (`<` then a non-`>`), and the match ends after the next `>` or at the end; the optional `/` never changes the extent |
| `Sanitizer.StripAgreesWithPattern` | server.js:26 | the scanner equals the global regular-expression replacement, backtracking included |
| `Sanitizer.PlainTextUnchanged` | server.js:26 | a text without `<` is returned unchanged |
| `Sanitizer.PlainPrefixKept` | server.js:26 | text without `<` passes through unchanged whatever follows it |
| `Sanitizer.ClosedTagDeleted` | server.js:26 | a closed tag `<...>` is deleted whatever follows it |
| `Sanitizer.StripIsSubsequence` | server.js:26 | the output is a subsequence of the input: the sanitizer only deletes characters |
| `Sanitizer.StripIsTagFree` | server.js:26 | in the output every `<` is the last character or is followed by `>` |
| `Sanitizer.TagFreeIsFixed` | server.js:26 | a text in which every `<` is last or followed by `>` is left unchanged |
| `Sanitizer.FixedIffTagFree` | server.js:26 | the texts the sanitizer leaves unchanged are exactly the tag-free ones |
| `Sanitizer.StripIdempotent` | server.js:26 | stripping twice equals stripping once |
| `Sanitizer.StripExample` | server.js:26 | `<p>Hello <b>World</b></p>` becomes `Hello World` |
| `Json.NatText` | server.js:81 | the decimal text of a number is non-empty and made of digits |
| `Json.Truthy` | server.js:40-88 | JavaScript truthiness as `||`, `!` and `if` use it: `undefined`, `null`, `false`, `0` and `""` are falsy; used by `TitleRule`, `Description` and `ArticleNotFound` |
| `Json.Prop` | server.js:45-88 | `v?.key` and `v.key` on a non-null value: the object's own property, else `undefined`; used by `ResolveRules` and `Description` |
| `Json.IntText` | server.js:81 | `String(n)` for an integer: a `-` then the digits of `|n|`; stated injective by `IntTextInjective` |
| `Json.ElemsText` | server.js:81 | `join` of an array's elements with commas, `null` as ""; its failures are stated by `ElemsTextFails` |
| `Json.ToText` | server.js:81 | `${v}` for a property read: "undefined" for a missing property, otherwise `ValueText` |
| `Json.ValueText` | server.js:81 | an object throws when written out exactly when it has its own `toString` key; `null`, booleans, numbers and strings always have a text |
| `Json.ElemsTextFails` | server.js:81 | an array throws when written out exactly when one of its elements does |
| `Json.NatTextRoundTrip` | server.js:81 | reading the decimal text of `n` back gives `n` |
| `Json.IntTextInjective` | server.js:81 | distinct integer ids have distinct texts |
| `Metadata.BaseUrlPrefersForwarded` | server.js:30-34 | the host is `x-forwarded-host` when present and non-empty, else `Host` (`undefined` if missing); the protocol is `x-forwarded-proto` when present and non-empty, else the connection's |
| `Metadata.BaseUrlIgnoresDirectValues` | server.js:30-34 | with both forwarded headers set, the base URL is `{proto}://{host}` from them alone |
| `Metadata.BaseUrl` | server.js:30-34 | `{proto}://{host}` with the `||` fallbacks; stated by `BaseUrlPrefersForwarded` and `BaseUrlIgnoresDirectValues` |
| `Metadata.HeaderTextIsToText` | server.js:33 | a header, or its absence, is written out exactly as the same string as a JSON value (`undefined` when absent) |
| `Metadata.IdText` | server.js:81 | `${article.id}`, which throws for an id with no text form; stated by `UnprintableIdFails` and `NumericIdsSeparateUrls` |
| `Metadata.ImageUrl` | server.js:81 | `{API_BASE}/{id}/image`; its inverse is `ImageId`, by `ImageUrlRoundTrip` |
| `Metadata.PageUrl` | server.js:91 | `{base}/pages/{id}`; its inverse is `PageId`, by `PageUrlRoundTrip` |
| `Metadata.ImageUrlRoundTrip` | server.js:81 | the id can be read back from `{API_BASE}/{id}/image` |
| `Metadata.PageUrlRoundTrip` | server.js:91 | the id can be read back from `{base}/pages/{id}` |
| `Metadata.ImageUrlInjective` | server.js:81 | distinct ids give distinct image URLs |
| `Metadata.PageUrlInjective` | server.js:91 | distinct ids give distinct canonical URLs under one base |
| `Metadata.NumericIdsSeparateUrls` | server.js:81-91 | articles with different numeric ids get different image and canonical URLs |
| `Metadata.TitleRule` | server.js:88 | the title is `Title` when truthy, else `"Article"`, and is never falsy |
| `Metadata.Title` | server.js:88 | `article.Title || "Article"`; stated by `TitleRule` |
| `Metadata.Take` | server.js:85 | `slice(0, n)` is the prefix of length `min(n, len)` |
| `Metadata.Description` | server.js:82-85 | computing the description throws exactly when `seo` is falsy and `ArticleText` is truthy but not a string |
| `Metadata.DescriptionPrefersSeo` | server.js:82 | a truthy `seo` is the description verbatim, with no length cap |
| `Metadata.DescriptionEmpty` | server.js:82-85 | with neither `seo` nor `ArticleText` the description is "" |
| `Metadata.DescriptionFromBody` | server.js:84-85 | otherwise the description is a prefix of the stripped body: the whole stripped body when it has at most 160 characters, its first 160 characters when longer; it is tag-free and a subsequence of the body |
| `Metadata.BuildMeta` | server.js:80-92 | the metadata exists exactly when both the id can be written out and the description can be computed |
| `Metadata.UnprintableIdFails` | server.js:81 | an id that is an object with its own `toString` key, or a one-element array of one, makes building the metadata throw |
| `Metadata.MetaNamesArticle` | server.js:80-92 | the rendered metadata carries the never-falsy title, the description, and image and canonical URLs from which the id's text reads back |
| `Cache.ListLifetime` | server.js:40 | a list stored at `t` is a hit exactly while `now - t < 30000` |
| `Cache.ItemLifetime` | server.js:62 | an article stored for `id` at `t` is a hit for `id` exactly while `now - t < 30000`; other ids and the list answer as before |
| `Cache.ListHit` | server.js:40 | the stored list while `now - ts < 30000`, else nothing; stated by `ListLifetime` |
| `Cache.ItemHit` | server.js:62 | the stored article for `id` while `now - ts < 30000`, else nothing; stated by `ItemLifetime` |
| `Cache.HitIsTruthy` | server.js:62-63 | on a cache holding only truthy articles, a hit serves a truthy article |
| `Cache.ArticleCache.constructor` | server.js:15 | the cache starts with no list and no items |
| `Cache.ArticleCache.SetList` | server.js:46 | sets the list slot to `(articles, now)` and leaves the items alone |
| `Cache.ArticleCache.SetItem` | server.js:71 | sets `items[id]` to `(article, now)`, leaves everything else alone, and keeps every stored article truthy |
| `Routes.ListPage` | server.js:37-53 | the in-place handler answers, fetches and leaves the cache exactly as `ListStep` says, and never touches the items |
| `Routes.ArticlePage` | server.js:56-77 | the in-place handler answers, fetches and leaves the cache exactly as `ArticleStep` says, and never touches the list |
| `Routes.ListArticles` | server.js:45 | the `data` array of the body, or `[]` when it is not an array; stated by `ListMiss` and `NonArrayListIsEmpty` |
| `Routes.ResolveArticle` | server.js:67-68 | `json?.data`, replaced by its first element when it is an array; stated by `ResolveRules` |
| `Routes.ArticleResponse` | server.js:72-75 | `renderArticle`: the page with its metadata, or the article 500 when the metadata throws; stated by `ThrowingRenderIsCached` and `UnprintableIdExample` |
| `Routes.ListStep` | server.js:37-53 | one `/pages` request as a step on the cache; stated by `ListHitServesCache`, `ListMiss` and `ListRepeat`, and performed by `ListPage` |
| `Routes.ArticleStep` | server.js:56-77 | one `/pages/:id` request as a step on the cache; stated by `ArticleHitServesCache`, `ArticleStored`, `ArticleNotFound` and `ArticleRepeat`, and performed by `ArticlePage` |
| `Routes.ListHitServesCache` | server.js:40-42 | a fresh list is rendered as stored, with no fetch and no change, whatever upstream would return |
| `Routes.ListMiss` | server.js:44-51 | without a fresh list the route fetches; a failed fetch or a `null` body gives 500 "Server error fetching articles." with no write; otherwise the articles are rendered and stored with `ts = now`, and nothing else changes |
| `Routes.NonArrayListIsEmpty` | server.js:45-46 | a non-array `data` renders and caches the empty list |
| `Routes.ListRepeat` | server.js:40-46 | after a list fetched at `t1`, a request at `t2` is served from the cache without a fetch exactly when `t2 - t1 < 30000` |
| `Routes.ArticleHitServesCache` | server.js:62-64 | a fresh article is rendered as stored, with no fetch and no change, whatever upstream would return |
| `Routes.ResolveRules` | server.js:67-68 | an array `data` resolves to its first element, an empty one to nothing; other `data` is used as is; a `null` body resolves to nothing |
| `Routes.ArticleFetchFails` | server.js:73-75 | a failed fetch gives 500 "Server error fetching article." with no write |
| `Routes.ArticleNotFound` | server.js:69 | a falsy resolution gives 404 "Article not found" with no write |
| `Routes.NotFoundExamples` | server.js:67-69 | `{ data: null }` and `{ data: [] }` give 404 |
| `Routes.ArticleStored` | server.js:71-72 | a truthy resolution sets only `items[id] := (article, now)`; the list and every other id are unchanged |
| `Routes.FirstElementWins` | server.js:67-72 | `{ data: [a, ...] }` with a truthy `a` stores and renders `a` |
| `Routes.ThrowingRenderIsCached` | server.js:71-75 | an article whose metadata throws is stored before the 500, and a request within the TTL repeats the 500 from the cache without fetching |
| `Routes.UnprintableIdExample` | server.js:71-81 | the body `{ data: { id: { toString: 1 } } }` is stored under `id` and answered with 500 "Server error fetching article." |
| `Routes.ArticleRepeat` | server.js:62-72 | after an article stored at `t1`, a request for the same id at `t2` is served from the cache without a fetch exactly when `t2 - t1 < 30000` |
| `Routes.NullBodyAsymmetry` | server.js:45 | a `null` body is a 500 on the list route and a 404 on the article route |
| `Routes.RenderedArticleIsTruthy` | server.js:62-72 | on a cache holding only truthy articles, every article the detail route renders is truthy, whether served from the cache or fetched |
| `Routes.StepsKeepCacheConsistent` | server.js:46-71 | the list route never changes the items, the article route never changes the list, and both keep every stored article truthy |

## Left out

- Express setup, view-engine configuration, `app.listen` and the port (server.js:9-11, 100-103): this is framework plumbing.
- The `/` redirect (server.js:98): it is a constant 302 to `/pages` and has no logic to model.
- `fetchJson` and `node-fetch` (server.js:18-22): network I/O. Each request takes the fetch's outcome as its `upstream` parameter, with every failure folded into `Err`.
- `res.render` and the EJS templates: the templates are not part of this model. A rendered page is the response constructor with its data, and a failure inside the template engine is not modelled.
- `Date.now()` is the `now` parameter, and `console.error` logging is dropped.
- Concurrency: each request is one atomic step on the cache. Interleavings at the fetch's suspension point are not modelled, such as two requests for the same expired key that both fetch and both write.
- JSON numbers are integers in this model. Fractional numbers, `NaN` and `-0` are not covered.
- `Json.NatText` and `Json.IntText` write every integer in plain decimal digits. In JavaScript a number is a double: `Num(n)` stands for it exactly only when `|n| <= 2^53`, and `String()` switches to exponent form (`1e+21`) once `|n| >= 10^21`. So the id text of larger numbers is not modelled.
- `Metadata.Take` and `Metadata.DescriptionFromBody` count characters. JavaScript's `slice(0, 160)` counts UTF-16 code units, so the two differ for text outside the Basic Multilingual Plane.
- Header values are taken as `req.get` returns them. Express's own parsing and URL-decoding of `:id` happen before the model starts.

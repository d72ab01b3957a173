/**
  The two article routes. Each request is one atomic step on the cache: it reads
  the clock value `now`, serves a fresh entry when there is one, and otherwise
  consults `upstream`, the outcome of the fetch it would issue (`Ok` with the
  parsed JSON body, or `Err` for a network failure, a non-2xx status or a body
  that is not JSON). `ListStep` and `ArticleStep` say what a request does;
  `ListPage` and `ArticlePage` do it in place on an `ArticleCache`.
*/
module Routes {
  import opened Wrappers
  import opened Json
  import opened Metadata
  import opened Cache

  const LIST_ERROR: string := "Server error fetching articles."
  const ARTICLE_ERROR: string := "Server error fetching article."
  const NOT_FOUND: string := "Article not found"

  datatype Response =
      /** `res.render("index", { articles })` */
    | RenderList(articles: seq<Value>)
      /** `res.render("pages/article", { article, meta })` */
    | RenderArticle(article: Value, meta: Meta)
      /** `res.status(status).send(body)` */
    | Send(status: nat, body: string)

  /** What one request produces: the response, whether it fetched, and the cache after it. */
  datatype Outcome = Outcome(response: Response, fetched: bool, cache: CacheState)

  /** `Array.isArray(data.data) ? data.data : []`, for a body that is not `null`. */
  function ListArticles(body: Value): seq<Value> {
    match Prop(body, "data")
    case Some(Arr(xs)) => xs
    case _ => []
  }

  /** `json?.data`, replaced by its first element (`undefined` when empty) if it is an array. */
  function ResolveArticle(body: Value): Option<Value> {
    match Prop(body, "data")
    case Some(Arr(xs)) => if |xs| > 0 then Some(xs[0]) else None
    case other => other
  }

  /** `renderArticle`; computing the description may throw, which the route turns into a 500. */
  function ArticleResponse(req: Request, article: Value): Response {
    match BuildMeta(req, article)
    case Ok(meta) => RenderArticle(article, meta)
    case Err => Send(500, ARTICLE_ERROR)
  }

  /** The `/pages` handler as a step on the cache contents. */
  function ListStep(st: CacheState, now: int, upstream: Result<Value>): Outcome {
    match ListHit(st, now)
    case Some(articles) => Outcome(RenderList(articles), false, st)
    case None =>
      match upstream
      case Err => Outcome(Send(500, LIST_ERROR), true, st)
      case Ok(body) =>
        if body.Null? then Outcome(Send(500, LIST_ERROR), true, st)
        else
          var articles := ListArticles(body);
          Outcome(RenderList(articles), true, st.(list := Some(Entry(articles, now))))
  }

  /** The `/pages/:id` handler as a step on the cache contents. */
  function ArticleStep(st: CacheState, req: Request, id: string, now: int, upstream: Result<Value>): Outcome {
    match ItemHit(st, id, now)
    case Some(article) => Outcome(ArticleResponse(req, article), false, st)
    case None =>
      match upstream
      case Err => Outcome(Send(500, ARTICLE_ERROR), true, st)
      case Ok(body) =>
        var article := ResolveArticle(body);
        if !Truthy(article) then Outcome(Send(404, NOT_FOUND), true, st)
        else
          Outcome(ArticleResponse(req, article.value), true,
                  st.(items := st.items[id := Entry(article.value, now)]))
  }

  // ---------------------------------------------------------------------------
  // The handlers, in place
  // ---------------------------------------------------------------------------

  /** `GET /pages`. `upstream` is consulted only when `fetched` is true. */
  method ListPage(cache: ArticleCache, now: int, upstream: Result<Value>)
    returns (response: Response, fetched: bool)
    requires cache.Valid()
    modifies cache
    ensures cache.Valid()
    ensures Outcome(response, fetched, cache.View()) == ListStep(old(cache.View()), now, upstream)
    ensures cache.items == old(cache.items)
  {
    if cache.list.Some? && now - cache.list.value.ts < TTL_MS {
      return RenderList(cache.list.value.data), false;
    }
    fetched := true;
    match upstream {
      case Err =>
        response := Send(500, LIST_ERROR);
      case Ok(data) =>
        if data.Null? {
          // reading `data.data` throws before anything is stored
          response := Send(500, LIST_ERROR);
        } else {
          var articles: seq<Value> := [];
          var field := Prop(data, "data");
          if field.Some? && field.value.Arr? {
            articles := field.value.elems;
          }
          cache.SetList(articles, now);
          response := RenderList(articles);
        }
    }
  }

  /** `GET /pages/:id`. `upstream` is consulted only when `fetched` is true. */
  method ArticlePage(cache: ArticleCache, req: Request, id: string, now: int, upstream: Result<Value>)
    returns (response: Response, fetched: bool)
    requires cache.Valid()
    modifies cache
    ensures cache.Valid()
    ensures Outcome(response, fetched, cache.View())
            == ArticleStep(old(cache.View()), req, id, now, upstream)
    ensures cache.list == old(cache.list)
  {
    if id in cache.items && now - cache.items[id].ts < TTL_MS {
      return ArticleResponse(req, cache.items[id].data), false;
    }
    fetched := true;
    match upstream {
      case Err =>
        response := Send(500, ARTICLE_ERROR);
      case Ok(json) =>
        var article := Prop(json, "data");
        if article.Some? && article.value.Arr? {
          var first := article.value.elems;
          article := if |first| > 0 then Some(first[0]) else None;
        }
        if !Truthy(article) {
          return Send(404, NOT_FOUND), true;
        }
        cache.SetItem(id, article.value, now);
        response := ArticleResponse(req, article.value);
    }
  }

  // ---------------------------------------------------------------------------
  // The list route
  // ---------------------------------------------------------------------------

  /** A fresh list is served as stored, without a fetch, whatever upstream would say. */
  lemma ListHitServesCache(st: CacheState, now: int, upstream: Result<Value>)
    requires ListHit(st, now).Some?
    ensures ListStep(st, now, upstream) == Outcome(RenderList(ListHit(st, now).value), false, st)
  {
  }

  /**
    Without a fresh list the route fetches. A failed fetch, or a `null` body, is a
    500 with the list message and no write; otherwise the articles (the `data`
    array, or none) are rendered and stored with `ts = now`, and nothing else changes.
  */
  lemma ListMiss(st: CacheState, now: int, upstream: Result<Value>)
    requires ListHit(st, now).None?
    ensures ListStep(st, now, upstream).fetched
    ensures (upstream.Err? || upstream.value.Null?) ==>
      ListStep(st, now, upstream) == Outcome(Send(500, LIST_ERROR), true, st)
    ensures upstream.Ok? && !upstream.value.Null? ==>
      var articles := ListArticles(upstream.value);
      ListStep(st, now, upstream)
        == Outcome(RenderList(articles), true, st.(list := Some(Entry(articles, now))))
  {
  }

  /** A body whose `data` is not an array renders, and caches, an empty list. */
  lemma NonArrayListIsEmpty(st: CacheState, now: int, body: Value)
    requires ListHit(st, now).None? && !body.Null?
    requires !(Prop(body, "data").Some? && Prop(body, "data").value.Arr?)
    ensures ListStep(st, now, Ok(body))
            == Outcome(RenderList([]), true, st.(list := Some(Entry([], now))))
  {
  }

  /**
    After a list fetched at `t1`, a request at `t2` is served from the cache,
    without a fetch, exactly when `t2 - t1 < TTL_MS`.
  */
  lemma ListRepeat(st: CacheState, t1: int, body: Value, t2: int, upstream: Result<Value>)
    requires ListHit(st, t1).None? && !body.Null?
    ensures var first := ListStep(st, t1, Ok(body));
      var second := ListStep(first.cache, t2, upstream);
      && (t2 - t1 < TTL_MS ==> second == Outcome(first.response, false, first.cache))
      && (t2 - t1 >= TTL_MS ==> second.fetched)
  {
  }

  // ---------------------------------------------------------------------------
  // The article route
  // ---------------------------------------------------------------------------

  /** A fresh article is rendered as stored, without a fetch, whatever upstream would say. */
  lemma ArticleHitServesCache(st: CacheState, req: Request, id: string, now: int, upstream: Result<Value>)
    requires ItemHit(st, id, now).Some?
    ensures ArticleStep(st, req, id, now, upstream)
            == Outcome(ArticleResponse(req, ItemHit(st, id, now).value), false, st)
  {
  }

  /** An array `data` resolves to its first element; an empty one, like a missing `data`, to nothing. */
  lemma ResolveRules(body: Value)
    ensures Prop(body, "data").Some? && Prop(body, "data").value.Arr? ==>
      var xs := Prop(body, "data").value.elems;
      ResolveArticle(body) == if |xs| > 0 then Some(xs[0]) else None
    ensures !(Prop(body, "data").Some? && Prop(body, "data").value.Arr?) ==>
      ResolveArticle(body) == Prop(body, "data")
    ensures body.Null? ==> ResolveArticle(body).None?
  {
  }

  /** When the fetch fails the route answers 500 and writes nothing. */
  lemma ArticleFetchFails(st: CacheState, req: Request, id: string, now: int)
    requires ItemHit(st, id, now).None?
    ensures ArticleStep(st, req, id, now, Err) == Outcome(Send(500, ARTICLE_ERROR), true, st)
  {
  }

  /** When resolution yields nothing truthy the route answers 404 and writes nothing. */
  lemma ArticleNotFound(st: CacheState, req: Request, id: string, now: int, body: Value)
    requires ItemHit(st, id, now).None? && !Truthy(ResolveArticle(body))
    ensures ArticleStep(st, req, id, now, Ok(body)) == Outcome(Send(404, NOT_FOUND), true, st)
  {
  }

  /** `{ data: null }` and `{ data: [] }` are not found. */
  lemma NotFoundExamples(st: CacheState, req: Request, id: string, now: int)
    requires ItemHit(st, id, now).None?
    ensures ArticleStep(st, req, id, now, Ok(Obj(map["data" := Null]))).response == Send(404, NOT_FOUND)
    ensures ArticleStep(st, req, id, now, Ok(Obj(map["data" := Arr([])]))).response == Send(404, NOT_FOUND)
  {
    assert Prop(Obj(map["data" := Null]), "data") == Some(Null);
    assert Prop(Obj(map["data" := Arr([])]), "data") == Some(Arr([]));
  }

  /**
    A resolved article is stored under `id` with `ts = now` and rendered; the list
    slot and every other id are left as they were.
  */
  lemma ArticleStored(st: CacheState, req: Request, id: string, now: int, body: Value)
    requires ItemHit(st, id, now).None? && Truthy(ResolveArticle(body))
    ensures var a := ResolveArticle(body).value;
      var o := ArticleStep(st, req, id, now, Ok(body));
      && o == Outcome(ArticleResponse(req, a), true, st.(items := st.items[id := Entry(a, now)]))
      && o.cache.list == st.list
      && (forall other :: other != id ==>
            (other in o.cache.items <==> other in st.items)
            && (other in st.items ==> o.cache.items[other] == st.items[other]))
  {
  }

  /**
    A body `{ data: [a, ...] }` with a truthy first element stores and renders
    that element.
  */
  lemma FirstElementWins(st: CacheState, req: Request, id: string, now: int, a: Value, rest: seq<Value>)
    requires ItemHit(st, id, now).None? && Truthy(Some(a))
    ensures var body := Obj(map["data" := Arr([a] + rest)]);
      ArticleStep(st, req, id, now, Ok(body))
        == Outcome(ArticleResponse(req, a), true, st.(items := st.items[id := Entry(a, now)]))
  {
    var body := Obj(map["data" := Arr([a] + rest)]);
    assert Prop(body, "data") == Some(Arr([a] + rest));
  }

  /**
    An article whose metadata throws (an id with no text form, or a truthy
    `ArticleText` that is not a string) is still stored before rendering fails,
    so the 500 repeats from the cache until the entry expires.
  */
  lemma ThrowingRenderIsCached(st: CacheState, req: Request, id: string, now: int, body: Value, later: int)
    requires ItemHit(st, id, now).None? && Truthy(ResolveArticle(body))
    requires BuildMeta(req, ResolveArticle(body).value).Err?
    requires later - now < TTL_MS
    ensures var first := ArticleStep(st, req, id, now, Ok(body));
      && first.response == Send(500, ARTICLE_ERROR)
      && id in first.cache.items
      && ArticleStep(first.cache, req, id, later, Err) == Outcome(Send(500, ARTICLE_ERROR), false, first.cache)
  {
  }

  /** `{ data: { id: { toString: 1 } } }` is stored and answered with a 500. */
  lemma UnprintableIdExample(st: CacheState, req: Request, id: string, now: int)
    requires ItemHit(st, id, now).None?
    ensures var article := Obj(map["id" := Obj(map["toString" := Num(1)])]);
      var o := ArticleStep(st, req, id, now, Ok(Obj(map["data" := article])));
      && o.response == Send(500, ARTICLE_ERROR)
      && o.cache == st.(items := st.items[id := Entry(article, now)])
  {
    var f := map["toString" := Num(1)];
    var article := Obj(map["id" := Obj(f)]);
    assert Prop(Obj(map["data" := article]), "data") == Some(article);
    assert Prop(article, "id") == Some(Obj(f));
    UnprintableIdFails(req, article, f);
  }

  /**
    After an article stored at `t1`, a request for the same id at `t2` is served
    from the cache, without a fetch, exactly when `t2 - t1 < TTL_MS`.
  */
  lemma ArticleRepeat(st: CacheState, req: Request, id: string, t1: int, body: Value,
                      req2: Request, t2: int, upstream: Result<Value>)
    requires ItemHit(st, id, t1).None? && Truthy(ResolveArticle(body))
    ensures var first := ArticleStep(st, req, id, t1, Ok(body));
      var second := ArticleStep(first.cache, req2, id, t2, upstream);
      && (t2 - t1 < TTL_MS ==>
            second == Outcome(ArticleResponse(req2, ResolveArticle(body).value), false, first.cache))
      && (t2 - t1 >= TTL_MS ==> second.fetched)
  {
  }

  // ---------------------------------------------------------------------------
  // Both routes
  // ---------------------------------------------------------------------------

  /**
    A `null` body is a 500 on the list route (`data.data` throws) but a 404 on the
    article route (`json?.data` is `undefined`).
  */
  lemma NullBodyAsymmetry(st: CacheState, req: Request, id: string, now: int)
    requires ListHit(st, now).None? && ItemHit(st, id, now).None?
    ensures ListStep(st, now, Ok(Null)).response == Send(500, LIST_ERROR)
    ensures ArticleStep(st, req, id, now, Ok(Null)).response == Send(404, NOT_FOUND)
  {
  }

  /**
    On a consistent cache every article the detail route renders is truthy, hit
    or miss, so reading its `id` and other fields never meets `null`.
  */
  lemma RenderedArticleIsTruthy(st: CacheState, req: Request, id: string, now: int, upstream: Result<Value>)
    requires Consistent(st)
    ensures var r := ArticleStep(st, req, id, now, upstream).response;
      r.RenderArticle? ==> Truthy(Some(r.article))
  {
    if ItemHit(st, id, now).Some? {
      HitIsTruthy(st, id, now);
    }
  }

  /** Each route writes only its own part of the cache, and both keep every stored article truthy. */
  lemma StepsKeepCacheConsistent(st: CacheState, req: Request, id: string, now: int, upstream: Result<Value>)
    requires Consistent(st)
    ensures ListStep(st, now, upstream).cache.items == st.items
    ensures ArticleStep(st, req, id, now, upstream).cache.list == st.list
    ensures Consistent(ListStep(st, now, upstream).cache)
    ensures Consistent(ArticleStep(st, req, id, now, upstream).cache)
  {
  }
}

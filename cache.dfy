/**
  The in-memory cache shared by the two routes: one slot for the article list and
  one entry per article id, each stamped with the time it was fetched. An entry is
  fresh while fewer than `TTL_MS` milliseconds have passed since then.
*/
module Cache {
  import opened Wrappers
  import opened Json

  /** Time-to-live of every entry, in milliseconds. */
  const TTL_MS: int := 30 * 1000

  /** A cached value with the clock reading at which it was fetched. */
  datatype Entry<T> = Entry(data: T, ts: int)

  /** `now - ts < CACHE_TTL_MS`; a clock that went backwards leaves the entry fresh. */
  predicate Fresh<T>(e: Entry<T>, now: int) {
    now - e.ts < TTL_MS
  }

  /** The contents of the cache as a value. */
  datatype CacheState = CacheState(list: Option<Entry<seq<Value>>>, items: map<string, Entry<Value>>)

  /** The empty cache the server starts with. */
  const EMPTY: CacheState := CacheState(None, map[])

  /** Only truthy articles are stored per id: the detail route rules out the others before writing. */
  ghost predicate Consistent(st: CacheState) {
    forall id :: id in st.items ==> Truthy(Some(st.items[id].data))
  }

  /** The list the list route may serve without fetching, if any. */
  function ListHit(st: CacheState, now: int): Option<seq<Value>> {
    if st.list.Some? && Fresh(st.list.value, now) then Some(st.list.value.data) else None
  }

  /** The article the detail route may serve for `id` without fetching, if any. */
  function ItemHit(st: CacheState, id: string, now: int): Option<Value> {
    if id in st.items && Fresh(st.items[id], now) then Some(st.items[id].data) else None
  }

  /**
    A list stored at time `t` is served for every request with `now - t < TTL_MS`
    and for no later one; the per-id entries play no part.
  */
  lemma ListLifetime(st: CacheState, articles: seq<Value>, t: int, now: int)
    ensures ListHit(st.(list := Some(Entry(articles, t))), now)
            == if now - t < TTL_MS then Some(articles) else None
  {
  }

  /**
    An article stored for `id` at time `t` is served for `id` exactly while
    `now - t < TTL_MS`; every other id, and the list slot, answer as before.
  */
  lemma ItemLifetime(st: CacheState, id: string, article: Value, t: int, now: int)
    ensures var st' := st.(items := st.items[id := Entry(article, t)]);
      && ItemHit(st', id, now) == (if now - t < TTL_MS then Some(article) else None)
      && (forall other :: other != id ==> ItemHit(st', other, now) == ItemHit(st, other, now))
      && ListHit(st', now) == ListHit(st, now)
  {
  }

  /** On a consistent cache a hit never serves a falsy article. */
  lemma HitIsTruthy(st: CacheState, id: string, now: int)
    requires Consistent(st) && ItemHit(st, id, now).Some?
    ensures Truthy(ItemHit(st, id, now))
  {
  }

  /** The module-level `cache` object, updated in place by the routes. */
  class ArticleCache {
    var list: Option<Entry<seq<Value>>>
    var items: map<string, Entry<Value>>

    /** The contents of this cache. */
    function View(): CacheState
      reads this
    {
      CacheState(list, items)
    }

    ghost predicate Valid()
      reads this
    {
      Consistent(View())
    }

    /** `{ list: null, items: new Map() }`. */
    constructor ()
      ensures View() == EMPTY && Valid()
    {
      list := None;
      items := map[];
    }

    /** `cache.list = { data: articles, ts: now }`. */
    method SetList(articles: seq<Value>, now: int)
      requires Valid()
      modifies this
      ensures Valid()
      ensures View() == old(View()).(list := Some(Entry(articles, now)))
    {
      list := Some(Entry(articles, now));
    }

    /** `cache.items.set(id, { data: article, ts: now })`, for an article already known to be truthy. */
    method SetItem(id: string, article: Value, now: int)
      requires Valid() && Truthy(Some(article))
      modifies this
      ensures Valid()
      ensures View() == old(View()).(items := old(View()).items[id := Entry(article, now)])
    {
      items := items[id := Entry(article, now)];
    }
  }
}

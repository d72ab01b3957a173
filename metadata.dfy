/**
  The page metadata that `renderArticle` hands to the article template (title,
  description, image URL, canonical URL) and the base URL that
  `getServerBaseUrl` derives from the request headers.
*/
module Metadata {
  import opened Wrappers
  import opened Json
  import opened Sanitizer

  /** The upstream article API; images live under it at `/{id}/image`. */
  const API_BASE: string := "https://masailworld.onrender.com/api/article"
  /** A description derived from the body text is cut to this many characters. */
  const DESCRIPTION_LIMIT: nat := 160
  /** The title used when the article has none. */
  const DEFAULT_TITLE: string := "Article"

  /**
    The parts of an inbound request the metadata reads. A header is `None` when
    the request does not carry it; `protocol` is what the connection used.
  */
  datatype Request = Request(
    forwardedHost: Option<string>,
    host: Option<string>,
    forwardedProto: Option<string>,
    protocol: string)

  /** The Open Graph metadata of an article page. */
  datatype Meta = Meta(title: Value, description: Value, image: string, url: string)

  // ---------------------------------------------------------------------------
  // Base URL
  // ---------------------------------------------------------------------------

  /** `preferred || fallback` over header values: an absent or empty header falls through. */
  function HeaderOr(preferred: Option<string>, fallback: Option<string>): Option<string> {
    if preferred.Some? && preferred.value != "" then preferred else fallback
  }

  /** `${h}` for a header value read with `req.get`: `ToText` for a string or `undefined`. */
  function HeaderText(h: Option<string>): string {
    match h
    case None => "undefined"
    case Some(v) => v
  }

  /** A header is written out as `ToText` writes the same string as a JSON value. */
  lemma HeaderTextIsToText(h: Option<string>)
    ensures ToText(if h.Some? then Some(Str(h.value)) else None) == Ok(HeaderText(h))
  {
  }

  /** `x-forwarded-host`, else `Host`. */
  function HostOf(req: Request): string {
    HeaderText(HeaderOr(req.forwardedHost, req.host))
  }

  /** `x-forwarded-proto`, else the protocol of the connection. */
  function ProtoOf(req: Request): string {
    HeaderText(HeaderOr(req.forwardedProto, Some(req.protocol)))
  }

  /** `getServerBaseUrl(req)`: `{proto}://{host}`. */
  function BaseUrl(req: Request): string {
    ProtoOf(req) + "://" + HostOf(req)
  }

  /**
    The forwarded headers win whenever they are present and non-empty; the direct
    values are used otherwise, and a missing `Host` prints as `undefined`.
  */
  lemma BaseUrlPrefersForwarded(req: Request)
    ensures req.forwardedHost.Some? && req.forwardedHost.value != "" ==>
      HostOf(req) == req.forwardedHost.value
    ensures !(req.forwardedHost.Some? && req.forwardedHost.value != "") ==>
      HostOf(req) == (if req.host.Some? then req.host.value else "undefined")
    ensures ProtoOf(req) ==
      if req.forwardedProto.Some? && req.forwardedProto.value != "" then req.forwardedProto.value
      else req.protocol
  {
  }

  /** With both forwarded headers set, the direct host and protocol do not matter. */
  lemma BaseUrlIgnoresDirectValues(req: Request, host: Option<string>, protocol: string)
    requires req.forwardedHost.Some? && req.forwardedHost.value != ""
    requires req.forwardedProto.Some? && req.forwardedProto.value != ""
    ensures BaseUrl(req.(host := host, protocol := protocol)) == BaseUrl(req)
    ensures BaseUrl(req) == req.forwardedProto.value + "://" + req.forwardedHost.value
  {
  }

  // ---------------------------------------------------------------------------
  // Image and canonical URLs
  // ---------------------------------------------------------------------------

  /** `${article.id}`, which throws (`Err`) when the id has no text form. */
  function IdText(article: Value): Result<string> {
    ToText(Prop(article, "id"))
  }

  /** `{API_BASE}/{id}/image`. */
  function ImageUrl(id: string): string {
    API_BASE + "/" + id + "/image"
  }

  /** `{base}/pages/{id}`. */
  function PageUrl(base: string, id: string): string {
    base + "/pages/" + id
  }

  /** The id an image URL names, when the URL has the image shape. */
  function ImageId(url: string): (r: Option<string>)
    ensures r.Some? ==> |r.value| + |API_BASE| + 7 == |url|
  {
    var head := API_BASE + "/";
    var tail := "/image";
    if |url| >= |head| + |tail| && url[..|head|] == head && url[|url| - |tail|..] == tail
    then Some(url[|head|..|url| - |tail|])
    else None
  }

  /** The id a canonical URL names, for a given base URL. */
  function PageId(base: string, url: string): (r: Option<string>)
    ensures r.Some? ==> |base| + 7 + |r.value| == |url|
  {
    var head := base + "/pages/";
    if |url| >= |head| && url[..|head|] == head then Some(url[|head|..]) else None
  }

  /** The id can be read back from the image URL, so distinct ids give distinct images. */
  lemma ImageUrlRoundTrip(id: string)
    ensures ImageId(ImageUrl(id)) == Some(id)
  {
  }

  /** The id can be read back from the canonical URL, so distinct ids give distinct pages. */
  lemma PageUrlRoundTrip(base: string, id: string)
    ensures PageId(base, PageUrl(base, id)) == Some(id)
  {
  }

  lemma ImageUrlInjective(a: string, b: string)
    requires ImageUrl(a) == ImageUrl(b)
    ensures a == b
  {
    ImageUrlRoundTrip(a);
    ImageUrlRoundTrip(b);
  }

  lemma PageUrlInjective(base: string, a: string, b: string)
    requires PageUrl(base, a) == PageUrl(base, b)
    ensures a == b
  {
    PageUrlRoundTrip(base, a);
    PageUrlRoundTrip(base, b);
  }

  /** Two articles whose ids are different numbers get different image and page URLs. */
  lemma NumericIdsSeparateUrls(base: string, a: Value, b: Value)
    requires Prop(a, "id").Some? && Prop(a, "id").value.Num?
    requires Prop(b, "id").Some? && Prop(b, "id").value.Num?
    requires Prop(a, "id") != Prop(b, "id")
    ensures IdText(a).Ok? && IdText(b).Ok?
    ensures ImageUrl(IdText(a).value) != ImageUrl(IdText(b).value)
    ensures PageUrl(base, IdText(a).value) != PageUrl(base, IdText(b).value)
  {
    var ida, idb := IdText(a).value, IdText(b).value;
    if ida == idb {
      IntTextInjective(Prop(a, "id").value.n, Prop(b, "id").value.n);
      assert false;
    }
    if ImageUrl(ida) == ImageUrl(idb) {
      ImageUrlInjective(ida, idb);
      assert false;
    }
    if PageUrl(base, ida) == PageUrl(base, idb) {
      PageUrlInjective(base, ida, idb);
      assert false;
    }
  }

  // ---------------------------------------------------------------------------
  // Title and description
  // ---------------------------------------------------------------------------

  /** `article.Title || "Article"`. */
  function Title(article: Value): Value {
    var t := Prop(article, "Title");
    if Truthy(t) then t.value else Str(DEFAULT_TITLE)
  }

  /** The title is the article's own when it is truthy, the fallback otherwise, and never falsy. */
  lemma TitleRule(article: Value)
    ensures Truthy(Some(Title(article)))
    ensures Truthy(Prop(article, "Title")) ==> Title(article) == Prop(article, "Title").value
    ensures !Truthy(Prop(article, "Title")) ==> Title(article) == Str("Article")
  {
  }

  /** `s.slice(0, n)`. */
  function Take(s: string, n: nat): (r: string)
    ensures |r| <= n && |r| <= |s|
    ensures |r| == n || |r| == |s|
    ensures r == s[..|r|]
  {
    if |s| <= n then s else s[..n]
  }

  /**
    `article.seo || ""`; when that is falsy and `ArticleText` is truthy, the first
    160 characters of `stripHtml(ArticleText)`, which throws for a non-string.
  */
  function Description(article: Value): (r: Result<Value>)
    ensures r.Err? <==>
      !Truthy(Prop(article, "seo")) && Truthy(Prop(article, "ArticleText"))
      && !Prop(article, "ArticleText").value.Str?
  {
    var seo := Prop(article, "seo");
    if Truthy(seo) then Ok(seo.value)
    else
      var text := Prop(article, "ArticleText");
      if !Truthy(text) then Ok(Str(""))
      else match StripHtml(text)
        case Ok(plain) => Ok(Str(Take(plain, DESCRIPTION_LIMIT)))
        case Err => Err
  }

  /** A truthy `seo` is used as it is, however long. */
  lemma DescriptionPrefersSeo(article: Value)
    requires Truthy(Prop(article, "seo"))
    ensures Description(article) == Ok(Prop(article, "seo").value)
  {
  }

  /** Without `seo` or `ArticleText` the description is empty. */
  lemma DescriptionEmpty(article: Value)
    requires !Truthy(Prop(article, "seo")) && !Truthy(Prop(article, "ArticleText"))
    ensures Description(article) == Ok(Str(""))
  {
  }

  /**
    A description derived from the body text is the start of the stripped text:
    at most 160 characters (exactly 160 when the stripped text is that long), free
    of tags, and made only of characters of the body, in order.
  */
  lemma DescriptionFromBody(article: Value, text: string)
    requires !Truthy(Prop(article, "seo"))
    requires Prop(article, "ArticleText") == Some(Str(text)) && text != ""
    ensures Description(article).Ok? && Description(article).value.Str?
    ensures var d := Description(article).value.s;
      && d == StripTags(text)[..|d|]
      && |d| <= DESCRIPTION_LIMIT
      && (|StripTags(text)| >= DESCRIPTION_LIMIT ==> |d| == DESCRIPTION_LIMIT)
      && (|StripTags(text)| <= DESCRIPTION_LIMIT ==> d == StripTags(text))
      && TagFree(d)
      && IsSubsequence(d, text)
  {
    var plain := StripTags(text);
    var d := Take(plain, DESCRIPTION_LIMIT);
    assert Description(article) == Ok(Str(d));
    StripIsTagFree(text);
    PrefixTagFree(plain, |d|);
    StripIsSubsequence(text);
    PrefixOfSubsequence(plain, text, |d|);
  }

  /** `meta` in `renderArticle`; `Err` when writing out the id or computing the description throws. */
  function BuildMeta(req: Request, article: Value): (r: Result<Meta>)
    ensures r.Ok? <==> Description(article).Ok? && IdText(article).Ok?
  {
    match IdText(article)
    case Err => Err
    case Ok(id) =>
      match Description(article)
      case Err => Err
      case Ok(description) =>
        Ok(Meta(Title(article), description, ImageUrl(id), PageUrl(BaseUrl(req), id)))
  }

  /**
    An id that is an object with its own `toString` key, or an array holding one,
    cannot be written into the image URL, so no metadata is built.
  */
  lemma UnprintableIdFails(req: Request, article: Value, f: map<string, Value>)
    requires "toString" in f
    requires Prop(article, "id") == Some(Obj(f)) || Prop(article, "id") == Some(Arr([Obj(f)]))
    ensures IdText(article).Err? && BuildMeta(req, article).Err?
  {
    if Prop(article, "id") == Some(Arr([Obj(f)])) {
      ElemsTextFails([Obj(f)]);
    }
  }

  /**
    What the article page is rendered with: a title that is never falsy, and an
    image URL and a canonical URL from which the article id can be read back.
  */
  lemma MetaNamesArticle(req: Request, article: Value)
    requires BuildMeta(req, article).Ok?
    ensures var m := BuildMeta(req, article).value;
      && m.title == Title(article) && Truthy(Some(m.title))
      && m.description == Description(article).value
      && IdText(article).Ok?
      && ImageId(m.image) == Some(IdText(article).value)
      && PageId(BaseUrl(req), m.url) == Some(IdText(article).value)
  {
  }
}

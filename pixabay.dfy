/** The Pixabay analyzer of pixabay/analyzer.py: it maps the first search hit
    that has renditions to the three quality tiers. */
module Pixabay {
  import opened Common

  /** One rendition of a hit (`large`, `medium`, `small`, `tiny`); its `url`,
      `None` when missing. */
  datatype Rendition = Rendition(url: Option<string>)

  /** A search hit; its `videos` payload of renditions by name, `None` when
      missing. */
  datatype Hit = Hit(videos: Option<map<string, Rendition>>)

  function Payload(h: Hit): map<string, Rendition> {
    GetOr(h.videos, map[])
  }

  /** `if not pixabay_video_data: continue` skips a hit without renditions. */
  predicate HasPayload(h: Hit) {
    Payload(h) != map[]
  }

  /** `payload.get(name, {}).get("url")` */
  function RenditionUrl(payload: map<string, Rendition>, name: string): Option<string> {
    if name in payload then payload[name].url else None
  }

  /** The record handed to `_extract_video_urls` (:102-113): the large and
      medium renditions as download and standard, and the small rendition as
      preview, or the tiny one when the small one has no URL. */
  function ExtractionInput(payload: map<string, Rendition>): VideoData {
    VideoData(Some(map[
      "mp4_download" := RenditionUrl(payload, "large"),
      "mp4" := RenditionUrl(payload, "medium"),
      "mp4_preview" := Or(RenditionUrl(payload, "small"), RenditionUrl(payload, "tiny"))]))
  }

  function HitUrls(payload: map<string, Rendition>): Option<Tiers> {
    ExtractVideoUrls(ExtractionInput(payload))
  }

  /** A hit yields nothing exactly when none of its four renditions has a
      URL; otherwise large, medium and small-or-tiny become the three tiers
      as they are, and a tier without a rendition stays unset. */
  lemma HitUrlsTiers(payload: map<string, Rendition>)
    ensures var large, medium := RenditionUrl(payload, "large"), RenditionUrl(payload, "medium");
            var small, tiny := RenditionUrl(payload, "small"), RenditionUrl(payload, "tiny");
            && (HitUrls(payload).None? <==> !Truthy(large) && !Truthy(medium) && !Truthy(small) && !Truthy(tiny))
            && (HitUrls(payload).Some? ==>
                  && HitUrls(payload).value.highQuality == large
                  && HitUrls(payload).value.standard == medium
                  && (Truthy(small) ==> HitUrls(payload).value.preview == small)
                  && (!Truthy(small) ==> HitUrls(payload).value.preview == tiny))
  {
    var urls := ExtractionInput(payload).urls.value;
    assert "mp4" in urls;
    assert Lookup(urls, "mp4_download") == RenditionUrl(payload, "large");
    assert Lookup(urls, "mp4") == RenditionUrl(payload, "medium");
    assert Lookup(urls, "mp4_preview") == Or(RenditionUrl(payload, "small"), RenditionUrl(payload, "tiny"));
  }

  /** The first hit with renditions decides, even when it yields nothing;
      no such hit gives `None`. */
  function HitsUrls(hits: seq<Hit>): Option<Tiers> {
    match FirstWhere(hits, HasPayload)
    case Some(i) => HitUrls(Payload(hits[i]))
    case None => None
  }

  /** The loop over the hits (:94-118). */
  method FirstHitUrls(hits: seq<Hit>) returns (r: Option<Tiers>)
    ensures r == HitsUrls(hits)
  {
    for i := 0 to |hits|
      invariant forall k :: 0 <= k < i ==> !HasPayload(hits[k])
    {
      var payload := Payload(hits[i]);
      if payload == map[] {
        continue;
      }
      assert FirstWhere(hits, HasPayload) == Some(i);
      r := ExtractVideoUrls(ExtractionInput(payload));
      return;
    }
    assert FirstWhere(hits, HasPayload).None?;
    return None;
  }

  /** The video search call: it raised, or it answered; `hits` is `None`
      when the answer is empty or has no `hits` list. */
  datatype SearchResult = SearchRaised | Found(hits: Option<seq<Hit>>)

  /** `get_video_url` (:51-132). `queryFor` is the collaborator asked for a
      search query, `search` the video search; `query` is what was searched
      for, if anything. */
  method GetVideoUrl(quote: string, quoteType: Option<string>, queryFor: string -> Reply,
                     search: string -> SearchResult)
    returns (r: Option<Tiers>, query: Option<string>)
    ensures query == SearchQuery(queryFor(SearchContext(quote, quoteType)))
    ensures query.None? ==> r.None?
    ensures query.Some? ==> r == match search(query.value)
                                 case Found(Some(hits)) => HitsUrls(hits)
                                 case _ => None
    ensures r.Some? ==> AnyTruthy(r.value)
  {
    var context := SearchContext(quote, quoteType);
    query := SearchQuery(queryFor(context));
    if query.None? {
      return None, query;
    }
    var response := search(query.value);
    if response.SearchRaised? || response.hits.None? || response.hits.value == [] {
      return None, query;
    }
    r := FirstHitUrls(response.hits.value);
  }
}

/** Values shared by the three stock-footage analyzers, the quote API and the
    video generator: optional values, Python truthiness of optional strings,
    the three-tier URL candidate, first-match search, the outcome of a
    call to the text-generation collaborator and the search query the
    Pexels and Pixabay analyzers derive from it. */
module Common {
  import opened Text

  datatype Option<+T> = None | Some(value: T)

  /** `value or default` for an optional value. */
  function GetOr<T>(o: Option<T>, default: T): T {
    match o
    case Some(v) => v
    case None => default
  }

  /** Python truthiness of a JSON string field: present, not null, not empty. */
  predicate Truthy(v: Option<string>) {
    v.Some? && v.value != ""
  }

  /** Python's `a or b` on two optional strings. */
  function Or(a: Option<string>, b: Option<string>): (r: Option<string>)
    ensures Truthy(r) <==> Truthy(a) || Truthy(b)
    ensures Truthy(a) ==> r == a
    ensures !Truthy(a) ==> r == b
  {
    if Truthy(a) then a else b
  }

  /** `d.get(key)` on a JSON object whose values are strings or null;
      a missing key reads as null. */
  function Lookup(d: map<string, Option<string>>, key: string): Option<string> {
    if key in d then d[key] else None
  }

  /** One provider's offer of a clip at up to three quality tiers. */
  datatype Tiers = Tiers(highQuality: Option<string>, standard: Option<string>, preview: Option<string>)

  /** `any(urls.values())` */
  predicate AnyTruthy(t: Tiers) {
    Truthy(t.highQuality) || Truthy(t.standard) || Truthy(t.preview)
  }

  predicate AllTruthy(t: Tiers) {
    Truthy(t.highQuality) && Truthy(t.standard) && Truthy(t.preview)
  }

  /** The index of the first element satisfying `p`: what a `for` loop with an
      early `return` (or a `continue` past the others) settles on. */
  function FirstWhere<T>(s: seq<T>, p: T -> bool): (r: Option<nat>)
    ensures r.Some? ==> r.value < |s| && p(s[r.value])
    ensures r.Some? ==> forall j :: 0 <= j < r.value ==> !p(s[j])
    ensures r.None? <==> forall j :: 0 <= j < |s| ==> !p(s[j])
  {
    if s == [] then None
    else if p(s[0]) then Some(0)
    else match FirstWhere(s[1..], p)
      case None => None
      case Some(i) => Some(i + 1)
  }

  /** What a call to the text-generation collaborator produced: its reply
      text, its own error (GeminiAPIError), or any other exception. */
  datatype Reply = Answer(text: string) | ApiError | Unexpected

  /** A video record; its `urls` object, `None` when missing or null. */
  datatype VideoData = VideoData(urls: Option<map<string, Option<string>>>)

  /** `_extract_video_urls` of coverr/analyzer.py (:50-72) and
      pixabay/analyzer.py (:24-47), which behave identically although the two
      write the final test differently (`any` over the values, `any` over the
      values that are not `None`): `None` for a missing or empty `urls`
      object or when none of `mp4_download`, `mp4`, `mp4_preview` is
      truthy; otherwise those three, as high quality, standard and preview. */
  function ExtractVideoUrls(video: VideoData): (r: Option<Tiers>)
    ensures r.None? <==> video.urls.None? || video.urls.value == map[]
                         || !AnyTruthy(Tiers(Lookup(video.urls.value, "mp4_download"),
                                             Lookup(video.urls.value, "mp4"),
                                             Lookup(video.urls.value, "mp4_preview")))
    ensures r.Some? ==> && AnyTruthy(r.value)
                        && r.value.highQuality == Lookup(video.urls.value, "mp4_download")
                        && r.value.standard == Lookup(video.urls.value, "mp4")
                        && r.value.preview == Lookup(video.urls.value, "mp4_preview")
  {
    match video.urls
    case None => None
    case Some(urls) =>
      if urls == map[] then None
      else
        var extracted := Tiers(Lookup(urls, "mp4_download"), Lookup(urls, "mp4"), Lookup(urls, "mp4_preview"));
        if !AnyTruthy(extracted) then None else Some(extracted)
  }

  /** The context the collaborator of an analyzer is asked to turn into a search query. */
  function SearchContext(quote: string, quoteType: Option<string>): (r: string)
    ensures |quote| <= |r| && r[|r| - |quote|..] == quote
    ensures Truthy(quoteType) ==> StartsWith(r, quoteType.value + " quote: ")
                                  && |r| == |quoteType.value| + |" quote: "| + |quote|
    ensures !Truthy(quoteType) ==> r == quote
  {
    if Truthy(quoteType) then quoteType.value + " quote: " + quote else quote
  }

  /** The query the search runs with: the collaborator's answer, unless it
      failed or its answer is empty or only whitespace. */
  function SearchQuery(reply: Reply): (r: Option<string>)
    ensures r.Some? <==> reply.Answer? && Strip(reply.text) != ""
    ensures r.Some? ==> r.value == reply.text
  {
    if reply.Answer? && Strip(reply.text) != "" then Some(reply.text) else None
  }
}

/** The Pexels analyzer of pexels/analyzer.py: it picks the three quality
    tiers out of a hit's video files by quality and width, and walks the
    search hits to the first one that has files. */
module Pexels {
  import opened Common
  import opened Text

  /** One entry of a hit's `video_files`; a missing field is `None`. */
  datatype VideoFile = VideoFile(quality: Option<string>, link: Option<string>, width: Option<int>)

  /** `vf.get("width", 0)` */
  function Width(f: VideoFile): int {
    GetOr(f.width, 0)
  }

  /** `vf.get("quality") == q and vf.get("link") and vf.get("width")` */
  predicate Qualifies(f: VideoFile, q: string) {
    f.quality == Some(q) && Truthy(f.link) && f.width.Some? && f.width.value != 0
  }

  /** The list comprehension: the files of quality `q` with a link and a
      width, in their original order. */
  function Qualifying(files: seq<VideoFile>, q: string): (r: seq<VideoFile>)
    ensures forall f :: f in r ==> f in files && Qualifies(f, q)
    ensures forall f :: f in files && Qualifies(f, q) ==> f in r
  {
    if files == [] then []
    else (if Qualifies(files[0], q) then [files[0]] else []) + Qualifying(files[1..], q)
  }

  predicate SortedDesc(s: seq<VideoFile>) {
    forall i, j :: 0 <= i < j < |s| ==> Width(s[i]) >= Width(s[j])
  }

  /** Puts `x` into a list sorted widest first, ahead of the files no wider
      than it. */
  function Insert(x: VideoFile, t: seq<VideoFile>): (r: seq<VideoFile>)
    ensures multiset(r) == multiset(t) + multiset{x}
  {
    if t == [] || Width(t[0]) <= Width(x) then [x] + t
    else
      assert t == [t[0]] + t[1..];
      [t[0]] + Insert(x, t[1..])
  }

  lemma {:induction false} InsertSorted(x: VideoFile, t: seq<VideoFile>)
    requires SortedDesc(t)
    ensures SortedDesc(Insert(x, t))
  {
    if t != [] && Width(t[0]) > Width(x) {
      var rest := Insert(x, t[1..]);
      InsertSorted(x, t[1..]);
      forall y | y in rest
        ensures Width(y) <= Width(t[0])
      {
        assert y in multiset(rest);
        if y != x {
          assert y in multiset(t[1..]);
          var k :| 0 <= k < |t[1..]| && t[1..][k] == y;
          assert t[k + 1] == y;
        }
      }
      assert forall k :: 0 <= k < |rest| ==> rest[k] in rest;
    }
  }

  /** `sorted(..., key=width, reverse=True)` */
  function SortByWidthDesc(s: seq<VideoFile>): (r: seq<VideoFile>)
    ensures multiset(r) == multiset(s)
  {
    if s == [] then []
    else
      assert s == [s[0]] + s[1..];
      Insert(s[0], SortByWidthDesc(s[1..]))
  }

  lemma {:induction false} SortedByWidth(s: seq<VideoFile>)
    ensures SortedDesc(SortByWidthDesc(s))
  {
    if s != [] {
      SortedByWidth(s[1..]);
      InsertSorted(s[0], SortByWidthDesc(s[1..]));
    }
  }

  /** Sorting keeps the files, and orders them widest first. */
  lemma SortedKeepsFiles(s: seq<VideoFile>)
    ensures |SortByWidthDesc(s)| == |s|
    ensures forall f :: f in SortByWidthDesc(s) <==> f in s
    ensures SortedDesc(SortByWidthDesc(s))
  {
    SortedByWidth(s);
    var r := SortByWidthDesc(s);
    assert |multiset(r)| == |multiset(s)|;
    assert forall f :: f in r <==> f in multiset(r);
    assert forall f :: f in s <==> f in multiset(s);
  }

  /** The first file of the sorted list: `hd_videos[0]`. */
  function Widest(s: seq<VideoFile>): VideoFile
    requires s != []
  {
    SortedKeepsFiles(s);
    SortByWidthDesc(s)[0]
  }

  /** The last file of the sorted list: `hd_videos[-1]`. */
  function Narrowest(s: seq<VideoFile>): VideoFile
    requires s != []
  {
    SortedKeepsFiles(s);
    SortByWidthDesc(s)[|s| - 1]
  }

  /** The widest file is one of the files and no file is wider; the
      narrowest is one of the files and no file is narrower. */
  lemma WidestNarrowest(s: seq<VideoFile>)
    requires s != []
    ensures Widest(s) in s && Narrowest(s) in s
    ensures forall f :: f in s ==> Width(Narrowest(s)) <= Width(f) <= Width(Widest(s))
  {
    SortedKeepsFiles(s);
    var r := SortByWidthDesc(s);
    forall f | f in s
      ensures Width(r[|r| - 1]) <= Width(f) <= Width(r[0])
    {
      assert f in r;
      var k :| 0 <= k < |r| && r[k] == f;
    }
  }

  /** The tiers `_extract_video_urls_from_pexels_hit` settles on: with HD
      files, the widest and the narrowest HD link as high quality and
      standard; with only SD files, the widest SD link for both; as preview
      the narrowest SD link, or the narrowest HD link when there is no SD
      file; `None` when no file qualifies. */
  function TierUrls(files: seq<VideoFile>): Option<Tiers> {
    var hd := Qualifying(files, "hd");
    var sd := Qualifying(files, "sd");
    if hd == [] && sd == [] then None
    else Some(Tiers(
      if hd != [] then Widest(hd).link else Widest(sd).link,
      if hd != [] then Narrowest(hd).link else Widest(sd).link,
      if sd != [] then Narrowest(sd).link else Narrowest(hd).link))
  }

  /** The index of the last file no wider than `limit`. */
  function LastWithin(s: seq<VideoFile>, limit: int): (r: Option<nat>)
    ensures r.Some? ==> r.value < |s| && Width(s[r.value]) <= limit
    ensures r.Some? ==> forall k :: r.value < k < |s| ==> Width(s[k]) > limit
    ensures r.None? <==> forall k :: 0 <= k < |s| ==> Width(s[k]) > limit
  {
    if s == [] then None
    else if Width(s[|s| - 1]) <= limit then Some(|s| - 1)
    else LastWithin(s[..|s| - 1], limit)
  }

  /** In a list sorted widest first, the last file no wider than any limit,
      if there is one, is the last file. */
  lemma LastWithinSorted(s: seq<VideoFile>, limit: int)
    requires SortedDesc(s) && LastWithin(s, limit).Some?
    ensures LastWithin(s, limit) == Some(|s| - 1)
  {
    var k := LastWithin(s, limit).value;
    assert Width(s[|s| - 1]) <= Width(s[k]);
  }

  /** `next((vf["link"] for vf in reversed(files) if vf.get("width", 0) <=
      limit), None)` */
  method LinkWithin(files: seq<VideoFile>, limit: int) returns (link: Option<string>)
    ensures link == match LastWithin(files, limit)
                    case Some(k) => files[k].link
                    case None => None
  {
    var i := |files|;
    while i > 0
      invariant 0 <= i <= |files|
      invariant forall k :: i <= k < |files| ==> Width(files[k]) > limit
    {
      i := i - 1;
      if Width(files[i]) <= limit {
        return files[i].link;
      }
    }
    return None;
  }

  /** The standard-tier pick among the HD files, sorted widest first: the
      last one no wider than 1920, else the last (or only) one. */
  method StandardFromHd(hd: seq<VideoFile>) returns (standard: Option<string>)
    requires hd != [] && SortedDesc(hd)
    requires forall f :: f in hd ==> Truthy(f.link)
    ensures standard == hd[|hd| - 1].link
  {
    var standardHd := LinkWithin(hd, 1920);
    if LastWithin(hd, 1920).Some? {
      LastWithinSorted(hd, 1920);
    }
    assert hd[|hd| - 1] in hd;
    if Truthy(standardHd) {
      standard := standardHd;
    } else {
      standard := if |hd| > 1 then hd[|hd| - 1].link else hd[0].link;
    }
  }

  /** The fallback chain over the sorted HD and SD files (:35-73). */
  method TiersFromSorted(hd: seq<VideoFile>, sd: seq<VideoFile>) returns (r: Option<Tiers>)
    requires SortedDesc(hd)
    requires forall f :: f in hd ==> Truthy(f.link)
    requires forall f :: f in sd ==> Truthy(f.link)
    ensures hd == [] && sd == [] ==> r.None?
    ensures hd != [] ==> r == Some(Tiers(hd[0].link, hd[|hd| - 1].link,
                                         if sd != [] then sd[|sd| - 1].link else hd[|hd| - 1].link))
    ensures hd == [] && sd != [] ==> r == Some(Tiers(sd[0].link, sd[0].link, sd[|sd| - 1].link))
  {
    var highQuality: Option<string> := None;
    var standard: Option<string> := None;
    var preview: Option<string> := None;
    if |hd| > 0 {
      highQuality := hd[0].link;
    }
    if |hd| > 0 {
      standard := StandardFromHd(hd);
    }
    if !Truthy(standard) && |sd| > 0 {
      standard := sd[0].link;
    }
    if !Truthy(highQuality) && Truthy(standard) {
      highQuality := standard;
    }
    if |sd| > 0 {
      preview := sd[|sd| - 1].link;
    } else if |hd| > 0 {
      preview := hd[|hd| - 1].link;
    }
    assert hd != [] ==> hd[0] in hd && hd[|hd| - 1] in hd;
    assert sd != [] ==> sd[0] in sd && sd[|sd| - 1] in sd;
    if !Truthy(standard) {
      standard := Or(highQuality, preview);
    }
    if !Truthy(highQuality) {
      highQuality := standard;
    }
    var urls := Tiers(highQuality, standard, preview);
    if !AnyTruthy(urls) {
      return None;
    }
    return Some(urls);
  }

  /** `_extract_video_urls_from_pexels_hit` (:18-73): filters and sorts the
      HD and SD files, then fills the tiers through its chain of fallbacks. */
  method ExtractVideoUrlsFromHit(videoFiles: seq<VideoFile>) returns (r: Option<Tiers>)
    ensures r == TierUrls(videoFiles)
  {
    if |videoFiles| == 0 {
      return None;
    }
    var hd := SortByWidthDesc(Qualifying(videoFiles, "hd"));
    var sd := SortByWidthDesc(Qualifying(videoFiles, "sd"));
    SortedKeepsFiles(Qualifying(videoFiles, "hd"));
    SortedKeepsFiles(Qualifying(videoFiles, "sd"));
    r := TiersFromSorted(hd, sd);
  }

  /** No tier is missing from a result: all three links are set. The result
      is `None` exactly when no file is an HD or SD file with a link and a
      width (in particular for an empty list). */
  lemma TierUrlsComplete(files: seq<VideoFile>)
    ensures TierUrls(files).Some? ==> AllTruthy(TierUrls(files).value)
    ensures TierUrls(files).None? <==> forall f :: f in files ==> !Qualifies(f, "hd") && !Qualifies(f, "sd")
  {
    var hd := Qualifying(files, "hd");
    var sd := Qualifying(files, "sd");
    if hd != [] {
      WidestNarrowest(hd);
    }
    if sd != [] {
      WidestNarrowest(sd);
    }
    if hd == [] && sd == [] {
      assert forall f :: f in files ==> !Qualifies(f, "hd") && !Qualifies(f, "sd");
    } else if hd != [] {
      assert hd[0] in hd;
    } else {
      assert sd[0] in sd;
    }
  }

  /** Which file each tier comes from: with HD files, high quality is the
      link of a widest HD file and standard of a narrowest one; without, both
      are the link of a widest SD file; the preview is the link of a
      narrowest SD file, or of a narrowest HD file when there is no SD file. */
  lemma TierUrlsChoice(files: seq<VideoFile>)
    requires TierUrls(files).Some?
    ensures var t := TierUrls(files).value;
            var hd := Qualifying(files, "hd");
            var sd := Qualifying(files, "sd");
            && (hd != [] ==> exists f :: f in hd && t.highQuality == f.link
                                         && forall g :: g in hd ==> Width(g) <= Width(f))
            && (hd != [] ==> exists f :: f in hd && t.standard == f.link
                                         && forall g :: g in hd ==> Width(f) <= Width(g))
            && (hd == [] ==> t.highQuality == t.standard
                             && exists f :: f in sd && t.standard == f.link
                                            && forall g :: g in sd ==> Width(g) <= Width(f))
            && (sd != [] ==> exists f :: f in sd && t.preview == f.link
                                         && forall g :: g in sd ==> Width(f) <= Width(g))
            && (sd == [] ==> exists f :: f in hd && t.preview == f.link
                                         && forall g :: g in hd ==> Width(f) <= Width(g))
  {
    var hd := Qualifying(files, "hd");
    var sd := Qualifying(files, "sd");
    var t := TierUrls(files).value;
    if hd != [] {
      WidestNarrowest(hd);
      var w, n := Widest(hd), Narrowest(hd);
      assert w in hd && t.highQuality == w.link && forall g :: g in hd ==> Width(g) <= Width(w);
      assert n in hd && t.standard == n.link && forall g :: g in hd ==> Width(n) <= Width(g);
      if sd == [] {
        assert t.preview == n.link;
      }
    }
    if sd != [] {
      WidestNarrowest(sd);
      var w, n := Widest(sd), Narrowest(sd);
      assert n in sd && t.preview == n.link && forall g :: g in sd ==> Width(n) <= Width(g);
      if hd == [] {
        assert w in sd && t.standard == w.link && forall g :: g in sd ==> Width(g) <= Width(w);
      }
    }
  }

  // ---------------------------------------------------------------------
  // The search (`get_video_url`)
  // ---------------------------------------------------------------------

  /** A search hit; its `video_files`, `None` when missing. */
  datatype Hit = Hit(videoFiles: Option<seq<VideoFile>>)

  /** The video search call: it raised, or it answered; `videos` is `None`
      when the answer is empty or has no `videos` list. */
  datatype SearchResult = SearchRaised | Found(videos: Option<seq<Hit>>)

  function FilesOf(h: Hit): seq<VideoFile> {
    GetOr(h.videoFiles, [])
  }

  predicate HasFiles(h: Hit) {
    FilesOf(h) != []
  }

  /** The first hit with files decides, even when its files yield nothing;
      no such hit gives `None`. */
  function HitsUrls(hits: seq<Hit>): Option<Tiers> {
    match FirstWhere(hits, HasFiles)
    case Some(i) => TierUrls(FilesOf(hits[i]))
    case None => None
  }

  /** The loop over the hits (:119-134): skips hits without files and
      returns what the first other hit yields. */
  method FirstHitUrls(hits: seq<Hit>) returns (r: Option<Tiers>)
    ensures r == HitsUrls(hits)
  {
    for i := 0 to |hits|
      invariant forall k :: 0 <= k < i ==> !HasFiles(hits[k])
    {
      if !HasFiles(hits[i]) {
        continue;
      }
      assert FirstWhere(hits, HasFiles) == Some(i);
      r := ExtractVideoUrlsFromHit(FilesOf(hits[i]));
      return;
    }
    assert FirstWhere(hits, HasFiles).None?;
    return None;
  }

  /** `get_video_url` (:75-140). `queryFor` is the collaborator asked for a
      search query, `search` the video search; `query` is what was searched
      for, if anything. */
  method GetVideoUrl(quote: string, quoteType: Option<string>, queryFor: string -> Reply,
                     search: string -> SearchResult)
    returns (r: Option<Tiers>, query: Option<string>)
    ensures query == SearchQuery(queryFor(SearchContext(quote, quoteType)))
    ensures query.None? ==> r.None?
    ensures query.Some? ==> r == match search(query.value)
                                 case Found(Some(videos)) => HitsUrls(videos)
                                 case _ => None
    ensures r.Some? ==> AllTruthy(r.value)
  {
    var context := SearchContext(quote, quoteType);
    query := SearchQuery(queryFor(context));
    if query.None? {
      return None, query;
    }
    var response := search(query.value);
    if response.SearchRaised? || response.videos.None? || response.videos.value == [] {
      return None, query;
    }
    r := FirstHitUrls(response.videos.value);
    match FirstWhere(response.videos.value, HasFiles)
    case Some(i) => TierUrlsComplete(FilesOf(response.videos.value[i]));
    case None =>
  }
}

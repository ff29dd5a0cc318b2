/** The Coverr analyzer of coverr/analyzer.py: it flattens the two-level
    category taxonomy, asks the text-generation collaborator to name a
    category, resolves that name to a category id, fetches the category's
    videos and picks one of them at random. */
module Coverr {
  import opened Common
  import opened Text

  /** A category as the listing returns it; a missing field is `None`. */
  datatype RawCategory = RawCategory(
    name: Option<string>, tags: Option<seq<string>>, id: Option<string>,
    subcategories: Option<seq<RawCategory>>)

  /** The minimal record the analyzer keeps of a category. */
  datatype Category = Category(name: string, tags: seq<string>, id: string)

  /** `_extract_minimal_info`: a missing name, tag list or id reads as "",
      [] and "". */
  function ExtractMinimalInfo(c: RawCategory): (r: Category)
    ensures c.name.Some? ==> r.name == c.name.value
    ensures c.name.None? ==> r.name == ""
    ensures c.tags.Some? ==> r.tags == c.tags.value
    ensures c.tags.None? ==> r.tags == []
    ensures c.id.Some? ==> r.id == c.id.value
    ensures c.id.None? ==> r.id == ""
  {
    Category(GetOr(c.name, ""), GetOr(c.tags, []), GetOr(c.id, ""))
  }

  /** `category.get("subcategories", [])`; a JSON `null` reads like a
      missing field. */
  function Subcategories(c: RawCategory): seq<RawCategory> {
    GetOr(c.subcategories, [])
  }

  /** The records of a list of categories, in order. */
  function MinimalAll(cs: seq<RawCategory>): (r: seq<Category>)
    ensures |r| == |cs|
    ensures forall k :: 0 <= k < |cs| ==> r[k] == ExtractMinimalInfo(cs[k])
  {
    if cs == [] then [] else MinimalAll(cs[..|cs| - 1]) + [ExtractMinimalInfo(cs[|cs| - 1])]
  }

  /** What one top-level category contributes: its record, then those of its
      direct subcategories. */
  function Entry(c: RawCategory): seq<Category> {
    [ExtractMinimalInfo(c)] + MinimalAll(Subcategories(c))
  }

  /** The flattened taxonomy. */
  function Flatten(cs: seq<RawCategory>): seq<Category> {
    if cs == [] then [] else Flatten(cs[..|cs| - 1]) + Entry(cs[|cs| - 1])
  }

  /** `_extract_category_info` (:31-48): appends each category's record and
      then its subcategories' records. */
  method ExtractCategoryInfo(categories: seq<RawCategory>) returns (processed: seq<Category>)
    ensures processed == Flatten(categories)
  {
    processed := [];
    for i := 0 to |categories|
      invariant processed == Flatten(categories[..i])
    {
      assert categories[..i + 1][..i] == categories[..i];
      processed := processed + [ExtractMinimalInfo(categories[i])];
      var subs := Subcategories(categories[i]);
      for j := 0 to |subs|
        invariant processed == Flatten(categories[..i]) + [ExtractMinimalInfo(categories[i])] + MinimalAll(subs[..j])
      {
        assert subs[..j + 1][..j] == subs[..j];
        processed := processed + [ExtractMinimalInfo(subs[j])];
      }
      assert subs[..|subs|] == subs;
    }
    assert categories[..|categories|] == categories;
  }

  /** The number of records: one per top-level category plus one per direct
      subcategory. */
  function Count(cs: seq<RawCategory>): nat {
    if cs == [] then 0 else Count(cs[..|cs| - 1]) + 1 + |Subcategories(cs[|cs| - 1])|
  }

  lemma {:induction false} FlattenLength(cs: seq<RawCategory>)
    ensures |Flatten(cs)| == Count(cs)
  {
    if cs != [] {
      FlattenLength(cs[..|cs| - 1]);
    }
  }

  /** Flattening a prefix gives a prefix of the flattening. */
  lemma {:induction false} FlattenPrefix(cs: seq<RawCategory>, i: nat)
    requires i <= |cs|
    ensures Flatten(cs[..i]) <= Flatten(cs)
    decreases |cs| - i
  {
    if i < |cs| {
      FlattenPrefix(cs, i + 1);
      assert cs[..i + 1][..i] == cs[..i];
    } else {
      assert cs[..i] == cs;
    }
  }

  /** The i-th category's entry follows the entries of the categories before
      it. */
  lemma {:induction false} FlattenEntry(cs: seq<RawCategory>, i: nat)
    requires i < |cs|
    ensures Flatten(cs[..i]) + Entry(cs[i]) <= Flatten(cs)
  {
    var init := cs[..|cs| - 1];
    if i < |init| {
      FlattenEntry(init, i);
      assert init[..i] == cs[..i] && init[i] == cs[i];
    } else {
      assert init == cs[..i];
    }
  }

  /** Order is kept and each category is immediately followed by its direct
      subcategories: the i-th category's record sits right after the records
      of the categories before it, and its subcategories' records follow. */
  lemma FlattenAt(cs: seq<RawCategory>, i: nat)
    requires i < |cs|
    ensures |Flatten(cs[..i])| + 1 + |Subcategories(cs[i])| <= |Flatten(cs)|
    ensures Flatten(cs)[|Flatten(cs[..i])|] == ExtractMinimalInfo(cs[i])
    ensures forall k :: |Flatten(cs[..i])| < k <= |Flatten(cs[..i])| + |Subcategories(cs[i])| ==>
              Flatten(cs)[k] == ExtractMinimalInfo(Subcategories(cs[i])[k - |Flatten(cs[..i])| - 1])
  {
    FlattenEntry(cs, i);
    EntryInside(Flatten(cs[..i]), cs[i], Flatten(cs));
  }

  /** A category's entry inside a longer list of records: its record, then
      its subcategories' records. */
  lemma EntryInside(before: seq<Category>, c: RawCategory, all: seq<Category>)
    requires before + Entry(c) <= all
    ensures |before| + 1 + |Subcategories(c)| <= |all|
    ensures all[|before|] == ExtractMinimalInfo(c)
    ensures forall k :: |before| < k <= |before| + |Subcategories(c)| ==>
              all[k] == ExtractMinimalInfo(Subcategories(c)[k - |before| - 1])
  {
    var entry := Entry(c);
    var subs := Subcategories(c);
    InsidePrefix(before, entry, all);
    assert all[|before| + 0] == entry[0];
    forall k | |before| < k <= |before| + |subs|
      ensures all[k] == ExtractMinimalInfo(subs[k - |before| - 1])
    {
      var j := k - |before| - 1;
      assert all[|before| + (1 + j)] == entry[1 + j];
      assert entry[1 + j] == MinimalAll(subs)[j];
    }
  }

  lemma InsidePrefix<T>(a: seq<T>, b: seq<T>, c: seq<T>)
    requires a + b <= c
    ensures |a| + |b| <= |c|
    ensures forall k :: 0 <= k < |b| ==> c[|a| + k] == b[k]
  {
    assert forall k :: 0 <= k < |b| ==> (a + b)[|a| + k] == b[k];
  }

  // ---------------------------------------------------------------------
  // Resolving a name (`_find_matching_category`)
  // ---------------------------------------------------------------------

  /** `matched_name in cat['name'].lower() or any(matched_name in
      tag.lower() for tag in cat['tags'])` */
  predicate PartialMatch(needle: string, c: Category) {
    Contains(Lower(c.name), needle) || exists t :: t in c.tags && Contains(Lower(t), needle)
  }

  predicate ExactMatch(needle: string, c: Category) {
    Lower(c.name) == needle
  }

  /** The id `_find_matching_category` resolves a name to: the first category
      whose lowered name equals the lowered, stripped name; failing that, the
      first whose lowered name or a lowered tag contains it. */
  function MatchCategory(name: string, cs: seq<Category>): Option<string> {
    var needle := Strip(Lower(name));
    match FirstWhere(cs, c => ExactMatch(needle, c))
    case Some(i) => Some(cs[i].id)
    case None =>
      match FirstWhere(cs, c => PartialMatch(needle, c))
      case Some(i) => Some(cs[i].id)
      case None => None
  }

  /** `_find_matching_category` (:86-100): two passes, each returning at the
      first hit. */
  method FindMatchingCategory(matchedName: string, categories: seq<Category>) returns (r: Option<string>)
    ensures r == MatchCategory(matchedName, categories)
  {
    var needle := Strip(Lower(matchedName));
    for i := 0 to |categories|
      invariant forall k :: 0 <= k < i ==> !ExactMatch(needle, categories[k])
    {
      if Lower(categories[i].name) == needle {
        return Some(categories[i].id);
      }
    }
    for i := 0 to |categories|
      invariant forall k :: 0 <= k < i ==> !PartialMatch(needle, categories[k])
    {
      var c := categories[i];
      var hit := Contains(Lower(c.name), needle);
      for j := 0 to |c.tags|
        invariant hit <==> Contains(Lower(c.name), needle) || exists t :: t in c.tags[..j] && Contains(Lower(t), needle)
      {
        assert forall t :: t in c.tags[..j + 1] <==> t in c.tags[..j] || t == c.tags[j];
        hit := hit || Contains(Lower(c.tags[j]), needle);
      }
      assert c.tags[..|c.tags|] == c.tags;
      if hit {
        return Some(c.id);
      }
    }
    return None;
  }

  /** A name equal to a category's (ignoring ASCII case and surrounding
      whitespace) also matches it partially: the second pass is only reached
      when the first found nothing, and then nothing is found at all exactly
      when no category matches even partially. */
  lemma ExactIsPartial(needle: string, c: Category)
    requires ExactMatch(needle, c)
    ensures PartialMatch(needle, c)
  {
    assert OccursAt(Lower(c.name), needle, 0);
  }

  /** The resolved id belongs to one of the categories; an exact match wins
      over any earlier partial one; no id is resolved exactly when no
      category matches even partially. */
  lemma MatchCategoryProperties(name: string, cs: seq<Category>)
    ensures var needle := Strip(Lower(name));
            && (MatchCategory(name, cs).Some? ==> exists i :: 0 <= i < |cs| && cs[i].id == MatchCategory(name, cs).value)
            && (MatchCategory(name, cs).None? <==> forall i :: 0 <= i < |cs| ==> !PartialMatch(needle, cs[i]))
            && (forall i :: 0 <= i < |cs| && ExactMatch(needle, cs[i])
                  && (forall j :: 0 <= j < i ==> !ExactMatch(needle, cs[j]))
                  ==> MatchCategory(name, cs) == Some(cs[i].id))
  {
    var needle := Strip(Lower(name));
    match FirstWhere(cs, c => ExactMatch(needle, c))
    case Some(i) =>
      ExactIsPartial(needle, cs[i]);
    case None =>
  }

  // ---------------------------------------------------------------------
  // Videos
  // ---------------------------------------------------------------------

  /** The category listing call: it raised, or it answered with a `hits`
      list (`None` when the key is missing). */
  datatype CategoryListing = ListingRaised | Categories(hits: Option<seq<RawCategory>>)

  /** A category's videos call: it raised, or it answered; `hits` is `None`
      when the answer is empty or has no `hits` key. */
  datatype VideoListing = VideosRaised | Videos(hits: Option<seq<VideoData>>)

  /** `_get_category_videos` (:74-84): the hits, or `None` when the call
      raised or there are none. */
  function GetCategoryVideos(listing: VideoListing): (r: Option<seq<VideoData>>)
    ensures r.Some? ==> listing.Videos? && listing.hits == r && |r.value| > 0
    ensures r.None? <==> listing.VideosRaised? || listing.hits.None? || listing.hits.value == []
  {
    if listing.VideosRaised? || listing.hits.None? || listing.hits.value == [] then None
    else listing.hits
  }

  /** The category id a run resolves: the collaborator's answer must be
      non-empty, and a resolved empty id counts as none. */
  function ResolvedId(categories: seq<Category>, reply: Reply): Option<string> {
    if reply.Answer? && reply.text != "" then
      match MatchCategory(reply.text, categories)
      case Some(id) => if id != "" then Some(id) else None
      case None => None
    else None
  }

  /** `get_video_url` (:102-149). `listing` is the category listing,
      `reply` the collaborator's answer to the category prompt, `videosFor`
      the videos call; `fetched` is the category whose videos were
      requested, if any. */
  method GetVideoUrl(listing: CategoryListing, reply: Reply, videosFor: string -> VideoListing)
    returns (r: Option<Tiers>, fetched: Option<string>)
    ensures listing.ListingRaised? ==> r.None? && fetched.None?
    ensures listing.Categories? ==>
              fetched == ResolvedId(Flatten(GetOr(listing.hits, [])), reply)
    ensures r.Some? ==> fetched.Some? && AnyTruthy(r.value)
    ensures fetched.Some? && GetCategoryVideos(videosFor(fetched.value)).Some? ==>
              var hits := GetCategoryVideos(videosFor(fetched.value)).value;
              exists k :: 0 <= k < |hits| && r == ExtractVideoUrls(hits[k])
    ensures fetched.Some? && GetCategoryVideos(videosFor(fetched.value)).None? ==> r.None?
  {
    r, fetched := None, None;
    if listing.ListingRaised? {
      return;
    }
    var processed := ExtractCategoryInfo(GetOr(listing.hits, []));
    if !(reply.Answer? && reply.text != "") {
      return;
    }
    var categoryId := FindMatchingCategory(reply.text, processed);
    if categoryId.None? || categoryId.value == "" {
      return;
    }
    fetched := categoryId;
    var videos := GetCategoryVideos(videosFor(categoryId.value));
    if videos.None? {
      return;
    }
    var k :| 0 <= k < |videos.value|;
    r := ExtractVideoUrls(videos.value[k]);
  }
}

# QuoteReels core, modelled in Dafny

QuoteReels turns a quote into a short portrait video ("reel"). The quote
API asks a text-generation collaborator for a quote on a topic and reads the
`Quote:` and `Author:` lines out of its reply. One of three stock-footage
analyzers (Coverr, Pexels, Pixabay) picks a background clip and offers it
at up to three quality tiers (`high_quality`, `standard`, `preview`). The
video generator downloads the clip and letterboxes it onto a 1080×1920
canvas. It loops or cuts the clip to 15 seconds, overlays the caption and
encodes the reel. In a `finally` it then closes its clips and deletes the
download.

The project has seven modules:

- `Common` (common.dfy): optional values and Python truthiness. It also holds the
  three-tier URL record, first-match search and the outcome of a collaborator
  call, plus `_extract_video_urls`, whose Coverr and Pixabay versions
  behave identically: they differ only in how they write the test that
  some URL is truthy. The search query the Pexels and Pixabay analyzers derive is here too.
- `Text` (text.dfy): the Python string operations the core uses:
  `lower`, `strip`, `startswith`, `in` and `split`.
- `Quotes` (quotes.dfy): topic choice, the reply parser (a loop with
  last-wins semantics) and the result records of api/quotes.py.
- `Coverr` (coverr.dfy): taxonomy flattening (nested loops), name
  resolution (two early-return loops) and the `get_video_url` control flow.
- `Pexels` (pexels.dfy): the tier extractor. It filters and sorts the files,
  then applies its chain of fallbacks, and it walks the hits to the first one
  that has files.
- `Pixabay` (pixabay.dfy): the rendition-to-tier mapping with its small→tiny
  preview fallback, and the walk to the first hit that has a payload.
- `VideoGen` (video_generator.dfy) has two parts:
  - The size, duration and caption decisions are pure functions over a
    `Scene` value that describes each clip the media library builds.
  - `generate_video` is a class `VideoGenerator` over a `Host`. The host
    holds the files on disk, the open clip handles and the files the process
    may not delete. Its methods open clips, reassign variables, close clips
    and delete files step by step, as the source does.

Everything outside the process is a parameter:

- the collaborator's reply (an answer, its own error, or any other exception);
- the provider search results;
- the download outcome;
- the decoded clip's size and duration;
- which media-library call raises, if the run reaches it;
- the clock's whole seconds used in file names;
- the index `random.choice` draws.

Some clips are never closed. `generate_video` reassigns `video` and so drops
the decoded clip and the letterboxed clip. `_resize_video` drops its cut copy
and its black canvas. These stay open after the `finally`, which only closes
what the four variables still hold. A call that raises part-way through
`_resize_video` or the loop-or-cut step also drops what that step had
opened so far: the cut copy, the canvas, the resized picture or the
concatenation. The model reports the dropped clips as the ghost result
`leaked`, and `Leaked` states them for every clip and every failing call.

## Model

| member | source | states |
|---|---|---|
| Common.ExtractVideoUrls | coverr/analyzer.py:50-72 | `None` exactly when `urls` is missing or empty or none of `mp4_download`, `mp4`, `mp4_preview` is truthy; otherwise those three as high quality, standard and preview, one to one, at least one truthy; pixabay/analyzer.py:24-47 is the same function |
| Common.SearchContext | pexels/analyzer.py:93 | the context ends with the quote; with a truthy type it starts with `"<type> quote: "`, otherwise it is the bare quote |
| Common.SearchQuery | pexels/analyzer.py:94-98 | a search runs exactly when the collaborator answered with text that is not empty or whitespace only, and it searches for that text |
| Text.Strip | api/quotes.py:102 | `strip` result: neither end is whitespace, it is a contiguous middle part of the text, and everything cut off is whitespace |
| Text.SplitJoin | api/quotes.py:102 | splitting on `\n` a text joined from pieces without `\n` gives back the pieces |
| Text.JoinSplit | api/quotes.py:102 | joining the pieces of `split('\n')` gives back the text |
| Quotes.LastKeyLine | api/quotes.py:103-108 | the line that decides a key is the last line carrying it; `None` exactly when no line carries it |
| Quotes.LastValueStep | api/quotes.py:103-108 | reading one more line changes the value only if that line carries the key (later lines override earlier ones) |
| Quotes.KeysExclusive | api/quotes.py:105-108 | no line carries both `quote:` and `author:`, so the `elif` never hides an author line |
| Quotes.ParseReply | api/quotes.py:98-108 | quote and author are the stripped rests of the last `quote:` / `author:` lines of the stripped reply, or the fixed defaults when there is none |
| Quotes.IndentedLineIgnored | api/quotes.py:102-107 | a line that begins with whitespace is never recognised as a key line |
| Quotes.QuoteLine | api/quotes.py:105-106 | `Quote: q` carries the quote key with value `strip(q)` |
| Quotes.AuthorLine | api/quotes.py:107-108 | `Author: a` carries the author key with value `strip(a)` and not the quote key |
| Quotes.FormattedReplyRoundTrip | api/quotes.py:88-108 | a reply in the format the prompt asks for parses back to its quote and author, stripped, for any quote and author free of line breaks |
| Quotes.ErrorQuoteNamesTopic | api/quotes.py:116-122 | the error quote contains the topic |
| Quotes.ChooseTopic | api/quotes.py:80-83 | a truthy type is the topic; otherwise the topic is one of the ten quote types |
| Quotes.GenerateQuote | api/quotes.py:59-129 | without a client: the fixed failure quote, author `System`, type `quote_type or "error"`; otherwise the type is the topic, and the quote and author come from the parsed reply, or are the named-topic error quote / the unexpected-error quote with author `System` |
| Quotes.GetRandomQuote | api/quotes.py:36-57 | the returned type is always the chosen topic (the caller's type, or one of the ten), client or no client; quote and author as for `generate_quote_with_gemini` |
| Coverr.ExtractMinimalInfo | coverr/analyzer.py:23-29 | a missing name, tag list or id reads as `""`, `[]`, `""`; present ones are kept |
| Coverr.ExtractCategoryInfo | coverr/analyzer.py:31-48 | the nested loops produce the flattened taxonomy: each category's record followed by its direct subcategories' records |
| Coverr.FlattenLength | coverr/analyzer.py:31-48 | the number of records is the number of categories plus the number of their direct subcategories (deeper levels are not flattened) |
| Coverr.FlattenPrefix | coverr/analyzer.py:36-46 | flattening a prefix of the categories gives a prefix of the result: order is kept |
| Coverr.FlattenAt | coverr/analyzer.py:31-48 | the i-th category's record sits right after the records of the categories before it, immediately followed by its subcategories' records in order |
| Coverr.FindMatchingCategory | coverr/analyzer.py:86-100 | the two early-return loops resolve the name as `MatchCategory`: first exact lowered name, then first substring match in name or tags |
| Coverr.MatchCategoryProperties | coverr/analyzer.py:86-100 | a resolved id is the id of some listed category; the first exact match wins even over an earlier substring match; nothing resolves exactly when no category matches even partially |
| Coverr.ExactIsPartial | coverr/analyzer.py:88-100 | an exact name match is also a substring match |
| Coverr.GetCategoryVideos | coverr/analyzer.py:74-84 | the hits, or `None` exactly when the call raised or there are no hits |
| Coverr.GetVideoUrl | coverr/analyzer.py:102-149 | `None` when the listing raised; videos are fetched only for the id resolved from a non-empty answer; when that category lists hits, the result is the extraction of one of them, and a result always has a truthy tier; no hits gives `None` |
| Pexels.Qualifying | pexels/analyzer.py:31-32 | exactly the files of the quality with a truthy link and width are kept |
| Pexels.SortByWidthDesc | pexels/analyzer.py:31-32 | the sort is a permutation of its input |
| Pexels.SortedByWidth | pexels/analyzer.py:31-32 | the sort orders the files widest first |
| Pexels.SortedKeepsFiles | pexels/analyzer.py:31-32 | the sorted list has the same length and the same files, widest first |
| Pexels.WidestNarrowest | pexels/analyzer.py:35-59 | `hd_videos[0]` / `[-1]` are files of the list with no wider / no narrower file in it |
| Pexels.LastWithin | pexels/analyzer.py:42 | the index of the last file no wider than the limit; `None` exactly when every file is wider |
| Pexels.LastWithinSorted | pexels/analyzer.py:40-46 | in a list sorted widest first, the `<= 1920` search finds the last file whenever it finds one, so both standard branches pick `hd_videos[-1]` |
| Pexels.LinkWithin | pexels/analyzer.py:42 | the `next(... reversed ...)` loop yields the link of the last file no wider than the limit, or `None` |
| Pexels.StandardFromHd | pexels/analyzer.py:40-46 | the standard tier taken from HD files is the narrowest HD file's link |
| Pexels.TiersFromSorted | pexels/analyzer.py:35-73 | the fallback chain gives: with HD files, widest HD / narrowest HD / narrowest SD (else narrowest HD); with only SD files, widest SD twice and the narrowest SD; with neither, `None` |
| Pexels.ExtractVideoUrlsFromHit | pexels/analyzer.py:18-73 | the extraction equals the reference `TierUrls` of the files |
| Pexels.TierUrlsComplete | pexels/analyzer.py:61-73 | a result has all three tiers set; the result is `None` exactly when no file is a qualifying HD or SD file (so also for an empty list) |
| Pexels.TierUrlsChoice | pexels/analyzer.py:35-59 | high quality is a widest HD link and standard a narrowest HD link; without HD both are a widest SD link; preview is a narrowest SD link, else a narrowest HD link |
| Pexels.FirstHitUrls | pexels/analyzer.py:119-134 | the result is the extraction of the first hit with non-empty files, even when that is `None`; `None` when no hit has files |
| Pexels.GetVideoUrl | pexels/analyzer.py:75-140 | no search without a usable query; `None` when the search raised or found no videos; otherwise the first usable hit's extraction, all three tiers set |
| Pixabay.HitUrlsTiers | pixabay/analyzer.py:102-113 | a hit yields `None` exactly when none of large, medium, small, tiny has a URL; otherwise large and medium are high quality and standard, the preview is small if truthy else tiny, and a missing tier stays unset |
| Pixabay.FirstHitUrls | pixabay/analyzer.py:94-118 | hits without a payload are skipped; the first hit with one decides, even when it yields `None` |
| Pixabay.GetVideoUrl | pixabay/analyzer.py:51-132 | no search without a usable query; `None` when the search raised or found no hits; otherwise the first payload's tiers, at least one truthy |
| VideoGen.ScaledSizeWide | services/video_generator.py:121-130 | a wider clip takes the target width and the floor of the aspect-preserving height, which fits the target height |
| VideoGen.ScaledSizeTall | services/video_generator.py:131-140 | any other clip takes the target height and the floor of the aspect-preserving width, which fits the target width |
| VideoGen.ScaledSizeSameAspect | services/video_generator.py:131-135 | a clip with the target's aspect ratio is scaled to exactly the target size |
| VideoGen.LetterboxShape | services/video_generator.py:104-152 | the letterboxed clip has the target frame and a black canvas of exactly the target size that lasts as long as the picture; its length is the clip's, capped at the target duration |
| VideoGen.RepetitionsBounds | services/video_generator.py:205-214 | `int(T/d)+1` copies are at least two and together longer than `T`, and one copy fewer would not be |
| VideoGen.RepetitionsExample | services/video_generator.py:205 | illustration only: a 5-second clip is repeated 4 times for 15 seconds (`RepetitionsBounds` states the general fact) |
| VideoGen.RetimeExact | services/video_generator.py:200-221 | the looped-or-cut clip lasts exactly the target duration, every cut stays within its clip, and the frame is kept |
| VideoGen.CaptionRoundTrip | services/video_generator.py:47 | the caption gives back its quote and author when the quote has no `"` of its own |
| VideoGen.RenderShape | services/video_generator.py:196-230 | the reel has the target frame and lasts exactly the target duration; its caption shows the quote and author for the whole reel, in a box the frame width less 100 |
| VideoGen.LeakedNoArea | services/video_generator.py:107-112 | a clip with no area raises at its ratio, after the cut: only the cut copy of a long clip stays open |
| VideoGen.LeakedOnSuccess | services/video_generator.py:162-275 | a run that completes leaves exactly the decoded clip, the cut copy of a long clip, the canvas and the letterboxed clip open |
| VideoGen.LeakedBounds | services/video_generator.py:166-196 | the preview is never left open, and a run whose preview or decode raises leaves nothing open |
| VideoGen.VideoGenerator.CleanupTempFiles | services/video_generator.py:95-102 | exactly the listed files the process may delete are gone; missing files and refused deletions are skipped |
| VideoGen.VideoGenerator.ReleaseClips | services/video_generator.py:265-272 | every clip the variables hold is closed and nothing else changes |
| VideoGen.VideoGenerator.CreateTextClip | services/video_generator.py:45-66 | a new open caption clip with the formatted text, the font settings, wrap width 980 and the given duration |
| VideoGen.VideoGenerator.ResizeVideo | services/video_generator.py:104-152 | the letterboxed clip exactly when no call raises, the cut raising only for a long clip and the ratio for a clip with no area; the clips left open are exactly `ResizeDropped`: the cut copy and the canvas once made, and the resized picture when the composite raises; on success the resized picture is closed and the result is the third or fourth handle opened |
| VideoGen.VideoGenerator.RetimeClip | services/video_generator.py:199-221 | the looped-or-cut scene exactly when neither the concatenation of a short clip nor the cut raises; the concatenation is closed on success and left open exactly when the cut after it raises |
| VideoGen.VideoGenerator.PrepareClip | services/video_generator.py:166-197 | the preview is opened and closed; the letterboxed clip exists exactly when neither decode raises and `_resize_video` does not raise; only `video` holds a clip afterwards; the clips dropped are exactly what `_resize_video` left open, plus the decoded clip once `video` is reassigned |
| VideoGen.VideoGenerator.FinishReel | services/video_generator.py:199-257 | the reel file is written, holding the rendered scene at 30 fps, exactly when the clip has a length and no reached call raises; otherwise the disk is unchanged; the dropped clips are the letterboxed clip once retimed, or the concatenation when the cut after it raises; the caption, composite and encode (:223-257) are `CaptionAndEncode` |
| VideoGen.VideoGenerator.CaptionAndEncode | services/video_generator.py:223-257 | the reel file at `output/quote_video_<stamp>.mp4` holds the retimed clip under its caption (the quote and author for the clip's whole length, at 30 fps) exactly when neither the caption, the composite nor the encode raises; otherwise the disk is unchanged; every clip it opens stays held by a variable, so the `finally` closes it, and `video` still holds the retimed clip |
| VideoGen.VideoGenerator.RenderReel | services/video_generator.py:166-257 | output exactly when the media is renderable and no call the run reaches raises; the open clips are the old ones plus the held and the dropped ones; the dropped clips are exactly `Leaked` of the media and the failing call |
| VideoGen.VideoGenerator.RenderAndRelease | services/video_generator.py:162-275 | after the `finally` the download is deleted unless undeletable, the reel is on disk on success, and the clips still open are exactly `Leaked` of the media and the failing call |
| VideoGen.VideoGenerator.DownloadAsWritten | services/video_generator.py:68-93 | a refused request creates nothing; a broken stream leaves a partial file and no path; a completed one gives the temp path holding the download |
| VideoGen.VideoGenerator.Download | services/video_generator.py:68-93 | as written, except that a broken stream's partial file is deleted |
| VideoGen.VideoGenerator.GenerateVideo | services/video_generator.py:154-275 | a path exactly when the download completes, the media is renderable and no reached call raises; the reel holds the rendered scene at 30 fps; no file but the reel and the download changes; the download is gone unless undeletable; the clips left open are exactly `Leaked` when the download completes and none otherwise |
| VideoGen.VideoGenerator.GenerateVideoAsWritten | services/video_generator.py:154-275 | as `generate_video` is written: a refused download changes nothing; a broken stream fails the run and leaves exactly its partial file added to the disk; a completed download has the same outcome on disk and in open clips as `GenerateVideo` |

## Left out

- HTTP clients, the Flask app, configuration and text-to-speech are not
  part of this model. Provider responses and collaborator replies are
  parameters.
- api/gemini.py as shown defines no `give_nice_searchable_parameter_for_given_text`.
  The Pexels and Pixabay analyzers call that method, so as shown it raises
  `AttributeError` and their `get_video_url` returns `None`. The model treats
  the collaborator's reply as an input, and `Unexpected` covers that case.
- The `if not self.gemini` / `if not self.pexels` / `if not self.pixabay` checks
  of the analyzers are not modelled. The constructors always set these
  clients or raise.
- Text.Lower: only ASCII letters are folded; Python's `str.lower` also folds
  other scripts.
- VideoGen.Wider: the float ratio comparison is modelled as an exact
  integer cross-multiplication. Near-equal ratios may round differently.
- VideoGen.ScaledSize: `int(h * (W / w))` is computed in floating point.
  The model takes the exact floor of `h * W / w`, which can differ by one pixel.
- The media library's work (decoding, `target_resolution`, the preview
  scale, compositing, text rendering and word wrapping, encoding) is
  described by `Scene` values, not computed. The decoded clip's size and
  duration are inputs.
- `with_position` and `with_duration` copies are not counted as separate
  handles.
- VideoGen.VideoGenerator.ResizeVideo: a clip with a zero width is treated
  as failing like one with a zero height. The source would go on to resize it
  to zero width.
- A fault is one call that raises; `with_duration` and `with_position`
  are folded into the call before them, and a raise inside the media
  library after it has opened its own resources is not modelled.
- Coverr.ExtractCategoryInfo: a `subcategories` field present as JSON
  `null` reads like a missing one (no subcategories). The source's loop over
  `None` raises `TypeError` (coverr/analyzer.py:43-44), and `get_video_url`
  then returns `None`; the model goes on with the other categories.
- VideoGen.VideoGenerator.FinishReel: a failed encode writes no file; a
  partial output file is not modelled.
- VideoGen.Host.Close: closing a clip never fails. The `finally` loop
  (services/video_generator.py:267-272) ignores close failures, but the
  closes of the resized picture (:150), the preview (:183) and the
  concatenation (:218) are unguarded, so a failure there would abort the
  run; that path is not modelled.
- Download streaming, progress bars, logging and the `print` of the quote
  are I/O. The clocks behind file names are the stamps passed in.
- The prompt wording for the collaborator is not modelled; only the reply
  matters.
- `random.choice` is modelled as any index in range, not as a distribution.
- JSON values are modelled as strings or missing. Non-string values of
  the wrong type are not modelled.
- Pexels.TierUrlsChoice: among files of equal width, which one's link is
  taken is not stated (the sort is stable, the model does not prove it).
- Coverr.ExtractMinimalInfo: a field present as JSON `null` reads like a
  missing one (`""` or `[]`). Python's `get` with a default returns `None`
  for it.

## Findings

| source | as written | input that shows it | evidently intended | confidence | as-written member | corrected member |
|---|---|---|---|---|---|---|
| services/video_generator.py:68-93 | `_download_video` creates the temp file and then streams into it. If the stream breaks, it raises before `generate_video` has stored the path, so the `finally` cleans nothing up | a download whose stream breaks after the file is created (`Interrupted`) | no partial download is left behind when a run fails | medium, not executed | VideoGen.VideoGenerator.GenerateVideoAsWritten | VideoGen.VideoGenerator.GenerateVideo |

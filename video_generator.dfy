/** The reel renderer of services/video_generator.py: the size, duration and
    caption decisions it takes (pure arithmetic on sizes and durations), and
    the lifecycle of `generate_video`, which opens clip handles and writes
    files on the host step by step and releases them in a `finally`.

    The media library is not modelled: each clip it builds is described by a
    `Scene` value, and the file `write_videofile` produces holds the scene it
    was given. */
module VideoGen {
  import opened Common

  /** A frame size in pixels. */
  datatype Size = Size(width: int, height: int)

  predicate Positive(s: Size) {
    s.width > 0 && s.height > 0
  }

  /** `self.target_size`: 9:16 portrait. */
  const TargetSize := Size(1080, 1920)
  /** `self.target_duration`, in seconds. */
  const TargetDuration: real := 15.0
  /** `self.target_fps` */
  const TargetFps := 30
  /** How much narrower than the frame the caption box is. */
  const CaptionMargin := 100

  /** `self.text_settings` */
  const Font := "/usr/share/fonts/truetype/dejavu/DejaVuSans.ttf"
  const FontSize := 70
  const TextColor := "white"
  const StrokeColor := "black"
  const StrokeWidth := 2

  // ---------------------------------------------------------------------
  // Geometry (`_resize_video`)
  // ---------------------------------------------------------------------

  /** `clip_ratio > target_ratio`, compared exactly by cross-multiplying. */
  predicate Wider(src: Size, target: Size) {
    src.width * target.height > target.width * src.height
  }

  /** The size the clip is resized to: a wider clip takes the full target
      width and a truncated height, any other clip the full target height and
      a truncated width. */
  function ScaledSize(src: Size, target: Size): Size
    requires Positive(src) && Positive(target)
  {
    if Wider(src, target) then Size(target.width, src.height * target.width / src.width)
    else Size(src.width * target.height / src.height, target.height)
  }

  lemma DivBounds(x: int, y: int)
    requires x >= 0 && y > 0
    ensures 0 <= (x / y) * y <= x < (x / y + 1) * y
  {
  }

  lemma LessAfterCancel(q: int, b: int, w: int)
    requires w > 0 && q * w < b * w
    ensures q < b
  {
  }

  lemma AtMostAfterCancel(q: int, b: int, w: int)
    requires w > 0 && q * w <= b * w
    ensures q <= b
  {
    LessAfterCancel(q, b + 1, w);
  }

  lemma MulDiv(a: int, b: int)
    requires a >= 0 && b > 0
    ensures (a * b) / b == a
  {
    var q := (a * b) / b;
    DivBounds(a * b, b);
    AtMostAfterCancel(q, a, b);
    LessAfterCancel(a, q + 1, b);
  }

  /** A wider clip fills the width; its height is the largest one that does
      not make the picture taller than the clip's aspect ratio allows, and
      it fits within the target height (letterboxing). */
  lemma {:induction false} ScaledSizeWide(src: Size, target: Size)
    requires Positive(src) && Positive(target) && Wider(src, target)
    ensures var r := ScaledSize(src, target);
            && r.width == target.width
            && r.height * src.width <= src.height * target.width < (r.height + 1) * src.width
            && 0 <= r.height <= target.height
  {
    var r := ScaledSize(src, target);
    DivBounds(src.height * target.width, src.width);
    assert r.height * src.width <= src.height * target.width < target.height * src.width;
    LessAfterCancel(r.height, target.height, src.width);
  }

  /** Any other clip fills the height; its width is the largest one the
      clip's aspect ratio allows, and it fits within the target width
      (pillarboxing). */
  lemma {:induction false} ScaledSizeTall(src: Size, target: Size)
    requires Positive(src) && Positive(target) && !Wider(src, target)
    ensures var r := ScaledSize(src, target);
            && r.height == target.height
            && r.width * src.height <= src.width * target.height < (r.width + 1) * src.height
            && 0 <= r.width <= target.width
  {
    var r := ScaledSize(src, target);
    DivBounds(src.width * target.height, src.height);
    assert r.width * src.height <= src.width * target.height <= target.width * src.height;
    AtMostAfterCancel(r.width, target.width, src.height);
  }

  /** A clip with the target's aspect ratio is scaled to exactly the target
      size: no bars appear. */
  lemma {:induction false} ScaledSizeSameAspect(src: Size, target: Size)
    requires Positive(src) && Positive(target)
    requires src.width * target.height == target.width * src.height
    ensures ScaledSize(src, target) == target
  {
    assert !Wider(src, target);
    MulDiv(target.width, src.height);
  }

  // ---------------------------------------------------------------------
  // Caption (`_create_text_clip`)
  // ---------------------------------------------------------------------

  /** The caption box: text, font settings, the wrapping width (`method=
      "caption"`, centred) and how long it shows. */
  datatype Overlay = Overlay(
    text: string, font: string, fontSize: int, color: string,
    strokeColor: string, strokeWidth: int, wrapWidth: int, duration: real)

  /** `f'"{quote}"\n\n- {author}'` */
  function CaptionText(quote: string, author: string): string {
    "\"" + quote + "\"\n\n- " + author
  }

  const CaptionSeparator := "\"\n\n- "

  /** Reads a caption back: the quote runs from the opening quotation mark to
      the next one, which must be followed by the blank line and the dash. */
  function ParseCaption(text: string): Option<(string, string)> {
    if |text| == 0 || text[0] != '"' then None
    else
      var body := text[1..];
      match FirstWhere(body, c => c == '"')
      case None => None
      case Some(k) =>
        if |body| - k >= |CaptionSeparator|
           && body[k..k + |CaptionSeparator|] == CaptionSeparator
        then Some((body[..k], body[k + |CaptionSeparator|..]))
        else None
  }

  /** The caption gives back its quote and author whenever the quote has no
      quotation mark of its own. */
  lemma CaptionRoundTrip(quote: string, author: string)
    requires '"' !in quote
    ensures ParseCaption(CaptionText(quote, author)) == Some((quote, author))
  {
    var text := CaptionText(quote, author);
    var body := text[1..];
    assert body == quote + CaptionSeparator + author;
    assert body[|quote|] == '"';
    assert forall j :: 0 <= j < |quote| ==> body[j] == quote[j];
    assert FirstWhere(body, c => c == '"') == Some(|quote|);
    assert body[|quote|..|quote| + |CaptionSeparator|] == CaptionSeparator;
    assert body[..|quote|] == quote;
    assert body[|quote| + |CaptionSeparator|..] == author;
  }

  /** The overlay `_create_text_clip` builds for a video of `duration`
      seconds: the box is the frame width less the margin. */
  function CaptionOverlay(quote: string, author: string, duration: real): Overlay {
    Overlay(CaptionText(quote, author), Font, FontSize, TextColor, StrokeColor,
            StrokeWidth, TargetSize.width - CaptionMargin, duration)
  }

  // ---------------------------------------------------------------------
  // Scenes: what each clip the media library builds shows
  // ---------------------------------------------------------------------

  datatype Scene =
    | Source(size: Size, duration: real)          // a decoded file
    | Black(size: Size, duration: real)           // a black ColorClip
    | Resized(of: Scene, size: Size)              // `resized`, centred
    | Subclip(of: Scene, end: real)               // `subclipped(0, end)`
    | Concat(of: Scene, copies: nat)              // `concatenate_videoclips([of] * copies)`
    | Text(overlay: Overlay)                      // a caption TextClip
    | Composite(base: Scene, top: Scene, size: Size) // `CompositeVideoClip([base, top], size)`

  function Duration(s: Scene): real {
    match s
    case Source(_, d) => d
    case Black(_, d) => d
    case Resized(of, _) => Duration(of)
    case Subclip(_, end) => end
    case Concat(of, n) => n as real * Duration(of)
    case Text(o) => o.duration
    case Composite(b, t, _) => if Duration(b) >= Duration(t) then Duration(b) else Duration(t)
  }

  /** The frame size, where the scene fixes one (a caption's height is left
      to the text renderer). */
  function FrameSize(s: Scene): Option<Size> {
    match s
    case Source(size, _) => Some(size)
    case Black(size, _) => Some(size)
    case Resized(_, size) => Some(size)
    case Subclip(of, _) => FrameSize(of)
    case Concat(of, _) => FrameSize(of)
    case Text(_) => None
    case Composite(_, _, size) => Some(size)
  }

  /** Every cut stays within the clip it cuts, every concatenation has at
      least one copy. */
  predicate WellFormed(s: Scene) {
    match s
    case Source(_, _) => true
    case Black(_, _) => true
    case Resized(of, _) => WellFormed(of)
    case Subclip(of, end) => 0.0 <= end <= Duration(of) && WellFormed(of)
    case Concat(of, n) => n >= 1 && WellFormed(of)
    case Text(_) => true
    case Composite(b, t, _) => WellFormed(b) && WellFormed(t)
  }

  predicate Resizable(s: Scene) {
    FrameSize(s).Some? && Positive(FrameSize(s).value)
  }

  /** `_resize_video`: cut to the target duration if longer, then put the
      scaled picture in the middle of a black canvas of the target size that
      lasts as long as the (cut) clip. */
  function Letterbox(clip: Scene): Scene
    requires Resizable(clip)
  {
    var pre := if Duration(clip) > TargetDuration then Subclip(clip, TargetDuration) else clip;
    Composite(Black(TargetSize, Duration(pre)),
              Resized(pre, ScaledSize(FrameSize(clip).value, TargetSize)),
              TargetSize)
  }

  /** The letterboxed clip has the target frame, a black canvas exactly that
      size lasting as long as the picture, the picture at its scaled size,
      and lasts the clip's duration capped at the target duration. */
  lemma LetterboxShape(clip: Scene)
    requires Resizable(clip) && WellFormed(clip)
    ensures var r := Letterbox(clip);
            && WellFormed(r)
            && FrameSize(r) == Some(TargetSize)
            && r.base == Black(TargetSize, Duration(r.top))
            && r.top.size == ScaledSize(FrameSize(clip).value, TargetSize)
            && Duration(r) == (if Duration(clip) > TargetDuration then TargetDuration else Duration(clip))
  {
  }

  // ---------------------------------------------------------------------
  // Duration (`generate_video`, :200-220)
  // ---------------------------------------------------------------------

  /** `int(self.target_duration / video.duration) + 1` for a short clip. */
  function Repetitions(d: real, target: real): int
    requires 0.0 < d < target
  {
    (target / d).Floor + 1
  }

  /** At least two copies, together longer than the target, and one copy
      fewer would not be: the cut to the target stays within the loop. */
  lemma RepetitionsBounds(d: real, target: real)
    requires 0.0 < d < target
    ensures var n := Repetitions(d, target);
            && n >= 2
            && n as real * d > target
            && (n - 1) as real * d <= target
  {
    var x := target / d;
    var n := Repetitions(d, target);
    var lo := (n - 1) as real;
    var hi := n as real;
    assert x * d == target;
    assert lo <= x < hi && hi == lo + 1.0;
    assert lo * d <= x * d;
    assert x * d < hi * d;
  }

  lemma RepetitionsExample()
    ensures Repetitions(5.0, 15.0) == 4
  {
    assert 15.0 / 5.0 == 3.0;
  }

  /** The loop-or-cut decision: a short clip is looped and the loop cut to the
      target, any other clip is cut to the target. */
  function Retime(fitted: Scene): Scene
    requires 0.0 < Duration(fitted) <= TargetDuration
  {
    if Duration(fitted) < TargetDuration then
      Subclip(Concat(fitted, Repetitions(Duration(fitted), TargetDuration)), TargetDuration)
    else Subclip(fitted, TargetDuration)
  }

  /** The retimed clip lasts exactly the target duration, every cut in it is
      within its clip, and its frame is the fitted clip's. */
  lemma RetimeExact(fitted: Scene)
    requires 0.0 < Duration(fitted) <= TargetDuration && WellFormed(fitted)
    ensures var r := Retime(fitted);
            && Duration(r) == TargetDuration
            && WellFormed(r)
            && FrameSize(r) == FrameSize(fitted)
  {
    if Duration(fitted) < TargetDuration {
      RepetitionsBounds(Duration(fitted), TargetDuration);
    }
  }

  /** A decoded video: its frame size and duration. */
  datatype Media = Media(size: Size, duration: real)

  predicate Renderable(m: Media) {
    Positive(m.size) && m.duration > 0.0
  }

  /** The reel a successful run writes for `media`. */
  function Render(media: Media, quote: string, author: string): Scene
    requires Renderable(media)
  {
    var fitted := Letterbox(Source(media.size, media.duration));
    LetterboxShape(Source(media.size, media.duration));
    var video := Retime(fitted);
    Composite(video, Text(CaptionOverlay(quote, author, Duration(video))), TargetSize)
  }

  /** The reel has the target frame, lasts exactly the target duration, cuts
      only within its clips, shows the picture scaled to fit the frame, and
      its caption shows the quote and author for the whole reel in a box the
      frame width less the margin. */
  lemma RenderShape(media: Media, quote: string, author: string)
    requires Renderable(media)
    ensures var r := Render(media, quote, author);
            && FrameSize(r) == Some(TargetSize)
            && Duration(r) == TargetDuration
            && WellFormed(r)
            && r.top == Text(CaptionOverlay(quote, author, TargetDuration))
            && r.top.overlay.text == CaptionText(quote, author)
            && r.top.overlay.wrapWidth == TargetSize.width - CaptionMargin
            && FrameSize(r.base) == Some(TargetSize)
  {
    var src := Source(media.size, media.duration);
    LetterboxShape(src);
    RetimeExact(Letterbox(src));
  }

  // ---------------------------------------------------------------------
  // The host: files and open clips
  // ---------------------------------------------------------------------

  /** The files the renderer writes: downloads in its directory under the
      system temporary directory and reels in `output/`, each named after
      the clock's whole seconds at the time. */
  datatype Path = TempVideo(stamp: int) | OutputVideo(stamp: int)

  /** What a file holds; an encoded reel records its frame rate. */
  datatype FileData = PartialDownload | Downloaded(url: string) | Reel(scene: Scene, fps: int)

  type Handle = nat

  /** A clip object of the media library: the resources it holds (a
      handle, until closed) and what it shows. */
  datatype Clip = Clip(handle: Handle, scene: Scene)

  /** The handles of the clips a list of variables holds. */
  function HeldHandles(clips: seq<Option<Clip>>): set<Handle> {
    if clips == [] then {}
    else
      var last := clips[|clips| - 1];
      HeldHandles(clips[..|clips| - 1]) + (if last.Some? then {last.value.handle} else {})
  }

  /** The process's view of the machine: its files, the clip handles it holds
      open, and the files it is not allowed to delete. */
  class Host {
    var disk: map<Path, FileData>
    var open: set<Handle>
    var next: Handle
    const undeletable: set<Path>

    /** Every open handle was handed out already. */
    ghost predicate Valid()
      reads this
    {
      forall h :: h in open ==> h < next
    }

    constructor (files: map<Path, FileData>, locked: set<Path>)
      ensures Valid() && disk == files && open == {} && undeletable == locked
    {
      disk := files;
      open := {};
      next := 0;
      undeletable := locked;
    }

    /** A constructor or transformation of the media library: a new clip,
        open until closed. */
    method Open(scene: Scene) returns (c: Clip)
      requires Valid()
      modifies this
      ensures Valid()
      ensures c.scene == scene && c.handle == old(next) && next == old(next) + 1
      ensures open == old(open) + {c.handle} && disk == old(disk)
    {
      c := Clip(next, scene);
      open := open + {next};
      next := next + 1;
    }

    /** `clip.close()`; a failure to close is ignored wherever the renderer
        closes a clip, so closing always releases the handle. */
    method Close(c: Clip)
      requires Valid()
      modifies this
      ensures Valid()
      ensures open == old(open) - {c.handle} && next == old(next) && disk == old(disk)
    {
      open := open - {c.handle};
    }

    method Write(p: Path, data: FileData)
      modifies this
      ensures disk == old(disk)[p := data] && open == old(open) && next == old(next)
    {
      disk := disk[p := data];
    }

    /** `Path.unlink()`, which raises for a file the process may not delete. */
    method Unlink(p: Path) returns (ok: bool)
      modifies this
      ensures ok <==> p !in undeletable
      ensures disk == (if ok then old(disk) - {p} else old(disk))
      ensures open == old(open) && next == old(next)
    {
      ok := p !in undeletable;
      if ok {
        disk := disk - {p};
      }
    }
  }

  /** The deletable files among `files`. */
  function Deletable(files: seq<Path>, undeletable: set<Path>): set<Path> {
    set p | p in files && p !in undeletable
  }

  /** How fetching the clip went: the request failed before the file was
      created, the stream broke after it was created, or it completed. */
  datatype DownloadOutcome = Refused | Interrupted | Completed

  /** The foreign calls of a run after the download that may raise, in the
      order the run makes them: the preview and the full decode (:173,
      :187); in `_resize_video` the cut (:108), the black canvas (:116-117),
      the scaling (:130, :140) and the composite (:146); then the
      concatenation of a short clip (:211), the cut to the target (:214,
      :220), the caption (:225), the final composite (:227) and the encode
      (:247). */
  datatype Step =
    | Previewing | Decoding
    | Cutting | Canvas | Scaling | Letterboxing
    | Looping | Trimming
    | Captioning | Compositing | Encoding

  /** Whether a run on `media` gets as far as `step`: the cut is made only
      for a clip longer than the target, the clip's ratio (:112) raises for
      a clip with no area before the canvas is made, the loop count (:205)
      raises for a clip with no length, and only a short clip is looped. */
  predicate Reaches(media: Media, step: Step) {
    match step
    case Previewing => true
    case Decoding => true
    case Cutting => media.duration > TargetDuration
    case Canvas => Positive(media.size)
    case Scaling => Positive(media.size)
    case Letterboxing => Positive(media.size)
    case Looping => Renderable(media) && media.duration < TargetDuration
    case Trimming => Renderable(media)
    case Captioning => Renderable(media)
    case Compositing => Renderable(media)
    case Encoding => Renderable(media)
  }

  /** The call `fault` names raises: the run reaches it. A fault at a call
      the run never makes changes nothing. */
  predicate Raises(media: Media, fault: Option<Step>) {
    fault.Some? && Reaches(media, fault.value)
  }

  /** The handle a variable holds, if any. */
  function Own(v: Option<Clip>): set<Handle> {
    if v.Some? then {v.value.handle} else {}
  }

  lemma HeldOfFour(a: Option<Clip>, b: Option<Clip>, c: Option<Clip>, d: Option<Clip>)
    ensures HeldHandles([a, b, c, d]) == Own(a) + Own(b) + Own(c) + Own(d)
  {
    assert [a][..0] == [];
    assert HeldHandles([a]) == Own(a);
    assert [a, b][..1] == [a];
    assert HeldHandles([a, b]) == Own(a) + Own(b);
    assert [a, b, c][..2] == [a, b];
    assert HeldHandles([a, b, c]) == Own(a) + Own(b) + Own(c);
    assert [a, b, c, d][..3] == [a, b, c];
  }

  /** Whether `_resize_video` raises: at the cut of a long clip, at the
      ratio of a clip with no area, or at one of its later calls. */
  predicate ResizeRaises(clip: Scene, fault: Option<Step>) {
    || (Duration(clip) > TargetDuration && fault == Some(Cutting))
    || !Resizable(clip)
    || fault == Some(Canvas) || fault == Some(Scaling) || fault == Some(Letterboxing)
  }

  /** The clips `_resize_video` leaves open, when its handles are handed out
      from `n` on: the cut copy of a long clip (`n`) once it is made, the
      canvas once it is made, and the resized picture when the composite
      raises before it can be closed. The letterboxed clip it returns is not
      among them. */
  function ResizeDropped(clip: Scene, fault: Option<Step>, n: Handle): set<Handle> {
    var long := Duration(clip) > TargetDuration;
    var cut: set<Handle> := if long then {n} else {};
    var canvas: Handle := if long then n + 1 else n;
    if long && fault == Some(Cutting) then {}
    else if !Resizable(clip) || fault == Some(Canvas) then cut
    else if fault == Some(Letterboxing) then cut + {canvas, canvas + 1}
    else cut + {canvas}
  }

  /** Whether the loop-or-cut step raises: at the concatenation of a short
      clip or at the cut to the target. */
  predicate RetimeRaises(fitted: Scene, fault: Option<Step>) {
    (Duration(fitted) < TargetDuration && fault == Some(Looping)) || fault == Some(Trimming)
  }

  /** The clip the loop-or-cut step leaves open, its handles handed out from
      `n` on: the concatenation, when the cut after it raises before it can
      be closed. */
  function RetimeDropped(fitted: Scene, fault: Option<Step>, n: Handle): set<Handle> {
    if Duration(fitted) < TargetDuration && fault == Some(Trimming) then {n} else {}
  }

  /** The clips a run opens and never closes, when its handles are handed
      out from `base` on. The preview takes `base` and is closed; the decoded
      clip takes `base + 1` and is closed by the `finally` unless `video` has
      been reassigned to the letterboxed clip, which drops it. `_resize_video`
      drops what `ResizeDropped` says, from `base + 2` on; the letterboxed
      clip is dropped in turn once the loop-or-cut step reassigns `video`,
      and that step drops what `RetimeDropped` says. Later clips are held by
      the variables and closed by the `finally`. */
  function Leaked(media: Media, fault: Option<Step>, base: Handle): set<Handle> {
    var clip := Source(media.size, media.duration);
    if fault == Some(Previewing) || fault == Some(Decoding) then {}
    else if ResizeRaises(clip, fault) then ResizeDropped(clip, fault, base + 2)
    else
      var fitted: Handle := if media.duration > TargetDuration then base + 5 else base + 4;
      var resizing := {base + 1} + ResizeDropped(clip, fault, base + 2);
      if media.duration <= 0.0 then resizing
      else if RetimeRaises(Letterbox(clip), fault) then resizing + RetimeDropped(Letterbox(clip), fault, fitted + 1)
      else resizing + {fitted}
  }

  /** The preview is never among the dropped clips, at most the six clips
      opened after it are, and a run that raises before `_resize_video`
      drops nothing. */
  lemma LeakedBounds(media: Media, fault: Option<Step>, base: Handle)
    ensures base !in Leaked(media, fault, base)
    ensures Leaked(media, fault, base) <= {base + 1, base + 2, base + 3, base + 4, base + 5, base + 6}
    ensures fault == Some(Previewing) || fault == Some(Decoding) ==> Leaked(media, fault, base) == {}
  {
  }

  /** A clip with no area raises inside `_resize_video`, after the cut: only
      the cut copy of a long clip is left open, the decoded clip still being
      in `video`. */
  lemma LeakedNoArea(media: Media, fault: Option<Step>, base: Handle)
    requires !Positive(media.size) && fault != Some(Previewing) && fault != Some(Decoding)
    ensures Leaked(media, fault, base)
            == if media.duration > TargetDuration && fault != Some(Cutting) then {base + 2} else {}
  {
  }

  /** A run that completes leaves open exactly the decoded clip, the cut copy
      of a long clip, the canvas and the letterboxed clip. */
  lemma LeakedOnSuccess(media: Media, fault: Option<Step>, base: Handle)
    requires Renderable(media) && !Raises(media, fault)
    ensures Leaked(media, fault, base)
            == if media.duration > TargetDuration then {base + 1, base + 2, base + 3, base + 5}
               else {base + 1, base + 2, base + 4}
  {
    LetterboxShape(Source(media.size, media.duration));
  }

  // ---------------------------------------------------------------------
  // The renderer
  // ---------------------------------------------------------------------

  class VideoGenerator {
    const host: Host

    constructor (host: Host)
      ensures this.host == host
    {
      this.host := host;
    }

    /** `_cleanup_temp_files`: every listed file that exists is deleted; a
        missing file is skipped and a failed deletion is ignored. */
    method CleanupTempFiles(files: seq<Path>)
      modifies host
      ensures host.disk == old(host.disk) - Deletable(files, host.undeletable)
      ensures host.open == old(host.open) && host.next == old(host.next)
    {
      for i := 0 to |files|
        invariant host.disk == old(host.disk) - Deletable(files[..i], host.undeletable)
        invariant host.open == old(host.open) && host.next == old(host.next)
      {
        assert Deletable(files[..i + 1], host.undeletable)
               == Deletable(files[..i], host.undeletable)
                  + (if files[i] in host.undeletable then {} else {files[i]}) by {
          assert files[..i + 1] == files[..i] + [files[i]];
        }
        if files[i] in host.disk {
          var _ := host.Unlink(files[i]);
        }
      }
      assert files[..|files|] == files;
    }

    /** The `finally` loop: closes every clip the variables still hold. */
    method ReleaseClips(clips: seq<Option<Clip>>)
      requires host.Valid()
      modifies host
      ensures host.Valid()
      ensures host.open == old(host.open) - HeldHandles(clips)
      ensures host.disk == old(host.disk) && host.next == old(host.next)
    {
      for i := 0 to |clips|
        invariant host.Valid()
        invariant host.open == old(host.open) - HeldHandles(clips[..i])
        invariant host.disk == old(host.disk) && host.next == old(host.next)
      {
        assert clips[..i + 1][..i] == clips[..i];
        if clips[i].Some? {
          host.Close(clips[i].value);
        }
      }
      assert clips[..|clips|] == clips;
    }

    /** `_create_text_clip`: a caption clip showing the quote and author for
        `duration` seconds. */
    method CreateTextClip(quote: string, author: string, duration: real) returns (c: Clip)
      requires host.Valid()
      modifies host
      ensures host.Valid()
      ensures c.scene == Text(CaptionOverlay(quote, author, duration))
      ensures c.handle == old(host.next) && host.next == old(host.next) + 1
      ensures host.open == old(host.open) + {c.handle} && host.disk == old(host.disk)
    {
      c := host.Open(Text(CaptionOverlay(quote, author, duration)));
    }

    /** `_resize_video`: the letterboxed clip, open, or `None` when it
        raises. The cut copy of a long clip and the black canvas are left
        open, never closed (`dropped`); the resized picture is closed once
        composited, and dropped if the composite raises. */
    method ResizeVideo(clip: Clip, fault: Option<Step>) returns (fitted: Option<Clip>, ghost dropped: set<Handle>)
      requires host.Valid() && FrameSize(clip.scene).Some?
      modifies host
      ensures host.Valid()
      ensures fitted.Some? <==> !ResizeRaises(clip.scene, fault)
      ensures fitted.Some? ==> fitted.value.scene == Letterbox(clip.scene)
      ensures dropped == ResizeDropped(clip.scene, fault, old(host.next))
      ensures host.open == old(host.open) + dropped + Own(fitted)
      ensures dropped !! Own(fitted)
      ensures forall h :: h in dropped + Own(fitted) ==> old(host.next) <= h < host.next
      ensures fitted.Some? ==> fitted.value.handle == (if Duration(clip.scene) > TargetDuration
                                                       then old(host.next) + 3 else old(host.next) + 2)
                               && host.next == fitted.value.handle + 1
      ensures host.disk == old(host.disk)
    {
      fitted, dropped := None, {};
      var pre := clip;
      if Duration(clip.scene) > TargetDuration {
        if fault == Some(Cutting) {
          return;
        }
        pre := host.Open(Subclip(clip.scene, TargetDuration));
        dropped := {pre.handle};
      }
      if !Positive(FrameSize(clip.scene).value) {
        // `clip.w / clip.h`
        return;
      }
      if fault == Some(Canvas) {
        return;
      }
      var background := host.Open(Black(TargetSize, Duration(pre.scene)));
      dropped := dropped + {background.handle};
      if fault == Some(Scaling) {
        return;
      }
      var resized := host.Open(Resized(pre.scene, ScaledSize(FrameSize(clip.scene).value, TargetSize)));
      if fault == Some(Letterboxing) {
        dropped := dropped + {resized.handle};
        return;
      }
      var final := host.Open(Composite(background.scene, resized.scene, TargetSize));
      host.Close(resized);
      fitted := Some(final);
    }
  
    /** The loop-or-cut step of `generate_video` (:200-220): a short clip is
        repeated and the repetition cut to the target and closed, any other
        clip is cut to the target; `None` when a call raises, and then the
        repetition, if made, is left open (`dropped`). */
    method RetimeClip(fitted: Clip, fault: Option<Step>) returns (video: Option<Clip>, ghost dropped: set<Handle>)
      requires host.Valid() && 0.0 < Duration(fitted.scene) <= TargetDuration
      modifies host
      ensures host.Valid()
      ensures video.Some? <==> !RetimeRaises(fitted.scene, fault)
      ensures video.Some? ==> video.value.scene == Retime(fitted.scene)
      ensures dropped == RetimeDropped(fitted.scene, fault, old(host.next))
      ensures host.open == old(host.open) + dropped + Own(video) && host.disk == old(host.disk)
      ensures dropped !! Own(video)
      ensures forall h :: h in dropped + Own(video) ==> old(host.next) <= h < host.next
    {
      video, dropped := None, {};
      var d := Duration(fitted.scene);
      if d < TargetDuration {
        if fault == Some(Looping) {
          return;
        }
        var looped := host.Open(Concat(fitted.scene, Repetitions(d, TargetDuration)));
        if fault == Some(Trimming) {
          dropped := {looped.handle};
          return;
        }
        var cut := host.Open(Subclip(looped.scene, TargetDuration));
        host.Close(looped);
        video := Some(cut);
      } else {
        if fault == Some(Trimming) {
          return;
        }
        var cut := host.Open(Subclip(fitted.scene, TargetDuration));
        video := Some(cut);
      }
    }

    /** The first steps of the `try` body of `generate_video` (:168-196):
        open and close a preview, decode the clip and letterbox it. The call
        `fault` names, if any, raises when it is reached. */
    method PrepareClip(media: Media, fault: Option<Step>)
      returns (fitted: Option<Clip>, held: seq<Option<Clip>>, ghost leaked: set<Handle>)
      requires host.Valid()
      modifies host
      ensures host.Valid()
      ensures fitted.Some? <==> fault != Some(Previewing) && fault != Some(Decoding)
                                && !ResizeRaises(Source(media.size, media.duration), fault)
      ensures fitted.Some? ==> fitted.value.scene == Letterbox(Source(media.size, media.duration))
                               && held == [None, fitted, None, None]
      ensures fitted.Some? ==> fitted.value.handle == (if media.duration > TargetDuration
                                                       then old(host.next) + 5 else old(host.next) + 4)
                               && host.next == fitted.value.handle + 1
      ensures |held| == 4 && held[0] == None
      ensures HeldHandles(held) == if fault == Some(Previewing) || fault == Some(Decoding) then {}
                                   else if fitted.None? then {old(host.next) + 1}
                                   else {fitted.value.handle}
      ensures leaked == if fault == Some(Previewing) || fault == Some(Decoding) then {}
                        else if fitted.None? then ResizeDropped(Source(media.size, media.duration), fault, old(host.next) + 2)
                        else {old(host.next) + 1} + ResizeDropped(Source(media.size, media.duration), fault, old(host.next) + 2)
      ensures host.open == old(host.open) + leaked + HeldHandles(held)
      ensures leaked !! HeldHandles(held)
      ensures forall h :: h in leaked + HeldHandles(held) ==> old(host.next) <= h < host.next
      ensures host.disk == old(host.disk)
    {
      fitted, held, leaked := None, [None, None, None, None], {};
      HeldOfFour(None, None, None, None);
      if fault == Some(Previewing) {
        return;
      }
      var preview := host.Open(Source(media.size, media.duration));
      host.Close(preview);
      if fault == Some(Decoding) {
        return;
      }
      var decoded := host.Open(Source(media.size, media.duration));
      held := [None, Some(decoded), None, None];
      HeldOfFour(None, Some(decoded), None, None);
      var clip, dropped := ResizeVideo(decoded, fault);
      assert decoded.handle !in dropped + Own(clip);
      if clip.None? {
        leaked := dropped;
        return;
      }
      leaked := {decoded.handle} + dropped;
      fitted := clip;
      held := [None, fitted, None, None];
      HeldOfFour(None, fitted, None, None);
    }

    /** The rest of the `try` body of `generate_video` (:200-257): loop or
        cut the letterboxed clip to the target duration, add the caption,
        composite and encode. The call `fault` names, if any, raises when it
        is reached; so does the loop count of a clip with no length. The
        letterboxed clip is dropped without being closed once `video` is
        reassigned. */
    method FinishReel(fitted: Clip, quote: string, author: string, media: Media, outStamp: int, fault: Option<Step>)
      returns (r: Option<Path>, held: seq<Option<Clip>>, ghost leaked: set<Handle>)
      requires host.Valid() && fitted.handle in host.open
      requires Positive(media.size) && fitted.scene == Letterbox(Source(media.size, media.duration))
      requires fault != Some(Previewing) && fault != Some(Decoding)
      requires !ResizeRaises(Source(media.size, media.duration), fault)
      modifies host
      ensures host.Valid()
      ensures r.Some? <==> media.duration > 0.0 && !Raises(media, fault)
      ensures r.Some? ==> r.value == OutputVideo(outStamp)
                          && host.disk == old(host.disk)[r.value := Reel(Render(media, quote, author), TargetFps)]
      ensures r.None? ==> host.disk == old(host.disk)
      ensures |held| == 4 && held[0] == None
      ensures host.open == old(host.open) + leaked + HeldHandles(held)
      ensures leaked !! HeldHandles(held)
      ensures leaked == if media.duration <= 0.0 then {}
                        else if RetimeRaises(fitted.scene, fault) then RetimeDropped(fitted.scene, fault, old(host.next))
                        else {fitted.handle}
      ensures fitted.handle in leaked + HeldHandles(held)
      ensures forall h :: h in leaked + HeldHandles(held) - {fitted.handle} ==> old(host.next) <= h < host.next
    {
      r, held, leaked := None, [None, Some(fitted), None, None], {};
      HeldOfFour(None, Some(fitted), None, None);
      LetterboxShape(Source(media.size, media.duration));
      var d := Duration(fitted.scene);
      assert d > 0.0 <==> media.duration > 0.0;
      if d <= 0.0 {
        // `self.target_duration / video.duration`
        return;
      }
      var video, dropped := RetimeClip(fitted, fault);
      if video.None? {
        leaked := dropped;
        return;
      }
      leaked := {fitted.handle};
      assert video.value.handle in dropped + Own(video);
      r, held := CaptionAndEncode(video.value, quote, author, outStamp, fault);
      forall h | h in HeldHandles(held) && h != video.value.handle
        ensures old(host.next) <= h < host.next
      {
        assert h in HeldHandles(held) - {video.value.handle};
      }
    }

    /** The caption, the final composite and the encode of `generate_video`
        (:223-257) once `video` holds the retimed clip: the reel file holds
        the captioned clip unless the call `fault` names raises; every clip
        made here is held by a variable. */
    method CaptionAndEncode(video: Clip, quote: string, author: string, outStamp: int, fault: Option<Step>)
      returns (r: Option<Path>, held: seq<Option<Clip>>)
      requires host.Valid() && video.handle in host.open
      modifies host
      ensures host.Valid()
      ensures r.Some? <==> fault != Some(Captioning) && fault != Some(Compositing) && fault != Some(Encoding)
      ensures r.Some? ==> r.value == OutputVideo(outStamp)
                          && host.disk == old(host.disk)[r.value := Reel(Composite(video.scene,
                               Text(CaptionOverlay(quote, author, Duration(video.scene))), TargetSize), TargetFps)]
      ensures r.None? ==> host.disk == old(host.disk)
      ensures |held| == 4 && held[0] == None && held[1] == Some(video)
      ensures video.handle in HeldHandles(held)
      ensures host.open == old(host.open) + (HeldHandles(held) - {video.handle})
      ensures forall h :: h in HeldHandles(held) - {video.handle} ==> old(host.next) <= h < host.next
    {
      r, held := None, [None, Some(video), None, None];
      HeldOfFour(None, Some(video), None, None);
      assert HeldHandles(held) - {video.handle} == {};
      if fault == Some(Captioning) {
        return;
      }
      var text := CreateTextClip(quote, author, Duration(video.scene));
      held := [None, Some(video), Some(text), None];
      HeldOfFour(None, Some(video), Some(text), None);
      if fault == Some(Compositing) {
        return;
      }
      var final := host.Open(Composite(video.scene, text.scene, TargetSize));
      held := [None, Some(video), Some(text), Some(final)];
      HeldOfFour(None, Some(video), Some(text), Some(final));
      if fault == Some(Encoding) {
        return;
      }
      var out := OutputVideo(outStamp);
      host.Write(out, Reel(final.scene, TargetFps));
      r := Some(out);
    }

    /** The `try` body of `generate_video` after the download (:166-257).
        `held` is what the variables `preview_clip`, `video`, `text_clip` and
        `final_video` hold when the body ends; `leaked` are the clips the body
        drops without closing them (`Leaked`). */
    method RenderReel(quote: string, author: string, media: Media, outStamp: int, fault: Option<Step>)
      returns (r: Option<Path>, held: seq<Option<Clip>>, ghost leaked: set<Handle>)
      requires host.Valid()
      modifies host
      ensures host.Valid()
      ensures r.Some? <==> Renderable(media) && !Raises(media, fault)
      ensures r.Some? ==> r.value == OutputVideo(outStamp)
                          && host.disk == old(host.disk)[r.value := Reel(Render(media, quote, author), TargetFps)]
      ensures r.None? ==> host.disk == old(host.disk)
      ensures |held| == 4 && held[0] == None
      ensures leaked == Leaked(media, fault, old(host.next))
      ensures host.open == old(host.open) + leaked + HeldHandles(held)
      ensures leaked !! HeldHandles(held)
      ensures forall h :: h in leaked + HeldHandles(held) ==> old(host.next) <= h < host.next
    {
      var fitted;
      fitted, held, leaked := PrepareClip(media, fault);
      if fitted.None? {
        r := None;
        return;
      }
      ghost var mark := host.next;
      ghost var before := leaked;
      HeldOfFour(None, fitted, None, None);
      assert HeldHandles(held) == {fitted.value.handle};
      forall h | h in before + {fitted.value.handle}
        ensures old(host.next) <= h < mark
        ensures h in before ==> h != fitted.value.handle
      {
        assert h in before + HeldHandles(held);
      }
      ghost var more;
      r, held, more := FinishReel(fitted.value, quote, author, media, outStamp, fault);
      assert forall h :: h in more + HeldHandles(held) - {fitted.value.handle} ==> mark <= h < host.next;
      leaked := before + more;
      forall h | h in leaked + HeldHandles(held)
        ensures old(host.next) <= h < host.next
      {
        if h !in before && h != fitted.value.handle {
          assert h in more + HeldHandles(held) - {fitted.value.handle};
        }
      }
      forall h | h in before
        ensures h !in HeldHandles(held)
      {
        assert h in before + {fitted.value.handle};
        assert h in more + HeldHandles(held) - {fitted.value.handle} ==> mark <= h;
      }
    }

    /** The rest of `generate_video` once the clip is downloaded to `temp`:
        the `try` body, then the `finally` (:265-275), which closes every
        clip the variables hold and deletes the download. Only the clips the
        body dropped stay open. */
    method RenderAndRelease(temp: Path, quote: string, author: string, media: Media, outStamp: int,
                            fault: Option<Step>)
      returns (r: Option<Path>, ghost leaked: set<Handle>)
      requires host.Valid() && temp.TempVideo?
      modifies host
      ensures host.Valid()
      ensures r.Some? <==> Renderable(media) && !Raises(media, fault)
      ensures r.Some? ==> r.value == OutputVideo(outStamp)
      ensures host.disk == (if r.Some? then old(host.disk)[r.value := Reel(Render(media, quote, author), TargetFps)]
                            else old(host.disk)) - Deletable([temp], host.undeletable)
      ensures leaked == Leaked(media, fault, old(host.next))
      ensures host.open == old(host.open) + leaked
      ensures forall h :: h in leaked ==> old(host.next) <= h
    {
      ghost var before := host.open;
      var held;
      r, held, leaked := RenderReel(quote, author, media, outStamp, fault);
      forall h | h in leaked + HeldHandles(held)
        ensures h !in before
      {
        assert old(host.next) <= h;
      }
      assert leaked <= leaked + HeldHandles(held);
      ghost var mid := host.open;
      ReleaseClips(held);
      assert host.open == mid - HeldHandles(held);
      CleanupTempFiles([temp]);
    }

    /** `_download_video` as written (:68-93): the file is created before
        the body is streamed into it, so a stream that breaks leaves a
        partial file behind while the caller receives no path to delete. */
    method DownloadAsWritten(url: string, stamp: int, outcome: DownloadOutcome) returns (r: Option<Path>)
      modifies host
      ensures outcome == Refused ==> r.None? && host.disk == old(host.disk)
      ensures outcome == Interrupted ==> r.None? && host.disk == old(host.disk)[TempVideo(stamp) := PartialDownload]
      ensures outcome == Completed ==> r == Some(TempVideo(stamp))
                                       && host.disk == old(host.disk)[TempVideo(stamp) := Downloaded(url)]
      ensures host.open == old(host.open) && host.next == old(host.next)
    {
      var temp := TempVideo(stamp);
      match outcome
      case Refused =>
        r := None;
      case Interrupted =>
        host.Write(temp, PartialDownload);
        r := None;
      case Completed =>
        host.Write(temp, Downloaded(url));
        r := Some(temp);
    }

    /** `_download_video` as evidently intended: a stream that breaks takes
        its partial file with it (unless the file may not be deleted). */
    method Download(url: string, stamp: int, outcome: DownloadOutcome) returns (r: Option<Path>)
      modifies host
      ensures outcome == Refused ==> r.None? && host.disk == old(host.disk)
      ensures outcome == Interrupted ==> r.None? && host.disk == old(host.disk)[TempVideo(stamp) := PartialDownload]
                                                                 - Deletable([TempVideo(stamp)], host.undeletable)
      ensures outcome == Completed ==> r == Some(TempVideo(stamp))
                                       && host.disk == old(host.disk)[TempVideo(stamp) := Downloaded(url)]
      ensures host.open == old(host.open) && host.next == old(host.next)
    {
      r := DownloadAsWritten(url, stamp, outcome);
      if outcome == Interrupted {
        CleanupTempFiles([TempVideo(stamp)]);
      }
    }

    /** `generate_video` (:154-275): a reel at `output/quote_video_<outStamp>.mp4`
        showing `Render(media, quote, author)` when the download completes
        and no call the run reaches raises, `None` otherwise. Whatever
        happens, the download is gone afterwards unless the host refuses to
        delete it, no other file but the reel changes, and the only clips
        left open are the ones the run dropped without closing (`leaked`). */
    method GenerateVideo(quote: string, author: string, url: string, tempStamp: int, outStamp: int,
                         download: DownloadOutcome, media: Media, fault: Option<Step>)
      returns (r: Option<Path>, ghost leaked: set<Handle>)
      requires host.Valid()
      modifies host
      ensures host.Valid()
      ensures r.Some? <==> download == Completed && Renderable(media) && !Raises(media, fault)
      ensures r.Some? ==> r.value == OutputVideo(outStamp)
                          && r.value in host.disk && host.disk[r.value] == Reel(Render(media, quote, author), TargetFps)
      ensures var temp := TempVideo(tempStamp);
              && host.disk - {temp} == (if r.Some? then old(host.disk)[r.value := Reel(Render(media, quote, author), TargetFps)]
                                        else old(host.disk)) - {temp}
              && (temp in host.disk <==> if download == Refused then temp in old(host.disk) else temp in host.undeletable)
      ensures download == Refused ==> host.disk == old(host.disk)
      ensures leaked == if download == Completed then Leaked(media, fault, old(host.next)) else {}
      ensures host.open == old(host.open) + leaked && leaked !! old(host.open)
    {
      var temp := Download(url, tempStamp, download);
      if temp.None? {
        r, leaked := None, {};
        return;
      }
      r, leaked := RenderAndRelease(temp.value, quote, author, media, outStamp, fault);
    }

    /** `generate_video` with `_download_video` as written: when the stream
        breaks the run fails with the partial download still on disk. */
    method GenerateVideoAsWritten(quote: string, author: string, url: string, tempStamp: int, outStamp: int,
                                  download: DownloadOutcome, media: Media, fault: Option<Step>)
      returns (r: Option<Path>, ghost leaked: set<Handle>)
      requires host.Valid()
      modifies host
      ensures host.Valid()
      ensures r.Some? <==> download == Completed && Renderable(media) && !Raises(media, fault)
      ensures r.Some? ==> r.value == OutputVideo(outStamp)
                          && r.value in host.disk && host.disk[r.value] == Reel(Render(media, quote, author), TargetFps)
      ensures download == Completed ==>
                var temp := TempVideo(tempStamp);
                && host.disk - {temp} == (if r.Some? then old(host.disk)[r.value := Reel(Render(media, quote, author), TargetFps)]
                                          else old(host.disk)) - {temp}
                && (temp in host.disk <==> temp in host.undeletable)
      ensures download == Refused ==> host.disk == old(host.disk)
      ensures download == Interrupted ==> r.None? && host.disk == old(host.disk)[TempVideo(tempStamp) := PartialDownload]
      ensures leaked == if download == Completed then Leaked(media, fault, old(host.next)) else {}
      ensures host.open == old(host.open) + leaked && leaked !! old(host.open)
    {
      var temp := DownloadAsWritten(url, tempStamp, download);
      if temp.None? {
        r, leaked := None, {};
        return;
      }
      r, leaked := RenderAndRelease(temp.value, quote, author, media, outStamp, fault);
    }
  }
}

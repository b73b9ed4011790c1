/** The annotation pipeline as the program runs it: one object holding the state that lives
    across calls (the debounce map and the texts of the last frame's boxes), the detection loop
    over one frame, and the image and video drivers. Detections and pixel statistics are inputs;
    reading and writing files is not modelled. */
module Pipeline {
  import opened Text
  import opened Geometry
  import opened Policy
  import opened Debounce
  import opened Overlay
  import opened Frame
  import opened Compositor
  import opened Wrappers

  /** One input frame: its size, and what the two detection stages find in it. */
  datatype FrameInput = FrameInput(width: int, height: int, vessels: seq<VesselInput>)

  predicate WellSized(f: FrameInput) {
    f.width >= 0 && f.height >= 0
  }

  /** One output picture: its size, the column where the annotated picture begins, the drawing
      calls of its boxes (in the annotated picture's coordinates) and the lines of the top-left
      list (in the output picture's coordinates). */
  datatype OutputFrame = OutputFrame(size: Size, annotatedX: int, boxes: seq<DrawOp>, list: seq<Placed>)

  /** The boxes of a frame annotation, none when no vessel was found. */
  function BoxesOf(r: Option<seq<Drawable>>): seq<Drawable> {
    if r.Some? then r.value else []
  }

  /** The list is drawn at twice the boxes' font scale. */
  function ListFontScale(fontScale: real): real {
    fontScale * 2.0
  }

  /** The output picture for a frame whose boxes are `ds`. */
  function Picture(f: FrameInput, ds: seq<Drawable>, cfg: Config): OutputFrame {
    var list := if cfg.showTopLeftList then ListLayout(Texts(ds), LineStep(ListFontScale(cfg.fontScale))) else [];
    OutputFrame(ComposedSize(Size(f.width, f.height), cfg.sideBySide),
                if cfg.sideBySide then f.width else 0,
                BoxOps(ds), list)
  }

  /** The output picture for one frame and the debounce map after it. */
  function Compose(f: FrameInput, m: map<BoxKey, Entry>, cfg: Config, thr: Option<Thresholds>)
    : (OutputFrame, map<BoxKey, Entry>)
    requires WellSized(f)
  {
    var a := AnnotateFrame(f.vessels, m, f.width, f.height, cfg, thr);
    (Picture(f, BoxesOf(a.0), cfg), a.1)
  }

  /** The debounce map after a run of frames: each frame's detection loop steps it in turn. */
  function MapAfter(frames: seq<FrameInput>, m: map<BoxKey, Entry>, cfg: Config, thr: Option<Thresholds>)
    : map<BoxKey, Entry>
    requires forall k :: 0 <= k < |frames| ==> WellSized(frames[k])
    decreases |frames|
  {
    if frames == [] then m
    else
      var n := |frames| - 1;
      assert WellSized(frames[n]);
      AnnotateFrame(frames[n].vessels, MapAfter(frames[..n], m, cfg, thr), frames[n].width, frames[n].height, cfg, thr).1
  }

  /** Picture `k` of a video: frame `k` composed with the map the frames before it left. */
  function PictureAt(frames: seq<FrameInput>, k: int, m: map<BoxKey, Entry>, cfg: Config, thr: Option<Thresholds>)
    : OutputFrame
    requires forall j :: 0 <= j < |frames| ==> WellSized(frames[j])
    requires 0 <= k < |frames|
  {
    Compose(frames[k], MapAfter(frames[..k], m, cfg, thr), cfg, thr).0
  }

  /** The texts of the boxes drawn on one frame, which `last_frame_bboxes` keeps. */
  function FrameTexts(f: FrameInput, m: map<BoxKey, Entry>, cfg: Config, thr: Option<Thresholds>): seq<string>
    requires WellSized(f)
  {
    Texts(BoxesOf(AnnotateFrame(f.vessels, m, f.width, f.height, cfg, thr).0))
  }

  /** `last_frame_bboxes` after the first `n` frames of a video: the texts of the boxes of frame
      `n - 1`, or `before` while no frame has been processed. */
  function TextsAfter(frames: seq<FrameInput>, n: nat, m: map<BoxKey, Entry>, cfg: Config, thr: Option<Thresholds>,
                      before: seq<string>): seq<string>
    requires forall j :: 0 <= j < |frames| ==> WellSized(frames[j])
    requires n <= |frames|
  {
    if n == 0 then before
    else
      var k := n - 1;
      FrameTexts(frames[k], MapAfter(frames[..k], m, cfg, thr), cfg, thr)
  }

  /** The first `n` pictures of a video, in order. */
  function PicturesUpTo(frames: seq<FrameInput>, n: nat, m: map<BoxKey, Entry>, cfg: Config, thr: Option<Thresholds>)
    : (r: seq<OutputFrame>)
    requires forall j :: 0 <= j < |frames| ==> WellSized(frames[j])
    requires n <= |frames|
    ensures |r| == n
  {
    if n == 0 then [] else PicturesUpTo(frames, n - 1, m, cfg, thr) + [PictureAt(frames, n - 1, m, cfg, thr)]
  }

  /** Picture `k` of the first `n` is picture `k` of the video. */
  lemma {:induction false} PicturesUpToAt(frames: seq<FrameInput>, n: nat, k: int, m: map<BoxKey, Entry>, cfg: Config, thr: Option<Thresholds>)
    requires forall j :: 0 <= j < |frames| ==> WellSized(frames[j])
    requires 0 <= k < n <= |frames|
    ensures PicturesUpTo(frames, n, m, cfg, thr)[k] == PictureAt(frames, k, m, cfg, thr)
  {
    if k < n - 1 {
      PicturesUpToAt(frames, n - 1, k, m, cfg, thr);
    }
  }

  /** All pictures of a video, each at its own index. */
  lemma PicturesUpToAll(frames: seq<FrameInput>, m: map<BoxKey, Entry>, cfg: Config, thr: Option<Thresholds>)
    requires forall j :: 0 <= j < |frames| ==> WellSized(frames[j])
    ensures forall k :: 0 <= k < |frames| ==>
      PicturesUpTo(frames, |frames|, m, cfg, thr)[k] == PictureAt(frames, k, m, cfg, thr)
  {
    forall k | 0 <= k < |frames|
      ensures PicturesUpTo(frames, |frames|, m, cfg, thr)[k] == PictureAt(frames, k, m, cfg, thr)
    {
      PicturesUpToAt(frames, |frames|, k, m, cfg, thr);
    }
  }

  /** One frame more: its detection loop steps the map the frames before it left. */
  lemma MapAfterSnoc(frames: seq<FrameInput>, i: int, m: map<BoxKey, Entry>, cfg: Config, thr: Option<Thresholds>)
    requires forall k :: 0 <= k < |frames| ==> WellSized(frames[k])
    requires 0 <= i < |frames|
    ensures MapAfter(frames[..i + 1], m, cfg, thr) == Compose(frames[i], MapAfter(frames[..i], m, cfg, thr), cfg, thr).1
  {
    assert frames[..i + 1][..i] == frames[..i] && frames[..i + 1][i] == frames[i];
  }

  // ---------------------------------------------------------------------------
  // Properties of one output picture
  // ---------------------------------------------------------------------------

  /** An output picture has the size the video writer expects, one drawing call per box, the
      annotated picture on the right when side by side, and, when the list is on, one line per box
      holding that box's text, starting at the top-left corner of the output (over the original
      picture when side by side). */
  lemma ComposeShape(f: FrameInput, m: map<BoxKey, Entry>, cfg: Config, thr: Option<Thresholds>)
    requires WellSized(f)
    ensures var (out, _) := Compose(f, m, cfg, thr);
      var ds := BoxesOf(AnnotateFrame(f.vessels, m, f.width, f.height, cfg, thr).0);
      out.size == OutputSize(f.width, f.height, cfg.sideBySide) &&
      out.annotatedX + f.width == out.size.width &&
      |out.boxes| == |ds| &&
      (cfg.showTopLeftList ==> (|out.list| == |ds| &&
        forall i :: 0 <= i < |ds| ==> out.list[i].text == ds[i].text && out.list[i].x == 10)) &&
      (!cfg.showTopLeftList ==> out.list == [])
  {
    var ds := BoxesOf(AnnotateFrame(f.vessels, m, f.width, f.height, cfg, thr).0);
    ComposedMatchesWriter(Size(f.width, f.height), cfg.sideBySide);
    if cfg.showTopLeftList {
      ListLayoutShape(Texts(ds), LineStep(ListFontScale(cfg.fontScale)));
    }
  }

  /** A frame without vessels is written as it was read: no boxes and an empty list. */
  lemma NoVesselNoBoxes(f: FrameInput, m: map<BoxKey, Entry>, cfg: Config, thr: Option<Thresholds>)
    requires WellSized(f) && f.vessels == []
    ensures Compose(f, m, cfg, thr).0.boxes == [] && Compose(f, m, cfg, thr).0.list == []
    ensures Compose(f, m, cfg, thr).1 == m
  {
  }

  /** Without debouncing the output of a frame does not depend on the frames before it, and the
      map is left as it was. */
  lemma ComposeWithoutDebounce(f: FrameInput, m1: map<BoxKey, Entry>, m2: map<BoxKey, Entry>, cfg: Config, thr: Option<Thresholds>)
    requires WellSized(f) && !cfg.debounceEnabled
    ensures Compose(f, m1, cfg, thr).0 == Compose(f, m2, cfg, thr).0
    ensures Compose(f, m1, cfg, thr).1 == m1
  {
    if f.vessels != [] {
      RenderWithoutDebounce(Plan(f.vessels, f.width, f.height, cfg), m1, m2, f.width, f.height, cfg, thr);
    }
  }

  /** Without debouncing every picture of a video is the picture of its frame on its own, and
      the map is left as it was. */
  lemma VideoWithoutDebounce(frames: seq<FrameInput>, m: map<BoxKey, Entry>, cfg: Config, thr: Option<Thresholds>)
    requires forall k :: 0 <= k < |frames| ==> WellSized(frames[k])
    requires !cfg.debounceEnabled
    ensures forall k :: 0 <= k < |frames| ==> PictureAt(frames, k, m, cfg, thr) == Compose(frames[k], map[], cfg, thr).0
    ensures MapAfter(frames, m, cfg, thr) == m
  {
    MapAfterWithoutDebounce(frames, m, cfg, thr);
    forall k | 0 <= k < |frames|
      ensures PictureAt(frames, k, m, cfg, thr) == Compose(frames[k], map[], cfg, thr).0
    {
      MapAfterWithoutDebounce(frames[..k], m, cfg, thr);
      ComposeWithoutDebounce(frames[k], m, map[], cfg, thr);
    }
  }

  /** Without debouncing no frame changes the map. */
  lemma {:induction false} MapAfterWithoutDebounce(frames: seq<FrameInput>, m: map<BoxKey, Entry>, cfg: Config, thr: Option<Thresholds>)
    requires forall k :: 0 <= k < |frames| ==> WellSized(frames[k])
    requires !cfg.debounceEnabled
    ensures MapAfter(frames, m, cfg, thr) == m
    decreases |frames|
  {
    if frames != [] {
      var n := |frames| - 1;
      MapAfterWithoutDebounce(frames[..n], m, cfg, thr);
      ComposeWithoutDebounce(frames[n], m, m, cfg, thr);
    }
  }

  /** Every map the video passes from frame to frame keeps the debounce invariant. */
  lemma {:induction false} MapAfterKeepsInv(frames: seq<FrameInput>, m: map<BoxKey, Entry>, cfg: Config, thr: Option<Thresholds>)
    requires forall k :: 0 <= k < |frames| ==> WellSized(frames[k])
    requires MapInv(m)
    ensures MapInv(MapAfter(frames, m, cfg, thr))
    decreases |frames|
  {
    if frames != [] {
      var n := |frames| - 1;
      MapAfterKeepsInv(frames[..n], m, cfg, thr);
      var m1 := MapAfter(frames[..n], m, cfg, thr);
      var f := frames[n];
      if f.vessels != [] {
        RenderKeepsInv(Plan(f.vessels, f.width, f.height, cfg), m1, f.width, f.height, cfg, thr);
      }
    }
  }

  // ---------------------------------------------------------------------------
  // The running program
  // ---------------------------------------------------------------------------

  /** The state the program keeps between frames and between files. */
  class Annotator {
    const debounce: DebounceMap
    /** The texts of the boxes of the last frame, for the top-left list. */
    var lastFrameBboxes: seq<string>

    ghost predicate Valid()
      reads this, debounce
    {
      debounce.Valid()
    }

    constructor ()
      ensures Valid() && fresh(debounce)
      ensures debounce.entries == map[] && lastFrameBboxes == []
    {
      debounce := new DebounceMap();
      lastFrameBboxes := [];
    }

    /** Measures one liquid box, stepping its debounce entry when debouncing is on. */
    method MeasureLiquidOverlay(b: Box, w: int, h: int, stats: Measurement, cfg: Config, thr: Option<Thresholds>)
      returns (s: string)
      requires Valid() && w >= 0 && h >= 0
      modifies debounce
      ensures Valid()
      ensures (s, debounce.entries) == Measure(old(debounce.entries), b, w, h, stats, cfg, thr)
    {
      if CropIsEmpty(b, w, h) {
        return "";
      }
      var volume := VolumeFraction(b.y2 - b.y1, h);
      var (showT, showC, showV) := Decisions(cfg, thr, stats.avgVal, stats.avgHue, volume);
      if !cfg.debounceEnabled {
        return BuildLabelStr(stats.avgVal, stats.avgHue, volume, showT, showC, showV);
      }
      var t, c, v := debounce.Update(KeyOf(b), showT, showC, showV, stats.avgVal, stats.avgHue, volume);
      s := BuildLabelStr(t, c, v, t > 0.0, c > 0.0, v > 0.0);
    }

    /** The detection loop over one frame: vessels in order, each followed by its contents; then
        the boxes are drawn and their texts kept for the top-left list. No result when no vessel
        was found. */
    method RunDetectionOnFrame(w: int, h: int, vs: seq<VesselInput>, cfg: Config, thr: Option<Thresholds>)
      returns (r: Option<seq<Drawable>>, ops: seq<DrawOp>)
      requires Valid() && w >= 0 && h >= 0
      modifies this, debounce
      ensures Valid()
      ensures (r, debounce.entries) == AnnotateFrame(vs, old(debounce.entries), w, h, cfg, thr)
      ensures ops == BoxOps(BoxesOf(r))
      ensures lastFrameBboxes == Texts(BoxesOf(r))
    {
      lastFrameBboxes := [];
      if |vs| == 0 {
        return None, [];
      }
      ghost var m0 := debounce.entries;
      var all: seq<Drawable> := [];
      var i := 0;
      while i < |vs|
        invariant 0 <= i <= |vs|
        invariant Valid()
        invariant (all, debounce.entries) == Render(Plan(vs[..i], w, h, cfg), m0, w, h, cfg, thr)
      {
        all := AddVesselWithContents(vs, i, w, h, cfg, thr, all, m0);
        i := i + 1;
      }
      assert vs[..i] == vs;
      ops := DrawBoxes(all);
      lastFrameBboxes := Texts(all);
      r := Some(all);
    }

    /** One step of the detection loop: vessel `i`, then its contents when its crop is not
        empty. */
    method AddVesselWithContents(vs: seq<VesselInput>, i: int, w: int, h: int, cfg: Config, thr: Option<Thresholds>,
                                 all: seq<Drawable>, ghost m0: map<BoxKey, Entry>)
      returns (all': seq<Drawable>)
      requires Valid() && w >= 0 && h >= 0 && 0 <= i < |vs|
      requires (all, debounce.entries) == Render(Plan(vs[..i], w, h, cfg), m0, w, h, cfg, thr)
      modifies debounce
      ensures Valid()
      ensures (all', debounce.entries) == Render(Plan(vs[..i + 1], w, h, cfg), m0, w, h, cfg, thr)
    {
      var v := vs[i];
      ghost var done := Plan(vs[..i], w, h, cfg);
      var region;
      all', region := AddVessel(v.det, w, h, cfg, thr, all, done, m0);
      ghost var head := done + VesselHead(v.det, w, h, cfg);
      assert (all', debounce.entries) == Render(head, m0, w, h, cfg, thr);
      if !CropIsEmpty(region, w, h) {
        all' := AddContents(v.contents, region, w, h, cfg, thr, all', head, m0);
      } else {
        assert head + [] == head;
      }
      PlanSnocParts(vs, i, w, h, cfg);
    }

    /** One vessel of the detection loop: unless the vessel stage hides it, its box is clipped
        and appended with its class and confidence. Returns the region its contents are cropped
        from: the clipped box, or the raw box of a hidden vessel. */
    method AddVessel(d: Detection, w: int, h: int, cfg: Config, thr: Option<Thresholds>,
                     all: seq<Drawable>, ghost done: seq<Item>, ghost m0: map<BoxKey, Entry>)
      returns (all': seq<Drawable>, region: Box)
      requires w >= 0 && h >= 0
      requires all == Render(done, m0, w, h, cfg, thr).0
      ensures region == VesselRegion(d, w, h, cfg)
      ensures all' == Render(done + VesselHead(d, w, h, cfg), m0, w, h, cfg, thr).0
      ensures Render(done + VesselHead(d, w, h, cfg), m0, w, h, cfg, thr).1 == Render(done, m0, w, h, cfg, thr).1
    {
      region := d.box;
      if VesselBoxHidden(d.className, cfg.classes) {
        assert done + VesselHead(d, w, h, cfg) == done;
        return all, region;
      }
      region := ClipBox(d.box, w, h);
      assert VesselHead(d, w, h, cfg) == [VesselItem(region, d)];
      RenderSnoc(done, VesselItem(region, d), m0, w, h, cfg, thr);
      all' := all + [Drawable(region, BaseText(d))];
    }

    /** The contents of one vessel whose crop is not empty, in order. */
    method AddContents(cs: seq<ContentInput>, region: Box, w: int, h: int, cfg: Config, thr: Option<Thresholds>,
                       all: seq<Drawable>, ghost head: seq<Item>, ghost m0: map<BoxKey, Entry>)
      returns (all': seq<Drawable>)
      requires Valid() && w >= 0 && h >= 0
      requires (all, debounce.entries) == Render(head, m0, w, h, cfg, thr)
      modifies debounce
      ensures Valid()
      ensures (all', debounce.entries) == Render(head + ContentItems(cs, region, w, h, cfg), m0, w, h, cfg, thr)
    {
      all' := all;
      var j := 0;
      assert cs[..j] == [];
      assert head + ContentItems(cs[..j], region, w, h, cfg) == head;
      while j < |cs|
        invariant 0 <= j <= |cs|
        invariant Valid()
        invariant (all', debounce.entries) == Render(head + ContentItems(cs[..j], region, w, h, cfg), m0, w, h, cfg, thr)
      {
        all' := AddContentAt(cs, j, region, w, h, cfg, thr, all', head, m0);
        j := j + 1;
      }
      assert cs[..j] == cs;
    }

    /** One step of the inner loop: content detection `j` of the vessel. */
    method AddContentAt(cs: seq<ContentInput>, j: int, region: Box, w: int, h: int, cfg: Config, thr: Option<Thresholds>,
                        all: seq<Drawable>, ghost head: seq<Item>, ghost m0: map<BoxKey, Entry>)
      returns (all': seq<Drawable>)
      requires Valid() && w >= 0 && h >= 0 && 0 <= j < |cs|
      requires (all, debounce.entries) == Render(head + ContentItems(cs[..j], region, w, h, cfg), m0, w, h, cfg, thr)
      modifies debounce
      ensures Valid()
      ensures (all', debounce.entries) == Render(head + ContentItems(cs[..j + 1], region, w, h, cfg), m0, w, h, cfg, thr)
    {
      ContentItemsSnoc(cs, j, region, w, h, cfg);
      ghost var before := head + ContentItems(cs[..j], region, w, h, cfg);
      assert head + ContentItems(cs[..j + 1], region, w, h, cfg) == before + ContentStep(cs[j], region, w, h, cfg);
      all' := AddContent(cs[j], region, w, h, cfg, thr, all, before, m0);
    }

    /** One content detection of the detection loop: moved into the frame and clipped, then,
        unless its class is hidden, given its text (measured when it is a liquid and the overlay
        is on) and appended to the boxes. */
    method AddContent(c: ContentInput, region: Box, w: int, h: int, cfg: Config, thr: Option<Thresholds>,
                      all: seq<Drawable>, ghost before: seq<Item>, ghost m0: map<BoxKey, Entry>)
      returns (all': seq<Drawable>)
      requires Valid() && w >= 0 && h >= 0
      requires (all, debounce.entries) == Render(before, m0, w, h, cfg, thr)
      modifies debounce
      ensures Valid()
      ensures (all', debounce.entries) == Render(before + ContentStep(c, region, w, h, cfg), m0, w, h, cfg, thr)
    {
      var cb := ClipBox(Offset(c.det.box, region.x1, region.y1), w, h);
      if !ClassLabelIsVisible(c.det.className, cfg.classes) {
        assert before + ContentStep(c, region, w, h, cfg) == before;
        return all;
      }
      var it := ContentItem(cb, c.det, c.stats);
      assert ContentStep(c, region, w, h, cfg) == [it];
      ghost var m1 := debounce.entries;
      RenderSnoc(before, it, m0, w, h, cfg, thr);
      var text := BaseText(c.det);
      if cfg.advancedOverlay && IsLiquidLabel(c.det.className) {
        var s := MeasureLiquidOverlay(cb, w, h, c.stats, cfg, thr);
        if s != "" {
          text := text + " | " + s;
        }
      }
      assert RenderItem(it, m1, w, h, cfg, thr) == (Drawable(cb, text), debounce.entries);
      all' := all + [Drawable(cb, text)];
    }

    /** One image: a single frame, drawn on, combined and listed as configured. The debounce map
        is not cleared first. */
    method ProcessImage(f: FrameInput, cfg: Config, thr: Option<Thresholds>) returns (out: OutputFrame)
      requires Valid() && WellSized(f)
      modifies this, debounce
      ensures Valid()
      ensures (out, debounce.entries) == Compose(f, old(debounce.entries), cfg, thr)
      ensures lastFrameBboxes == FrameTexts(f, old(debounce.entries), cfg, thr)
    {
      out := Produce(f, cfg, thr);
    }

    /** One frame through detection, side-by-side composition and the top-left list. */
    method Produce(f: FrameInput, cfg: Config, thr: Option<Thresholds>) returns (out: OutputFrame)
      requires Valid() && WellSized(f)
      modifies this, debounce
      ensures Valid()
      ensures (out, debounce.entries) == Compose(f, old(debounce.entries), cfg, thr)
      ensures lastFrameBboxes == FrameTexts(f, old(debounce.entries), cfg, thr)
    {
      ghost var a := AnnotateFrame(f.vessels, debounce.entries, f.width, f.height, cfg, thr);
      assert Compose(f, debounce.entries, cfg, thr) == (Picture(f, BoxesOf(a.0), cfg), a.1);
      var r, ops := RunDetectionOnFrame(f.width, f.height, f.vessels, cfg, thr);
      assert r == a.0 && debounce.entries == a.1;
      var lines := lastFrameBboxes;
      assert lines == Texts(BoxesOf(r));
      var size := Size(f.width, f.height);
      var x := 0;
      if cfg.sideBySide {
        size := CombineSideBySide(size, size);
        x := f.width;
      }
      var list: seq<Placed> := [];
      if cfg.showTopLeftList {
        list := DrawTopLeftList(lines, ListFontScale(cfg.fontScale));
      }
      out := OutputFrame(size, x, ops, list);
      assert size == ComposedSize(Size(f.width, f.height), cfg.sideBySide);
      assert list == (if cfg.showTopLeftList then ListLayout(Texts(BoxesOf(r)), LineStep(ListFontScale(cfg.fontScale))) else []);
      assert out == Picture(f, BoxesOf(r), cfg);
    }

    /** Frame `i` of a video, given the map the frames before it left: its picture, the map
        after it, and its texts in the list. */
    method ProcessVideoFrame(frames: seq<FrameInput>, i: int, cfg: Config, thr: Option<Thresholds>)
      returns (out: OutputFrame)
      requires Valid() && forall k :: 0 <= k < |frames| ==> WellSized(frames[k])
      requires 0 <= i < |frames| && debounce.entries == MapAfter(frames[..i], map[], cfg, thr)
      modifies this, debounce
      ensures Valid()
      ensures out == PictureAt(frames, i, map[], cfg, thr)
      ensures debounce.entries == MapAfter(frames[..i + 1], map[], cfg, thr)
      ensures lastFrameBboxes == FrameTexts(frames[i], MapAfter(frames[..i], map[], cfg, thr), cfg, thr)
    {
      ghost var next := Compose(frames[i], debounce.entries, cfg, thr);
      MapAfterSnoc(frames, i, map[], cfg, thr);
      out := Produce(frames[i], cfg, thr);
      assert out == next.0 && debounce.entries == next.1;
    }

    /** One video: the map is cleared, then every frame is processed in order and the progress
        line is produced after each. Returns the writer's frame size and rate, the pictures
        written and the progress lines. */
    method ProcessVideo(frames: seq<FrameInput>, width: int, height: int, totalFrames: int, fps: real,
                        cfg: Config, thr: Option<Thresholds>)
      returns (size: Size, rate: real, outs: seq<OutputFrame>, progress: seq<Option<string>>)
      requires Valid() && forall k :: 0 <= k < |frames| ==> WellSized(frames[k])
      modifies this, debounce
      ensures Valid()
      ensures size == OutputSize(width, height, cfg.sideBySide) && rate == OutputFps(fps)
      ensures |outs| == |frames| && forall k :: 0 <= k < |frames| ==> outs[k] == PictureAt(frames, k, map[], cfg, thr)
      ensures debounce.entries == MapAfter(frames, map[], cfg, thr)
      ensures |progress| == |frames|
      ensures forall k :: 0 <= k < |frames| ==> progress[k] == ProgressLine(k + 1, totalFrames)
      ensures lastFrameBboxes == TextsAfter(frames, |frames|, map[], cfg, thr, old(lastFrameBboxes))
    {
      debounce.Clear();
      size := OutputSize(width, height, cfg.sideBySide);
      rate := OutputFps(fps);
      outs, progress := ProcessFrames(frames, totalFrames, cfg, thr);
      PicturesUpToAll(frames, map[], cfg, thr);
      ProgressLinesAt(|frames|, totalFrames);
    }

    /** The frame loop of a video, run on a cleared map. */
    method ProcessFrames(frames: seq<FrameInput>, totalFrames: int, cfg: Config, thr: Option<Thresholds>)
      returns (outs: seq<OutputFrame>, progress: seq<Option<string>>)
      requires Valid() && forall k :: 0 <= k < |frames| ==> WellSized(frames[k])
      requires debounce.entries == map[]
      modifies this, debounce
      ensures Valid()
      ensures outs == PicturesUpTo(frames, |frames|, map[], cfg, thr)
      ensures debounce.entries == MapAfter(frames, map[], cfg, thr)
      ensures progress == ProgressLines(|frames|, totalFrames)
      ensures lastFrameBboxes == TextsAfter(frames, |frames|, map[], cfg, thr, old(lastFrameBboxes))
    {
      outs, progress := [], [];
      var frameIdx := 0;
      assert frames[..0] == [];
      while frameIdx < |frames|
        invariant 0 <= frameIdx <= |frames|
        invariant Valid()
        invariant outs == PicturesUpTo(frames, frameIdx, map[], cfg, thr)
        invariant debounce.entries == MapAfter(frames[..frameIdx], map[], cfg, thr)
        invariant progress == ProgressLines(frameIdx, totalFrames)
        invariant lastFrameBboxes == TextsAfter(frames, frameIdx, map[], cfg, thr, old(lastFrameBboxes))
      {
        var out := ProcessVideoFrame(frames, frameIdx, cfg, thr);
        outs := outs + [out];
        frameIdx := frameIdx + 1;
        progress := progress + [ProgressLine(frameIdx, totalFrames)];
      }
      assert frames[..frameIdx] == frames;
    }
  }
}

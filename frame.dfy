/** The assembly of one frame's drawable boxes from the two detection stages, as
    functions on values. `Plan` gives, in order, what is drawn and where (geometry and
    class visibility only); `Render` then gives each item its text, threading the
    debounce map through the liquid measurements in the same order. */
module Frame {
  import opened Text
  import opened Geometry
  import opened Policy
  import opened Debounce
  import opened Overlay
  import opened Wrappers

  /** A detector result: an integer box, a confidence and a class name. */
  datatype Detection = Detection(box: Box, confidence: real, className: string)

  /** A content detection in crop-local coordinates, with the pixel statistics of the
      region it covers once moved into the frame. */
  datatype ContentInput = ContentInput(det: Detection, stats: Measurement)

  /** A vessel detection with what the content stage finds in its crop. */
  datatype VesselInput = VesselInput(det: Detection, contents: seq<ContentInput>)

  /** A box to draw and its text, as collected in `all_boxes`. */
  datatype Drawable = Drawable(box: Box, text: string)

  /** What one frame draws, before texts are given: a vessel box or a content box, with the
      frame box it is drawn at. */
  datatype Item =
    | VesselItem(box: Box, det: Detection)
    | ContentItem(box: Box, det: Detection, stats: Measurement)

  /** A box's text before any measurement: the class name and the confidence to two places. */
  function BaseText(d: Detection): string {
    d.className + " " + Fixed(d.confidence, 2)
  }

  // ---------------------------------------------------------------------------
  // Plan: the ordered items of a frame
  // ---------------------------------------------------------------------------

  /** The vessel box the contents are cropped from and offset by: clipped when the vessel is
      drawn, left raw when the vessel stage hides it. */
  function VesselRegion(d: Detection, w: int, h: int, cfg: Config): (r: Box)
    requires w >= 0 && h >= 0
    ensures !VesselBoxHidden(d.className, cfg.classes) ==> InBounds(r, w, h)
  {
    if VesselBoxHidden(d.className, cfg.classes) then d.box else ClipBox(d.box, w, h)
  }

  /** A hidden vessel is cropped and offset by its raw detector box, a drawn one by its clipped
      box. */
  lemma VesselRegionCases(d: Detection, w: int, h: int, cfg: Config)
    requires w >= 0 && h >= 0
    ensures VesselBoxHidden(d.className, cfg.classes) ==> VesselRegion(d, w, h, cfg) == d.box
    ensures !VesselBoxHidden(d.className, cfg.classes) ==> VesselRegion(d, w, h, cfg) == ClipBox(d.box, w, h)
  {
  }

  /** The vessel's own item: none when hidden. */
  function VesselHead(d: Detection, w: int, h: int, cfg: Config): seq<Item>
    requires w >= 0 && h >= 0
  {
    if VesselBoxHidden(d.className, cfg.classes) then [] else [VesselItem(VesselRegion(d, w, h, cfg), d)]
  }

  /** One content detection: moved by the region's top-left corner, clipped to the frame, and
      dropped when its class is hidden. */
  function ContentStep(c: ContentInput, region: Box, w: int, h: int, cfg: Config): seq<Item>
    requires w >= 0 && h >= 0
  {
    if ClassLabelIsVisible(c.det.className, cfg.classes)
    then [ContentItem(ClipBox(Offset(c.det.box, region.x1, region.y1), w, h), c.det, c.stats)]
    else []
  }

  /** The content detections of one vessel, in detection order. */
  function ContentItems(cs: seq<ContentInput>, region: Box, w: int, h: int, cfg: Config): seq<Item>
    requires w >= 0 && h >= 0
    decreases |cs|
  {
    if cs == [] then []
    else ContentItems(cs[..|cs| - 1], region, w, h, cfg) + ContentStep(cs[|cs| - 1], region, w, h, cfg)
  }

  /** One vessel's items: its own box, then its contents, unless its crop is empty. */
  function VesselItems(v: VesselInput, w: int, h: int, cfg: Config): seq<Item>
    requires w >= 0 && h >= 0
  {
    var region := VesselRegion(v.det, w, h, cfg);
    VesselHead(v.det, w, h, cfg) +
    (if CropIsEmpty(region, w, h) then [] else ContentItems(v.contents, region, w, h, cfg))
  }

  /** The items of a frame: each vessel's items in turn, in detection order. */
  function Plan(vs: seq<VesselInput>, w: int, h: int, cfg: Config): seq<Item>
    requires w >= 0 && h >= 0
    decreases |vs|
  {
    if vs == [] then [] else Plan(vs[..|vs| - 1], w, h, cfg) + VesselItems(vs[|vs| - 1], w, h, cfg)
  }

  // ---------------------------------------------------------------------------
  // Render: texts, and the debounce map after the frame
  // ---------------------------------------------------------------------------

  /** One item's drawable and the map after it: a liquid content box, when the overlay is on,
      is measured and gets " | " and its measurement text appended if that text is not empty. */
  function RenderItem(it: Item, m: map<BoxKey, Entry>, w: int, h: int, cfg: Config, thr: Option<Thresholds>)
    : (r: (Drawable, map<BoxKey, Entry>))
    requires w >= 0 && h >= 0
    ensures r.0.box == it.box
    ensures MapInv(m) ==> MapInv(r.1)
    ensures IsPrefix(BaseText(it.det), r.0.text)
    ensures it.VesselItem? || !cfg.advancedOverlay ==> r == (Drawable(it.box, BaseText(it.det)), m)
  {
    match it
    case VesselItem(b, d) => (Drawable(b, BaseText(d)), m)
    case ContentItem(b, d, stats) =>
      if cfg.advancedOverlay && IsLiquidLabel(d.className) then
        var (s, m') := Measure(m, b, w, h, stats, cfg, thr);
        (Drawable(b, if s != "" then BaseText(d) + " | " + s else BaseText(d)), m')
      else (Drawable(b, BaseText(d)), m)
  }

  /** The drawables of a sequence of items, in order, and the map after the last. */
  function Render(items: seq<Item>, m: map<BoxKey, Entry>, w: int, h: int, cfg: Config, thr: Option<Thresholds>)
    : (seq<Drawable>, map<BoxKey, Entry>)
    requires w >= 0 && h >= 0
    decreases |items|
  {
    if items == [] then ([], m)
    else
      var (ds, m1) := Render(items[..|items| - 1], m, w, h, cfg, thr);
      var (d, m2) := RenderItem(items[|items| - 1], m1, w, h, cfg, thr);
      (ds + [d], m2)
  }

  /** One frame: no result when no vessel was found, otherwise the rendered plan. */
  function AnnotateFrame(vs: seq<VesselInput>, m: map<BoxKey, Entry>, w: int, h: int, cfg: Config, thr: Option<Thresholds>)
    : (Option<seq<Drawable>>, map<BoxKey, Entry>)
    requires w >= 0 && h >= 0
  {
    if vs == [] then (None, m)
    else
      var (ds, m') := Render(Plan(vs, w, h, cfg), m, w, h, cfg, thr);
      (Some(ds), m')
  }

  /** The texts of the drawables, in order (`last_frame_bboxes`). */
  function Texts(ds: seq<Drawable>): (r: seq<string>)
    ensures |r| == |ds| && forall i :: 0 <= i < |ds| ==> r[i] == ds[i].text
  {
    if ds == [] then [] else Texts(ds[..|ds| - 1]) + [ds[|ds| - 1].text]
  }

  // ---------------------------------------------------------------------------
  // One step at a time, as the detection loops take them
  // ---------------------------------------------------------------------------

  /** The items of one vessel more. */
  lemma PlanSnoc(vs: seq<VesselInput>, i: int, w: int, h: int, cfg: Config)
    requires w >= 0 && h >= 0 && 0 <= i < |vs|
    ensures Plan(vs[..i + 1], w, h, cfg) == Plan(vs[..i], w, h, cfg) + VesselItems(vs[i], w, h, cfg)
  {
    assert vs[..i + 1][..i] == vs[..i];
  }

  /** The items of one vessel more, split as the detection loop builds them: the vessel's own
      item, then its contents unless the crop is empty. */
  lemma PlanSnocParts(vs: seq<VesselInput>, i: int, w: int, h: int, cfg: Config)
    requires w >= 0 && h >= 0 && 0 <= i < |vs|
    ensures var region := VesselRegion(vs[i].det, w, h, cfg);
      Plan(vs[..i + 1], w, h, cfg)
        == (Plan(vs[..i], w, h, cfg) + VesselHead(vs[i].det, w, h, cfg))
           + (if CropIsEmpty(region, w, h) then [] else ContentItems(vs[i].contents, region, w, h, cfg))
  {
    PlanSnoc(vs, i, w, h, cfg);
  }

  /** The items of one content detection more. */
  lemma ContentItemsSnoc(cs: seq<ContentInput>, j: int, region: Box, w: int, h: int, cfg: Config)
    requires w >= 0 && h >= 0 && 0 <= j < |cs|
    ensures ContentItems(cs[..j + 1], region, w, h, cfg) == ContentItems(cs[..j], region, w, h, cfg) + ContentStep(cs[j], region, w, h, cfg)
  {
    assert cs[..j + 1][..j] == cs[..j];
  }

  /** Rendering one item more extends the drawables by that item's drawable and moves the map on
      by that item's measurement. */
  lemma RenderSnoc(items: seq<Item>, it: Item, m: map<BoxKey, Entry>, w: int, h: int, cfg: Config, thr: Option<Thresholds>)
    requires w >= 0 && h >= 0
    ensures var (ds, m1) := Render(items, m, w, h, cfg, thr);
      var (d, m2) := RenderItem(it, m1, w, h, cfg, thr);
      Render(items + [it], m, w, h, cfg, thr) == (ds + [d], m2)
  {
    assert (items + [it])[..|items|] == items;
  }

  // ---------------------------------------------------------------------------
  // Properties of Plan
  // ---------------------------------------------------------------------------

  /** The items of each vessel, vessel by vessel. */
  function PerVessel(vs: seq<VesselInput>, w: int, h: int, cfg: Config): (r: seq<seq<Item>>)
    requires w >= 0 && h >= 0
    ensures |r| == |vs| && forall i :: 0 <= i < |vs| ==> r[i] == VesselItems(vs[i], w, h, cfg)
  {
    seq(|vs|, i requires 0 <= i < |vs| => VesselItems(vs[i], w, h, cfg))
  }

  /** The plan is the concatenation, in detection order, of the vessels' own item lists. */
  lemma {:induction false} PlanIsFlatten(vs: seq<VesselInput>, w: int, h: int, cfg: Config)
    requires w >= 0 && h >= 0
    ensures Plan(vs, w, h, cfg) == Flatten(PerVessel(vs, w, h, cfg))
    decreases |vs|
  {
    if vs != [] {
      var n := |vs| - 1;
      PlanIsFlatten(vs[..n], w, h, cfg);
      assert PerVessel(vs, w, h, cfg)[..n] == PerVessel(vs[..n], w, h, cfg);
    }
  }

  /** The per-vessel lists of the first vessels are the first per-vessel lists. */
  lemma PerVesselTake(vs: seq<VesselInput>, i: int, w: int, h: int, cfg: Config)
    requires w >= 0 && h >= 0 && 0 <= i <= |vs|
    ensures PerVessel(vs, w, h, cfg)[..i] == PerVessel(vs[..i], w, h, cfg)
  {
    var xs := PerVessel(vs, w, h, cfg)[..i];
    var ys := PerVessel(vs[..i], w, h, cfg);
    forall k | 0 <= k < i
      ensures xs[k] == ys[k]
    {
      assert vs[..i][k] == vs[k];
    }
  }

  /** The per-vessel lists of the last vessels are the last per-vessel lists. */
  lemma PerVesselDrop(vs: seq<VesselInput>, i: int, w: int, h: int, cfg: Config)
    requires w >= 0 && h >= 0 && 0 <= i <= |vs|
    ensures PerVessel(vs, w, h, cfg)[i..] == PerVessel(vs[i..], w, h, cfg)
  {
    var xs := PerVessel(vs, w, h, cfg)[i..];
    var ys := PerVessel(vs[i..], w, h, cfg);
    forall k | 0 <= k < |vs| - i
      ensures xs[k] == ys[k]
    {
      assert vs[i..][k] == vs[i + k];
    }
  }

  /** Detection order: the items of vessel `i` come after those of every earlier vessel and
      before those of every later one. */
  lemma PlanOrder(vs: seq<VesselInput>, i: int, w: int, h: int, cfg: Config)
    requires w >= 0 && h >= 0 && 0 <= i < |vs|
    ensures Plan(vs, w, h, cfg) == Plan(vs[..i], w, h, cfg) + VesselItems(vs[i], w, h, cfg) + Plan(vs[i + 1..], w, h, cfg)
  {
    var xs := PerVessel(vs, w, h, cfg);
    PlanIsFlatten(vs, w, h, cfg);
    PlanIsFlatten(vs[..i], w, h, cfg);
    PlanIsFlatten(vs[i + 1..], w, h, cfg);
    PerVesselTake(vs, i, w, h, cfg);
    PerVesselDrop(vs, i + 1, w, h, cfg);
    FlattenSplit(xs, i);
  }

  /** Among a vessel's items its own box, when drawn, comes first, clipped to the frame. */
  lemma VesselItemsStartWithVessel(v: VesselInput, w: int, h: int, cfg: Config)
    requires w >= 0 && h >= 0
    ensures !VesselBoxHidden(v.det.className, cfg.classes) <==>
      |VesselItems(v, w, h, cfg)| > 0 && VesselItems(v, w, h, cfg)[0].VesselItem?
    ensures !VesselBoxHidden(v.det.className, cfg.classes) ==>
      VesselItems(v, w, h, cfg)[0] == VesselItem(ClipBox(v.det.box, w, h), v.det)
  {
    var region := VesselRegion(v.det, w, h, cfg);
    if !CropIsEmpty(region, w, h) {
      ContentItemsInBounds(v.contents, region, w, h, cfg);
    }
  }

  /** When every content class is visible, a vessel's content items are its content detections
      one for one, in detection order, each moved by the region's corner and clipped. */
  lemma {:induction false} ContentItemsAllVisible(cs: seq<ContentInput>, region: Box, w: int, h: int, cfg: Config)
    requires w >= 0 && h >= 0
    requires forall j :: 0 <= j < |cs| ==> ClassLabelIsVisible(cs[j].det.className, cfg.classes)
    ensures |ContentItems(cs, region, w, h, cfg)| == |cs|
    ensures forall j :: 0 <= j < |cs| ==>
      ContentItems(cs, region, w, h, cfg)[j] ==
        ContentItem(ClipBox(Offset(cs[j].det.box, region.x1, region.y1), w, h), cs[j].det, cs[j].stats)
    decreases |cs|
  {
    if cs != [] {
      var n := |cs| - 1;
      ContentItemsAllVisible(cs[..n], region, w, h, cfg);
      var step := ContentItem(ClipBox(Offset(cs[n].det.box, region.x1, region.y1), w, h), cs[n].det, cs[n].stats);
      assert ContentStep(cs[n], region, w, h, cfg) == [step];
      var items := ContentItems(cs, region, w, h, cfg);
      assert items == ContentItems(cs[..n], region, w, h, cfg) + [step];
      forall j | 0 <= j < |cs|
        ensures items[j] == ContentItem(ClipBox(Offset(cs[j].det.box, region.x1, region.y1), w, h), cs[j].det, cs[j].stats)
      {
        if j < n {
          assert cs[..n][j] == cs[j];
          assert items[j] == ContentItems(cs[..n], region, w, h, cfg)[j];
        } else {
          assert items[j] == step;
        }
      }
    }
  }

  /** Every item lies in the frame: drawn vessels are clipped, and so is every content box. */
  lemma {:induction false} PlanInBounds(vs: seq<VesselInput>, w: int, h: int, cfg: Config)
    requires w >= 0 && h >= 0
    ensures forall i :: 0 <= i < |Plan(vs, w, h, cfg)| ==> InBounds(Plan(vs, w, h, cfg)[i].box, w, h)
    decreases |vs|
  {
    if vs != [] {
      PlanInBounds(vs[..|vs| - 1], w, h, cfg);
      var v := vs[|vs| - 1];
      var region := VesselRegion(v.det, w, h, cfg);
      ContentItemsInBounds(v.contents, region, w, h, cfg);
    }
  }

  lemma {:induction false} ContentItemsInBounds(cs: seq<ContentInput>, region: Box, w: int, h: int, cfg: Config)
    requires w >= 0 && h >= 0
    ensures forall j :: 0 <= j < |ContentItems(cs, region, w, h, cfg)| ==>
      ContentItems(cs, region, w, h, cfg)[j].ContentItem? && InBounds(ContentItems(cs, region, w, h, cfg)[j].box, w, h)
    decreases |cs|
  {
    if cs != [] {
      ContentItemsInBounds(cs[..|cs| - 1], region, w, h, cfg);
    }
  }

  lemma {:induction false} ContentItemsVisible(cs: seq<ContentInput>, region: Box, w: int, h: int, cfg: Config)
    requires w >= 0 && h >= 0
    ensures forall j :: 0 <= j < |ContentItems(cs, region, w, h, cfg)| ==>
      ClassLabelIsVisible(ContentItems(cs, region, w, h, cfg)[j].det.className, cfg.classes)
    decreases |cs|
  {
    if cs != [] {
      ContentItemsVisible(cs[..|cs| - 1], region, w, h, cfg);
    }
  }

  /** Hidden classes never appear: every content item's class is visible, and no vessel item is
      one the vessel stage hides. */
  lemma {:induction false} PlanOnlyVisible(vs: seq<VesselInput>, w: int, h: int, cfg: Config)
    requires w >= 0 && h >= 0
    ensures forall i :: 0 <= i < |Plan(vs, w, h, cfg)| ==>
      var it := Plan(vs, w, h, cfg)[i];
      (it.ContentItem? ==> ClassLabelIsVisible(it.det.className, cfg.classes)) &&
      (it.VesselItem? ==> !VesselBoxHidden(it.det.className, cfg.classes))
    decreases |vs|
  {
    if vs != [] {
      PlanOnlyVisible(vs[..|vs| - 1], w, h, cfg);
      var v := vs[|vs| - 1];
      var region := VesselRegion(v.det, w, h, cfg);
      ContentItemsVisible(v.contents, region, w, h, cfg);
      ContentItemsInBounds(v.contents, region, w, h, cfg);
    }
  }

  /** A hidden vessel is not clipped, so its raw box decides the crop: a vessel hidden with its left
      edge at -10 in a 100 by 100 frame has an empty crop (columns 90 to 50) and loses its
      contents, which the same vessel, drawn and so clipped to column 0, keeps. */
  lemma HiddenVesselUsesRawBox(contents: seq<ContentInput>, cfg: Config)
    requires !cfg.classes.vessel && contents != []
    ensures var v := VesselInput(Detection(Box(-10, 0, 50, 50), 0.9, "vessel"), contents);
      VesselItems(v, 100, 100, cfg) == [] && CropIsEmpty(VesselRegion(v.det, 100, 100, cfg), 100, 100)
    ensures var v := VesselInput(Detection(Box(-10, 0, 50, 50), 0.9, "vessel"), contents);
      !CropIsEmpty(VesselRegion(v.det, 100, 100, cfg.(classes := cfg.classes.(vessel := true))), 100, 100)
  {
    assert Lower("vessel") == "vessel";
  }

  // ---------------------------------------------------------------------------
  // Properties of Render
  // ---------------------------------------------------------------------------

  /** A content box with the overlay on: a non-liquid keeps its "label conf" text and the map;
      a liquid is measured, its text gets " | " and the measurement appended unless that is
      empty, and the map becomes the one the measurement leaves. */
  lemma RenderContentItem(it: Item, m: map<BoxKey, Entry>, w: int, h: int, cfg: Config, thr: Option<Thresholds>)
    requires w >= 0 && h >= 0 && it.ContentItem? && cfg.advancedOverlay
    ensures var r := RenderItem(it, m, w, h, cfg, thr);
      (!IsLiquidLabel(it.det.className) ==> r == (Drawable(it.box, BaseText(it.det)), m)) &&
      (IsLiquidLabel(it.det.className) ==>
        var (s, m') := Measure(m, it.box, w, h, it.stats, cfg, thr);
        r.0.box == it.box && r.1 == m' &&
        r.0.text == (if s == "" then BaseText(it.det) else BaseText(it.det) + " | " + s))
  {
  }

  /** Rendering gives one drawable per item. */
  lemma {:induction false} RenderLength(items: seq<Item>, m: map<BoxKey, Entry>, w: int, h: int, cfg: Config, thr: Option<Thresholds>)
    requires w >= 0 && h >= 0
    ensures |Render(items, m, w, h, cfg, thr).0| == |items|
    decreases |items|
  {
    if items != [] {
      RenderLength(items[..|items| - 1], m, w, h, cfg, thr);
    }
  }

  /** The i-th drawable is the i-th item rendered with the map left by the items before it. */
  lemma {:induction false} RenderAt(items: seq<Item>, i: int, m: map<BoxKey, Entry>, w: int, h: int, cfg: Config, thr: Option<Thresholds>)
    requires w >= 0 && h >= 0 && 0 <= i < |items|
    ensures |Render(items, m, w, h, cfg, thr).0| == |items|
    ensures Render(items, m, w, h, cfg, thr).0[i] == RenderItem(items[i], Render(items[..i], m, w, h, cfg, thr).1, w, h, cfg, thr).0
    decreases |items|
  {
    var n := |items| - 1;
    RenderLength(items[..n], m, w, h, cfg, thr);
    if i < n {
      RenderAt(items[..n], i, m, w, h, cfg, thr);
      assert items[..n][..i] == items[..i] && items[..n][i] == items[i];
    } else {
      assert items[..i] == items[..n];
    }
  }

  /** Rendering gives one drawable per item, in order, at the item's box, whose text starts with
      the class name and confidence; a vessel's text is exactly that. */
  lemma RenderShape(items: seq<Item>, m: map<BoxKey, Entry>, w: int, h: int, cfg: Config, thr: Option<Thresholds>)
    requires w >= 0 && h >= 0
    ensures var ds := Render(items, m, w, h, cfg, thr).0;
      |ds| == |items| &&
      forall i :: 0 <= i < |items| ==>
        ds[i].box == items[i].box && IsPrefix(BaseText(items[i].det), ds[i].text) &&
        (items[i].VesselItem? ==> ds[i].text == BaseText(items[i].det))
  {
    RenderLength(items, m, w, h, cfg, thr);
    forall i | 0 <= i < |items|
      ensures var d := Render(items, m, w, h, cfg, thr).0[i];
        d.box == items[i].box && IsPrefix(BaseText(items[i].det), d.text) &&
        (items[i].VesselItem? ==> d.text == BaseText(items[i].det))
    {
      RenderAt(items, i, m, w, h, cfg, thr);
    }
  }

  /** Rendering keeps the debounce invariant. */
  lemma {:induction false} RenderKeepsInv(items: seq<Item>, m: map<BoxKey, Entry>, w: int, h: int, cfg: Config, thr: Option<Thresholds>)
    requires w >= 0 && h >= 0 && MapInv(m)
    ensures MapInv(Render(items, m, w, h, cfg, thr).1)
    decreases |items|
  {
    if items != [] {
      RenderKeepsInv(items[..|items| - 1], m, w, h, cfg, thr);
    }
  }

  /** Without debouncing a frame has no memory: its drawables do not depend on the map, and the
      map is left as it was. Annotating the same frame twice gives the same boxes. */
  lemma {:induction false} RenderWithoutDebounce(items: seq<Item>, m1: map<BoxKey, Entry>, m2: map<BoxKey, Entry>,
                                                 w: int, h: int, cfg: Config, thr: Option<Thresholds>)
    requires w >= 0 && h >= 0 && !cfg.debounceEnabled
    ensures Render(items, m1, w, h, cfg, thr).0 == Render(items, m2, w, h, cfg, thr).0
    ensures Render(items, m1, w, h, cfg, thr).1 == m1
    decreases |items|
  {
    if items != [] {
      RenderWithoutDebounce(items[..|items| - 1], m1, m2, w, h, cfg, thr);
      var it := items[|items| - 1];
      if it.ContentItem? {
        WithoutDebounceNoMemory(m1, m2, it.box, w, h, it.stats, cfg, thr);
      }
    }
  }

  /** With the overlay off nothing is measured: every text is the class name and confidence,
      and the map is left as it was. */
  lemma {:induction false} RenderOverlayOff(items: seq<Item>, m: map<BoxKey, Entry>, w: int, h: int, cfg: Config, thr: Option<Thresholds>)
    requires w >= 0 && h >= 0 && !cfg.advancedOverlay
    ensures Render(items, m, w, h, cfg, thr).1 == m
    ensures |Render(items, m, w, h, cfg, thr).0| == |items|
    ensures forall i :: 0 <= i < |items| ==> Render(items, m, w, h, cfg, thr).0[i].text == BaseText(items[i].det)
    decreases |items|
  {
    if items != [] {
      RenderOverlayOff(items[..|items| - 1], m, w, h, cfg, thr);
    }
    RenderLength(items, m, w, h, cfg, thr);
    forall i | 0 <= i < |items|
      ensures Render(items, m, w, h, cfg, thr).0[i].text == BaseText(items[i].det)
    {
      RenderAt(items, i, m, w, h, cfg, thr);
      RenderOverlayOff(items[..i], m, w, h, cfg, thr);
    }
  }

  // ---------------------------------------------------------------------------
  // Properties of a whole frame
  // ---------------------------------------------------------------------------

  /** A frame has no result exactly when no vessel was found, and then the map is untouched. */
  lemma NoneIffNoVessel(vs: seq<VesselInput>, m: map<BoxKey, Entry>, w: int, h: int, cfg: Config, thr: Option<Thresholds>)
    requires w >= 0 && h >= 0
    ensures AnnotateFrame(vs, m, w, h, cfg, thr).0.None? <==> vs == []
    ensures vs == [] ==> AnnotateFrame(vs, m, w, h, cfg, thr).1 == m
  {
  }

  /** The boxes of a frame are its plan's boxes, one for one and in order, all within the frame
      and none of a hidden class; the debounce invariant holds afterwards. */
  lemma AnnotateFrameShape(vs: seq<VesselInput>, m: map<BoxKey, Entry>, w: int, h: int, cfg: Config, thr: Option<Thresholds>)
    requires w >= 0 && h >= 0 && vs != [] && MapInv(m)
    ensures var items := Plan(vs, w, h, cfg);
      var (r, m') := AnnotateFrame(vs, m, w, h, cfg, thr);
      r.Some? && |r.value| == |items| && MapInv(m') &&
      forall i :: 0 <= i < |items| ==>
        r.value[i].box == items[i].box && InBounds(r.value[i].box, w, h) &&
        IsPrefix(BaseText(items[i].det), r.value[i].text) &&
        (items[i].ContentItem? ==> ClassLabelIsVisible(items[i].det.className, cfg.classes))
  {
    var items := Plan(vs, w, h, cfg);
    RenderShape(items, m, w, h, cfg, thr);
    RenderKeepsInv(items, m, w, h, cfg, thr);
    PlanInBounds(vs, w, h, cfg);
    PlanOnlyVisible(vs, w, h, cfg);
  }
}

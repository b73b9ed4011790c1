/** The visibility and threshold policy: which detected classes are drawn, which labels
    are liquids, and whether each of the turbidity (T), colour (C) and volume (V)
    measurements qualifies on the current frame. */
module Policy {
  import opened Text
  import opened Wrappers

  /** The per-class drawing toggles (show_label_vessel ... show_label_hetero). */
  datatype ClassToggles = ClassToggles(vessel: bool, solid: bool, residue: bool, empty: bool, homo: bool, hetero: bool)

  /** The per-metric toggles (show_metric_t, show_metric_c, show_metric_v). */
  datatype MetricToggles = MetricToggles(t: bool, c: bool, v: bool)

  /** The user's thresholds `(turb, color, volume, conf)`. */
  datatype Thresholds = Thresholds(minTurbidity: real, minHue: real, minVolume: real, minConfidence: real)

  /** The settings the pipeline reads, as one immutable value. */
  datatype Config = Config(
    advancedOverlay: bool,
    debounceEnabled: bool,
    classes: ClassToggles,
    metrics: MetricToggles,
    sideBySide: bool,
    showTopLeftList: bool,
    fontScale: real)

  // ---------------------------------------------------------------------------
  // Class visibility
  // ---------------------------------------------------------------------------

  /** The category names, in the order the lookup tries them. */
  const CategoryNames: seq<string> := ["vessel", "solid", "residue", "empty", "homo", "hetero"]

  /** The toggle of the `k`-th category of CategoryNames. */
  function CategoryToggle(c: ClassToggles, k: nat): bool
    requires k < |CategoryNames|
  {
    [c.vessel, c.solid, c.residue, c.empty, c.homo, c.hetero][k]
  }

  /** Whether boxes of the class `name` are drawn: the toggle of the first category whose
      name occurs in the lower-cased label; labels of no category are drawn. */
  function ClassLabelIsVisible(name: string, c: ClassToggles): bool {
    var lbl := Lower(name);
    if Contains(lbl, "vessel") then c.vessel
    else if Contains(lbl, "solid") then c.solid
    else if Contains(lbl, "residue") then c.residue
    else if Contains(lbl, "empty") then c.empty
    else if Contains(lbl, "homo") then c.homo
    else if Contains(lbl, "hetero") then c.hetero
    else true
  }

  /** The first category, in the order of CategoryNames, whose name occurs in the label decides. */
  lemma VisibleIsFirstMatch(name: string, c: ClassToggles, k: nat)
    requires k < |CategoryNames|
    requires Contains(Lower(name), CategoryNames[k])
    requires forall j :: 0 <= j < k ==> !Contains(Lower(name), CategoryNames[j])
    ensures ClassLabelIsVisible(name, c) == CategoryToggle(c, k)
  {
    if k > 0 { assert !Contains(Lower(name), CategoryNames[0]); }
    if k > 1 { assert !Contains(Lower(name), CategoryNames[1]); }
    if k > 2 { assert !Contains(Lower(name), CategoryNames[2]); }
    if k > 3 { assert !Contains(Lower(name), CategoryNames[3]); }
    if k > 4 { assert !Contains(Lower(name), CategoryNames[4]); }
  }

  /** A label of no known category is always drawn. */
  lemma UnknownLabelVisible(name: string, c: ClassToggles)
    requires forall k :: 0 <= k < |CategoryNames| ==> !Contains(Lower(name), CategoryNames[k])
    ensures ClassLabelIsVisible(name, c)
  {
    assert !Contains(Lower(name), CategoryNames[0]);
    assert !Contains(Lower(name), CategoryNames[1]);
    assert !Contains(Lower(name), CategoryNames[2]);
    assert !Contains(Lower(name), CategoryNames[3]);
    assert !Contains(Lower(name), CategoryNames[4]);
    assert !Contains(Lower(name), CategoryNames[5]);
  }

  /** A class is hidden only when a category it matches is toggled off. */
  lemma HiddenOnlyByToggle(name: string, c: ClassToggles)
    requires !ClassLabelIsVisible(name, c)
    ensures exists k :: 0 <= k < |CategoryNames| && Contains(Lower(name), CategoryNames[k]) && !CategoryToggle(c, k)
  {
    var lbl := Lower(name);
    if Contains(lbl, "vessel") { assert CategoryNames[0] == "vessel"; }
    else if Contains(lbl, "solid") { assert CategoryNames[1] == "solid"; }
    else if Contains(lbl, "residue") { assert CategoryNames[2] == "residue"; }
    else if Contains(lbl, "empty") { assert CategoryNames[3] == "empty"; }
    else if Contains(lbl, "homo") { assert CategoryNames[4] == "homo"; }
    else { assert CategoryNames[5] == "hetero"; }
  }

  /** The lookup ignores letter case. */
  lemma VisibilityIgnoresCase(name: string, c: ClassToggles)
    ensures ClassLabelIsVisible(Lower(name), c) == ClassLabelIsVisible(name, c)
  {
    LowerIdempotent(name);
  }

  /** The vessel stage hides a vessel's own box only when its label is exactly "vessel" in
      some letter case and the vessel toggle is off. */
  predicate VesselBoxHidden(name: string, c: ClassToggles) {
    Lower(name) == "vessel" && !c.vessel
  }

  /** The vessel stage's test is an equality, not the category lookup: with the vessel toggle off a
      vessel labelled "vessel_1" is hidden by the lookup but its box is still drawn. */
  lemma VesselHideIsExact(c: ClassToggles)
    requires !c.vessel
    ensures !ClassLabelIsVisible("vessel_1", c)
    ensures !VesselBoxHidden("vessel_1", c)
    ensures VesselBoxHidden("Vessel", c)
  {
    LowerAt("vessel_1");
    LowerAt("Vessel");
    assert Lower("vessel_1") == "vessel_1";
    assert IsPrefix("vessel", "vessel_1");
    assert Lower("Vessel") == "vessel";
  }

  // ---------------------------------------------------------------------------
  // Liquid classes
  // ---------------------------------------------------------------------------

  /** Labels that begin with "homo" or "hetero", in any letter case, are liquids. */
  predicate IsLiquidLabel(name: string) {
    IsPrefix("homo", Lower(name)) || IsPrefix("hetero", Lower(name))
  }

  /** The liquid test ignores letter case. */
  lemma LiquidIgnoresCase(name: string)
    ensures IsLiquidLabel(Lower(name)) == IsLiquidLabel(name)
  {
    LowerIdempotent(name);
  }

  /** A liquid label that names no earlier category is drawn exactly when its own toggle is on. */
  lemma LiquidVisibility(name: string, c: ClassToggles)
    requires IsLiquidLabel(name)
    requires forall k :: 0 <= k < 4 ==> !Contains(Lower(name), CategoryNames[k])
    ensures IsPrefix("homo", Lower(name)) ==> ClassLabelIsVisible(name, c) == c.homo
    ensures !Contains(Lower(name), "homo") ==> ClassLabelIsVisible(name, c) == c.hetero
  {
    assert !Contains(Lower(name), CategoryNames[0]);
    assert !Contains(Lower(name), CategoryNames[1]);
    assert !Contains(Lower(name), CategoryNames[2]);
    assert !Contains(Lower(name), CategoryNames[3]);
    if IsPrefix("homo", Lower(name)) {
      PrefixIsContained("homo", Lower(name));
    } else {
      PrefixIsContained("hetero", Lower(name));
    }
  }

  // ---------------------------------------------------------------------------
  // Thresholds and the raw per-metric decision
  // ---------------------------------------------------------------------------

  /** The detection confidence floor: the user's, or 0.4 when no thresholds are set. */
  function ConfidenceThreshold(thr: Option<Thresholds>): (r: real)
    ensures thr.None? ==> r == 0.4
    ensures thr.Some? ==> r == thr.value.minConfidence
  {
    match thr
    case None => 0.4
    case Some(t) => t.minConfidence
  }

  /** The minimum turbidity, hue and volume fraction: all 0 when no thresholds are set. */
  function Minimums(thr: Option<Thresholds>): (r: (real, real, real))
    ensures thr.None? ==> r == (0.0, 0.0, 0.0)
    ensures thr.Some? ==> r == (thr.value.minTurbidity, thr.value.minHue, thr.value.minVolume)
  {
    if thr.Some? then (thr.value.minTurbidity, thr.value.minHue, thr.value.minVolume) else (0.0, 0.0, 0.0)
  }

  /** A metric qualifies when the overlay is on, its toggle is on and it reaches its minimum. */
  predicate RawShow(advanced: bool, toggle: bool, value: real, minimum: real) {
    advanced && toggle && value >= minimum
  }

  /** The raw show decisions for T, C and V on this frame. */
  function Decisions(cfg: Config, thr: Option<Thresholds>, turbidity: real, hue: real, volume: real): (r: (bool, bool, bool))
  {
    var (minT, minC, minV) := Minimums(thr);
    (RawShow(cfg.advancedOverlay, cfg.metrics.t, turbidity, minT),
     RawShow(cfg.advancedOverlay, cfg.metrics.c, hue, minC),
     RawShow(cfg.advancedOverlay, cfg.metrics.v, volume, minV))
  }

  /** Without thresholds a toggled-on metric qualifies whenever its value is non-negative, and
      with the overlay off nothing qualifies. */
  lemma DecisionsWithoutThresholds(cfg: Config, turbidity: real, hue: real, volume: real)
    ensures var d := Decisions(cfg, None, turbidity, hue, volume);
      d.0 == (cfg.advancedOverlay && cfg.metrics.t && turbidity >= 0.0) &&
      d.1 == (cfg.advancedOverlay && cfg.metrics.c && hue >= 0.0) &&
      d.2 == (cfg.advancedOverlay && cfg.metrics.v && volume >= 0.0)
  {
  }

  /** Whatever the thresholds, nothing qualifies with the overlay off, and a metric qualifies
      only when it is toggled on. */
  lemma DecisionsNeedToggle(cfg: Config, thr: Option<Thresholds>, turbidity: real, hue: real, volume: real)
    ensures var d := Decisions(cfg, thr, turbidity, hue, volume);
      (!cfg.advancedOverlay ==> d == (false, false, false)) &&
      (d.0 ==> cfg.metrics.t) && (d.1 ==> cfg.metrics.c) && (d.2 ==> cfg.metrics.v)
  {
  }

  /** Raising the thresholds never makes a metric qualify that did not before. */
  lemma StricterThresholdsShowLess(cfg: Config, lo: Thresholds, hi: Thresholds, turbidity: real, hue: real, volume: real)
    requires lo.minTurbidity <= hi.minTurbidity && lo.minHue <= hi.minHue && lo.minVolume <= hi.minVolume
    ensures var dl := Decisions(cfg, Some(lo), turbidity, hue, volume);
            var dh := Decisions(cfg, Some(hi), turbidity, hue, volume);
      (dh.0 ==> dl.0) && (dh.1 ==> dl.1) && (dh.2 ==> dl.2)
  {
  }
}

/** The measurement overlay of a liquid box: the "T=…, C=…, V=…" suffix, the volume
    fraction, and the effect of one measurement on the debounce map. The pixel statistics
    (mean hue and mean brightness of the box's crop) are inputs. */
module Overlay {
  import opened Text
  import opened Geometry
  import opened Policy
  import opened Debounce
  import opened Wrappers

  /** The mean hue (0..180) and mean brightness (0..255) of a crop, as measured from its pixels. */
  datatype Measurement = Measurement(avgHue: real, avgVal: real)

  // ---------------------------------------------------------------------------
  // The label suffix
  // ---------------------------------------------------------------------------

  function TurbidityPart(turbidity: real): string { "T=" + Fixed(turbidity, 1) }
  function HuePart(hue: real): string { "C=" + Fixed(hue, 1) }
  function VolumePart(volume: real): string { "V=" + Fixed(volume, 2) }

  /** The enabled parts, in the order T, C, V. */
  function LabelParts(turbidity: real, hue: real, volume: real, showT: bool, showC: bool, showV: bool): (r: seq<string>)
    ensures |r| == (if showT then 1 else 0) + (if showC then 1 else 0) + (if showV then 1 else 0)
    ensures forall i :: 0 <= i < |r| ==> |r[i]| > 2
  {
    (if showT then [TurbidityPart(turbidity)] else []) +
    (if showC then [HuePart(hue)] else []) +
    (if showV then [VolumePart(volume)] else [])
  }

  /** The measurement text of a box: the enabled parts joined by ", ". */
  function BuildLabelStr(turbidity: real, hue: real, volume: real, showT: bool, showC: bool, showV: bool): string {
    Join(LabelParts(turbidity, hue, volume, showT, showC, showV), ", ")
  }

  /** The text is empty exactly when no metric is to be shown. */
  lemma BuildLabelStrEmptyIff(turbidity: real, hue: real, volume: real, showT: bool, showC: bool, showV: bool)
    ensures BuildLabelStr(turbidity, hue, volume, showT, showC, showV) == "" <==> !showT && !showC && !showV
  {
    var parts := LabelParts(turbidity, hue, volume, showT, showC, showV);
    JoinEmptyIff(parts, ", ");
  }

  /** All three metrics give "T=…, C=…, V=…" in that order. */
  lemma BuildLabelStrAll(turbidity: real, hue: real, volume: real)
    ensures BuildLabelStr(turbidity, hue, volume, true, true, true)
         == TurbidityPart(turbidity) + ", " + HuePart(hue) + ", " + VolumePart(volume)
  {
    var parts := LabelParts(turbidity, hue, volume, true, true, true);
    assert parts == [TurbidityPart(turbidity), HuePart(hue), VolumePart(volume)];
    JoinThree(TurbidityPart(turbidity), HuePart(hue), VolumePart(volume), ", ");
  }

  /** The first enabled metric leads the text, and V, when enabled, ends it. */
  lemma BuildLabelStrOrder(turbidity: real, hue: real, volume: real, showT: bool, showC: bool, showV: bool)
    ensures var s := BuildLabelStr(turbidity, hue, volume, showT, showC, showV);
      (showT ==> IsPrefix(TurbidityPart(turbidity), s)) &&
      (!showT && showC ==> IsPrefix(HuePart(hue), s)) &&
      (!showT && !showC && showV ==> s == VolumePart(volume)) &&
      (showV ==> IsSuffix(VolumePart(volume), s))
  {
    var parts := LabelParts(turbidity, hue, volume, showT, showC, showV);
    if showT {
      assert parts[0] == TurbidityPart(turbidity);
      JoinFirst(parts, ", ");
    } else if showC {
      assert parts[0] == HuePart(hue);
      JoinFirst(parts, ", ");
    } else if showV {
      assert parts == [VolumePart(volume)];
    }
    if showV {
      assert parts[|parts| - 1] == VolumePart(volume);
      JoinLast(parts, ", ");
    }
  }

  /** Each metric's "X=" part is in the text exactly when that metric is to be shown: the
      other parts, the numbers and the separator never hold its letter. */
  lemma BuildLabelStrOnlyShown(turbidity: real, hue: real, volume: real, showT: bool, showC: bool, showV: bool)
    ensures var s := BuildLabelStr(turbidity, hue, volume, showT, showC, showV);
      (Contains(s, "T=") <==> showT) && (Contains(s, "C=") <==> showC) && (Contains(s, "V=") <==> showV)
  {
    var parts := LabelParts(turbidity, hue, volume, showT, showC, showV);
    NumberPartLacks('T', turbidity, 1, 'C');
    NumberPartLacks('T', turbidity, 1, 'V');
    NumberPartLacks('C', hue, 1, 'T');
    NumberPartLacks('C', hue, 1, 'V');
    NumberPartLacks('V', volume, 2, 'T');
    NumberPartLacks('V', volume, 2, 'C');
    PartInLabel(parts, TurbidityPart(turbidity), showT, 0);
    PartInLabel(parts, HuePart(hue), showC, if showT then 1 else 0);
    PartInLabel(parts, VolumePart(volume), showV, |parts| - 1);
  }

  /** A part of the form "X=<number>" has no character `c` other than its letter, `=` and
      the characters of numbers. */
  lemma NumberPartLacks(letter: char, x: real, places: nat, c: char)
    requires c != letter && c != '=' && !IsNumeric(c)
    ensures Lacks([letter, '='] + Fixed(x, places), c)
  {
    FixedNumeric(x, places);
  }

  /** A part's two-character head is in the join of the parts exactly when the part is one of
      them, provided that, when it is not, neither the separator nor any part holds its
      first character. */
  lemma PartInLabel(parts: seq<string>, part: string, present: bool, at: int)
    requires |part| >= 2 && part[0] != ',' && part[0] != ' '
    requires present ==> 0 <= at < |parts| && parts[at] == part
    requires !present ==> forall i :: 0 <= i < |parts| ==> Lacks(parts[i], part[0])
    ensures Contains(Join(parts, ", "), part[..2]) <==> present
  {
    var head := part[..2];
    assert head[0] == part[0];
    if present {
      assert IsPrefix(head, parts[at]);
      JoinHasPart(parts, ", ", at, head);
    } else {
      assert Lacks(", ", part[0]);
      JoinLacks(parts, ", ", part[0]);
      LacksNotContains(Join(parts, ", "), head);
    }
  }

  // ---------------------------------------------------------------------------
  // The volume fraction and the measurement of one box
  // ---------------------------------------------------------------------------

  /** The box's height over the frame's height, or 0 for a frame of no height. */
  function VolumeFraction(boxHeight: int, fullHeight: int): (r: real)
    ensures fullHeight <= 0 ==> r == 0.0
  {
    if fullHeight > 0 then boxHeight as real / fullHeight as real else 0.0
  }

  /** The fraction times the frame's height is the box's height, and a box within the frame
      gives a fraction between 0 and 1. */
  lemma VolumeFractionScales(boxHeight: int, fullHeight: int)
    requires fullHeight > 0
    ensures VolumeFraction(boxHeight, fullHeight) * fullHeight as real == boxHeight as real
    ensures 0 <= boxHeight <= fullHeight ==> 0.0 <= VolumeFraction(boxHeight, fullHeight) <= 1.0
  {
  }

  /** The debounce key of a box: its four frame coordinates. */
  function KeyOf(b: Box): BoxKey {
    (b.x1, b.y1, b.x2, b.y2)
  }

  /** Two boxes share a debounce entry exactly when all four coordinates coincide. */
  lemma KeyIdentifiesBox(a: Box, b: Box)
    ensures KeyOf(a) == KeyOf(b) <==> a == b
  {
  }

  /** Measures the liquid in box `b` of a `w` by `h` frame and returns its suffix text and the
      debounce map afterwards. An empty crop gives "" and leaves the map alone; without
      debouncing the current decisions and values are shown directly; with it, the box's entry
      takes one step and the remembered positive values are shown. */
  function Measure(m: map<BoxKey, Entry>, b: Box, w: int, h: int, stats: Measurement, cfg: Config, thr: Option<Thresholds>)
    : (r: (string, map<BoxKey, Entry>))
    requires w >= 0 && h >= 0
    ensures MapInv(m) ==> MapInv(r.1)
    ensures CropIsEmpty(b, w, h) ==> r == ("", m)
    ensures r.1.Keys <= m.Keys + {KeyOf(b)}
    ensures forall k :: k in m && k != KeyOf(b) ==> k in r.1 && r.1[k] == m[k]
  {
    if CropIsEmpty(b, w, h) then ("", m)
    else
      var volume := VolumeFraction(b.y2 - b.y1, h);
      var (showT, showC, showV) := Decisions(cfg, thr, stats.avgVal, stats.avgHue, volume);
      if !cfg.debounceEnabled then
        (BuildLabelStr(stats.avgVal, stats.avgHue, volume, showT, showC, showV), m)
      else
        var e := StepEntry(Lookup(m, KeyOf(b)), showT, showC, showV, stats.avgVal, stats.avgHue, volume);
        (BuildLabelStr(e.t.lastVal, e.c.lastVal, e.v.lastVal, Shown(e.t), Shown(e.c), Shown(e.v)),
         m[KeyOf(b) := e])
  }

  /** Without debouncing the text depends only on this frame: it is built from the raw decisions
      and the current values, whatever the map holds, and the map is left as it was. */
  lemma WithoutDebounceNoMemory(m1: map<BoxKey, Entry>, m2: map<BoxKey, Entry>, b: Box, w: int, h: int,
                                stats: Measurement, cfg: Config, thr: Option<Thresholds>)
    requires w >= 0 && h >= 0 && !cfg.debounceEnabled
    ensures Measure(m1, b, w, h, stats, cfg, thr).0 == Measure(m2, b, w, h, stats, cfg, thr).0
    ensures Measure(m1, b, w, h, stats, cfg, thr).1 == m1
    ensures !CropIsEmpty(b, w, h) ==>
      var volume := VolumeFraction(b.y2 - b.y1, h);
      var d := Decisions(cfg, thr, stats.avgVal, stats.avgHue, volume);
      Measure(m1, b, w, h, stats, cfg, thr).0 == BuildLabelStr(stats.avgVal, stats.avgHue, volume, d.0, d.1, d.2)
  {
  }

  /** With debouncing, a box whose turbidity qualifies with a positive value shows that value
      first in its text, on this very frame. */
  lemma QualifyingTurbidityShownAtOnce(m: map<BoxKey, Entry>, b: Box, w: int, h: int,
                                       stats: Measurement, cfg: Config, thr: Option<Thresholds>)
    requires w >= 0 && h >= 0 && cfg.debounceEnabled && !CropIsEmpty(b, w, h)
    requires Decisions(cfg, thr, stats.avgVal, stats.avgHue, VolumeFraction(b.y2 - b.y1, h)).0
    requires stats.avgVal > 0.0
    ensures IsPrefix(TurbidityPart(stats.avgVal), Measure(m, b, w, h, stats, cfg, thr).0)
  {
    var volume := VolumeFraction(b.y2 - b.y1, h);
    var (showT, showC, showV) := Decisions(cfg, thr, stats.avgVal, stats.avgHue, volume);
    var e := StepEntry(Lookup(m, KeyOf(b)), showT, showC, showV, stats.avgVal, stats.avgHue, volume);
    BuildLabelStrOrder(e.t.lastVal, e.c.lastVal, e.v.lastVal, Shown(e.t), Shown(e.c), Shown(e.v));
  }

  /** With debouncing, the box's entry takes exactly one Step per metric with this frame's
      decisions and values, starting from a fresh entry for a box not seen before. */
  lemma DebounceStepsEntry(m: map<BoxKey, Entry>, b: Box, w: int, h: int,
                           stats: Measurement, cfg: Config, thr: Option<Thresholds>)
    requires w >= 0 && h >= 0 && cfg.debounceEnabled && !CropIsEmpty(b, w, h)
    ensures var volume := VolumeFraction(b.y2 - b.y1, h);
      var d := Decisions(cfg, thr, stats.avgVal, stats.avgHue, volume);
      var old_e := if KeyOf(b) in m then m[KeyOf(b)] else FreshEntry;
      var e := Measure(m, b, w, h, stats, cfg, thr).1[KeyOf(b)];
      e.t == Step(old_e.t, d.0, stats.avgVal) &&
      e.c == Step(old_e.c, d.1, stats.avgHue) &&
      e.v == Step(old_e.v, d.2, volume)
  {
  }

  /** With debouncing the map is consulted whatever the box shows now: a box whose turbidity
      fails on this frame still shows the value remembered under its key, if that value is
      positive and fewer than two failures have been counted since. */
  lemma RememberedTurbidityShown(m: map<BoxKey, Entry>, b: Box, w: int, h: int,
                                 stats: Measurement, cfg: Config, thr: Option<Thresholds>)
    requires w >= 0 && h >= 0 && cfg.debounceEnabled && !CropIsEmpty(b, w, h)
    requires !Decisions(cfg, thr, stats.avgVal, stats.avgHue, VolumeFraction(b.y2 - b.y1, h)).0
    requires KeyOf(b) in m && m[KeyOf(b)].t.lastVal > 0.0 && m[KeyOf(b)].t.zeroCount < Window - 1
    ensures IsPrefix(TurbidityPart(m[KeyOf(b)].t.lastVal), Measure(m, b, w, h, stats, cfg, thr).0)
  {
    var volume := VolumeFraction(b.y2 - b.y1, h);
    var (showT, showC, showV) := Decisions(cfg, thr, stats.avgVal, stats.avgHue, volume);
    var e := StepEntry(Lookup(m, KeyOf(b)), showT, showC, showV, stats.avgVal, stats.avgHue, volume);
    assert e.t.lastVal == m[KeyOf(b)].t.lastVal;
    BuildLabelStrOrder(e.t.lastVal, e.c.lastVal, e.v.lastVal, Shown(e.t), Shown(e.c), Shown(e.v));
  }

  /** With debouncing, the text is built from the box's entry after this frame: each metric is
      rendered, with its remembered value, exactly when that value is positive. */
  lemma DebouncedText(m: map<BoxKey, Entry>, b: Box, w: int, h: int,
                      stats: Measurement, cfg: Config, thr: Option<Thresholds>)
    requires w >= 0 && h >= 0 && cfg.debounceEnabled && !CropIsEmpty(b, w, h)
    ensures var (s, m') := Measure(m, b, w, h, stats, cfg, thr);
      KeyOf(b) in m' &&
      var e := m'[KeyOf(b)];
      s == BuildLabelStr(e.t.lastVal, e.c.lastVal, e.v.lastVal, Shown(e.t), Shown(e.c), Shown(e.v)) &&
      (Contains(s, "T=") <==> e.t.lastVal > 0.0) &&
      (Contains(s, "C=") <==> e.c.lastVal > 0.0) &&
      (Contains(s, "V=") <==> e.v.lastVal > 0.0)
  {
    var volume := VolumeFraction(b.y2 - b.y1, h);
    var (showT, showC, showV) := Decisions(cfg, thr, stats.avgVal, stats.avgHue, volume);
    var e := StepEntry(Lookup(m, KeyOf(b)), showT, showC, showV, stats.avgVal, stats.avgHue, volume);
    BuildLabelStrOnlyShown(e.t.lastVal, e.c.lastVal, e.v.lastVal, Shown(e.t), Shown(e.c), Shown(e.v));
  }
}

/** What is put on the output picture around the detections: the colour and the label
    position of each box, the side-by-side composition, the list of box texts in the
    top-left corner and the console progress bar of a video. Pixels are not modelled;
    each drawing call is described by the values it is given. */
module Compositor {
  import opened Text
  import opened Geometry
  import opened Frame
  import opened Wrappers

  // ---------------------------------------------------------------------------
  // Truncation of a real towards zero (Python's int() on a float)
  // ---------------------------------------------------------------------------

  /** `int(x)`: the integer part of `x`, rounding towards zero. */
  function Trunc(x: real): (n: int)
    ensures x >= 0.0 ==> n as real <= x < n as real + 1.0
    ensures x < 0.0 ==> n as real - 1.0 < x <= n as real
  {
    if x >= 0.0 then x.Floor else -((-x).Floor)
  }

  // ---------------------------------------------------------------------------
  // Box colours and label anchors
  // ---------------------------------------------------------------------------

  /** A colour as OpenCV takes it: blue, green, red. */
  datatype Bgr = Bgr(b: int, g: int, r: int)

  const VesselColor: Bgr := Bgr(0, 255, 255)
  const OtherColor: Bgr := Bgr(0, 0, 255)

  /** Yellow for a box whose text mentions "vessel" in any letter case, red otherwise. */
  function BoxColor(text: string): (r: Bgr)
    ensures r == VesselColor || r == OtherColor
  {
    if Contains(Lower(text), "vessel") then VesselColor else OtherColor
  }

  /** Lower-casing works character by character, so it distributes over concatenation. */
  lemma LowerAppend(a: string, b: string)
    ensures Lower(a + b) == Lower(a) + Lower(b)
  {
    LowerAt(a + b);
    LowerAt(a);
    LowerAt(b);
    var l := Lower(a + b);
    assert forall i :: 0 <= i < |a| ==> l[i] == LowerChar(a[i]);
    assert forall i :: |a| <= i < |a + b| ==> l[i] == LowerChar(b[i - |a|]);
  }

  /** The colour is decided by the whole text: a box whose class names a vessel is drawn in
      yellow whatever follows the class, and a text that never mentions "vessel" is red. */
  lemma VesselClassIsYellow(name: string, rest: string)
    ensures Contains(Lower(name), "vessel") ==> BoxColor(name + rest) == VesselColor
    ensures !Contains(Lower(name + rest), "vessel") ==> BoxColor(name + rest) == OtherColor
  {
    LowerAppend(name, rest);
    if Contains(Lower(name), "vessel") {
      ContainsExtend(Lower(name), Lower(rest), "vessel");
    }
  }

  /** The text of a drawn vessel box is coloured as a vessel when its class says so. */
  lemma VesselItemColor(d: Detection)
    requires Contains(Lower(d.className), "vessel")
    ensures BoxColor(BaseText(d)) == VesselColor
  {
    VesselClassIsYellow(d.className, " " + Fixed(d.confidence, 2));
    assert BaseText(d) == d.className + (" " + Fixed(d.confidence, 2));
  }

  /** The baseline of a box's text: five pixels above the box, but never above row 15. */
  function LabelAnchorY(y1: int): (r: int)
    ensures r >= 15 && r >= y1 - 5
    ensures r == 15 || r == y1 - 5
  {
    if y1 - 5 > 15 then y1 - 5 else 15
  }

  /** A box starting at row 20 or below has its text just above it; higher boxes share row 15. */
  lemma LabelAnchorCases(y1: int)
    ensures y1 >= 20 ==> LabelAnchorY(y1) == y1 - 5 && LabelAnchorY(y1) < y1
    ensures y1 <= 20 ==> LabelAnchorY(y1) == 15
  {
  }

  /** One box drawn: its rectangle (two pixels thick) and its text at the anchor, both in its colour. */
  datatype DrawOp = DrawOp(rect: Box, color: Bgr, text: string, textX: int, textY: int)

  function BoxOp(d: Drawable): (op: DrawOp)
    ensures op.rect == d.box && op.text == d.text
    ensures op.textX == d.box.x1 && op.textY >= 15
    ensures op.color == VesselColor || op.color == OtherColor
  {
    DrawOp(d.box, BoxColor(d.text), d.text, d.box.x1, LabelAnchorY(d.box.y1))
  }

  /** The drawing calls of a frame's boxes, in the order the boxes were collected. */
  function BoxOps(ds: seq<Drawable>): (ops: seq<DrawOp>)
    ensures |ops| == |ds|
    ensures forall i :: 0 <= i < |ds| ==> ops[i] == BoxOp(ds[i])
  {
    seq(|ds|, i requires 0 <= i < |ds| => BoxOp(ds[i]))
  }

  /** The drawing loop of a frame: one DrawOp per box, in the order the boxes were collected. */
  method DrawBoxes(ds: seq<Drawable>) returns (ops: seq<DrawOp>)
    ensures ops == BoxOps(ds)
  {
    ops := [];
    var i := 0;
    while i < |ds|
      invariant 0 <= i <= |ds|
      invariant |ops| == i
      invariant forall k :: 0 <= k < i ==> ops[k] == BoxOp(ds[k])
    {
      ops := ops + [BoxOp(ds[i])];
      i := i + 1;
    }
  }

  // ---------------------------------------------------------------------------
  // Side-by-side composition and the size of the output video
  // ---------------------------------------------------------------------------

  /** The size of a picture in pixels. */
  datatype Size = Size(width: int, height: int)

  /** `(original | annotated)`: the annotated picture is first scaled to the original's height
      (keeping its own width), then the two are placed side by side. */
  function CombineSideBySide(original: Size, annotated: Size): (r: Size)
    ensures r.height == original.height
    ensures r.width - original.width == annotated.width
  {
    var right := if original.height != annotated.height then Size(annotated.width, original.height) else annotated;
    Size(original.width + right.width, original.height)
  }

  /** The frame size the video writer is opened with: twice as wide when side by side. */
  function OutputSize(width: int, height: int, sideBySide: bool): (r: Size)
    ensures r.height == height
    ensures sideBySide ==> r.width == 2 * width
    ensures !sideBySide ==> r.width == width
  {
    Size(if sideBySide then width * 2 else width, height)
  }

  /** The size of one written frame: the annotated frame is a copy of the input, so the picture is
      the input's size, or the pair of them side by side. */
  function ComposedSize(frame: Size, sideBySide: bool): Size {
    if sideBySide then CombineSideBySide(frame, frame) else frame
  }

  /** Every frame written has the size the writer was opened with, as long as the frames have the
      size the video reports. */
  lemma ComposedMatchesWriter(frame: Size, sideBySide: bool)
    ensures ComposedSize(frame, sideBySide) == OutputSize(frame.width, frame.height, sideBySide)
  {
  }

  /** The frame rate the writer is opened with: the video's own, or 25 when it reports none. */
  function OutputFps(fps: real): (r: real)
    ensures r > 0.0
    ensures fps > 0.0 ==> r == fps
    ensures fps <= 0.0 ==> r == 25.0
  {
    if fps > 0.0 then fps else 25.0
  }

  // ---------------------------------------------------------------------------
  // The list of box texts in the top-left corner
  // ---------------------------------------------------------------------------

  /** One line of the list: its text drawn with its baseline at `(x, y)`. */
  datatype Placed = Placed(x: int, y: int, text: string)

  /** The distance between two lines for the list's font scale. */
  function LineStep(fontScale: real): (step: int)
    ensures fontScale >= 0.0 ==> step >= 10
  {
    Trunc(30.0 * fontScale + 10.0)
  }

  /** The lines placed from `(10, 30)` down, `step` apart. */
  function ListLayout(lines: seq<string>, step: int): (r: seq<Placed>)
    ensures |r| == |lines|
    decreases |lines|
  {
    if lines == [] then []
    else
      var n := |lines| - 1;
      ListLayout(lines[..n], step) + [Placed(10, 30 + n * step, lines[n])]
  }

  /** Line `i` of the list is at column 10 and row `30 + i * step`. */
  lemma {:induction false} ListLayoutShape(lines: seq<string>, step: int)
    ensures |ListLayout(lines, step)| == |lines|
    ensures forall i :: 0 <= i < |lines| ==> ListLayout(lines, step)[i] == Placed(10, 30 + i * step, lines[i])
    decreases |lines|
  {
    if lines != [] {
      var n := |lines| - 1;
      ListLayoutShape(lines[..n], step);
      assert forall i :: 0 <= i < n ==> lines[..n][i] == lines[i];
    }
  }

  /** With a non-negative font scale the lines go strictly down the picture in list order, at
      least ten pixels apart. */
  lemma ListLinesDescend(lines: seq<string>, fontScale: real, i: int, j: int)
    requires fontScale >= 0.0 && 0 <= i < j < |lines|
    ensures var l := ListLayout(lines, LineStep(fontScale));
      l[j].x == l[i].x && l[j].y - l[i].y >= 10 * (j - i)
  {
    var step := LineStep(fontScale);
    var l := ListLayout(lines, step);
    ListLayoutShape(lines, step);
    assert l[i] == Placed(10, 30 + i * step, lines[i]);
    assert l[j] == Placed(10, 30 + j * step, lines[j]);
    assert l[j].y - l[i].y == (j - i) * step by {
      assert (30 + j * step) - (30 + i * step) == (j - i) * step;
    }
    MulAtLeast(j - i, step, 10);
  }

  /** `k * a >= k * b` for `k >= 0` and `a >= b`. */
  lemma MulAtLeast(k: int, a: int, b: int)
    requires k >= 0 && a >= b
    ensures k * a >= k * b
  {
    assert k * a - k * b == k * (a - b);
  }

  /** The list drawn on the output picture: the lines are the texts of the last frame's boxes,
      at twice the annotation font scale. */
  method DrawTopLeftList(lines: seq<string>, fontScale: real) returns (placed: seq<Placed>)
    ensures placed == ListLayout(lines, LineStep(fontScale))
  {
    var step := LineStep(fontScale);
    var x, y := 10, 30;
    placed := [];
    var i := 0;
    while i < |lines|
      invariant 0 <= i <= |lines|
      invariant x == 10 && y == 30 + i * step
      invariant placed == ListLayout(lines[..i], step)
    {
      assert lines[..i + 1][..i] == lines[..i];
      placed := placed + [Placed(x, y, lines[i])];
      y := y + step;
      i := i + 1;
    }
    assert lines[..i] == lines;
  }

  // ---------------------------------------------------------------------------
  // The progress bar of a video
  // ---------------------------------------------------------------------------

  const BarLen: int := 50

  /** The number of '#' for frame `current` of `total`: fifty times the fraction done, truncated
      towards zero. */
  function BarFill(current: int, total: int): (r: int)
    requires total > 0
    ensures current >= 0 ==> r >= 0
    ensures current <= 0 ==> r <= 0
  {
    if current >= 0 then (BarLen * current) / total else -((BarLen * -current) / total)
  }

  /** `(a / t).Floor == a / t` for a real quotient of integers with `a >= 0`. */
  lemma RealQuotientFloor(a: int, t: int)
    requires a >= 0 && t > 0
    ensures (a as real / t as real).Floor == a / t
  {
    var q := a / t;
    var rem := a % t;
    assert a == q * t + rem && 0 <= rem < t;
    assert a as real / t as real == q as real + rem as real / t as real;
    assert 0.0 <= rem as real / t as real < 1.0;
  }

  /** The fill is `int(50 * (current / total))`: the exact fraction, scaled and truncated. */
  lemma BarFillIsTruncation(current: int, total: int)
    requires total > 0
    ensures BarFill(current, total) == Trunc(BarLen as real * (current as real / total as real))
  {
    var x := BarLen as real * (current as real / total as real);
    if current >= 0 {
      assert x == (BarLen * current) as real / total as real;
      RealQuotientFloor(BarLen * current, total);
    } else {
      assert -x == (BarLen * -current) as real / total as real;
      RealQuotientFloor(BarLen * -current, total);
    }
  }

  /** The bar: `filled` '#' then `50 - filled` '-' (a negative count gives none). */
  function Bar(current: int, total: int): (r: string)
    requires total > 0
    ensures current >= 0 ==> |r| == if BarFill(current, total) > BarLen then BarFill(current, total) else BarLen
  {
    var filled := BarFill(current, total);
    Repeat('#', filled) + Repeat('-', BarLen - filled)
  }

  /** Within the video the fill is between 0 and 50, and the last frame fills the bar. */
  lemma BarFillBounds(current: int, total: int)
    requires 0 <= current <= total && total > 0
    ensures 0 <= BarFill(current, total) <= BarLen
    ensures current == total ==> BarFill(current, total) == BarLen
  {
    var q := (BarLen * current) / total;
    assert 0 <= q <= BarLen by {
      MulAtLeast(BarLen, total, current);
      QuotientAtMost(BarLen * current, total, BarLen);
    }
    if current == total {
      assert q == BarLen by {
        ExactQuotient(BarLen, total);
      }
    }
  }

  /** `(k * t) / t == k`. */
  lemma ExactQuotient(k: int, t: int)
    requires t > 0
    ensures (k * t) / t == k
  {
    var q := (k * t) / t;
    var r := (k * t) % t;
    assert (k - q) * t == r;
    if k - q > 0 {
      MulAtLeast(t, k - q, 1);
    } else if k - q < 0 {
      MulAtLeast(t, q - k, 1);
    }
  }

  /** `a / t <= k` when `0 <= a <= k * t`. */
  lemma QuotientAtMost(a: int, t: int, k: int)
    requires t > 0 && 0 <= a <= k * t
    ensures 0 <= a / t <= k
  {
    var q := a / t;
    if q > k {
      MulAtLeast(t, q, k + 1);
      assert false;
    }
  }

  /** Within the video the bar is exactly 50 wide, with one '#' for each fiftieth done; the last
      frame fills it. */
  lemma BarWithinVideo(current: int, total: int)
    requires 0 <= current <= total && total > 0
    ensures |Bar(current, total)| == BarLen
    ensures forall i :: 0 <= i < |Bar(current, total)| ==>
      (Bar(current, total)[i] == '#' <==> i < (BarLen * current) / total)
    ensures current == total ==> Bar(current, total) == Repeat('#', BarLen)
  {
    BarFillBounds(current, total);
    var filled := BarFill(current, total);
    var hashes := Repeat('#', filled);
    var dashes := Repeat('-', BarLen - filled);
    assert Bar(current, total) == hashes + dashes;
    if current == total {
      assert dashes == [];
      assert hashes + dashes == hashes;
    }
  }

  /** When the video reports fewer frames than it has, the bar is never shorter than 50. It is
      longer than 50 exactly when `50 * current >= 51 * total`, so in particular once the frame
      number reaches twice the reported count. */
  lemma BarOverflow(current: int, total: int)
    requires total > 0 && current > total
    ensures |Bar(current, total)| >= BarLen
    ensures |Bar(current, total)| > BarLen <==> BarLen * current >= (BarLen + 1) * total
    ensures current >= 2 * total ==> |Bar(current, total)| > BarLen
  {
    var filled := BarFill(current, total);
    assert |Bar(current, total)| == filled by {
      MulAtLeast(BarLen, current, total);
      QuotientAtLeast(BarLen * current, total, BarLen);
    }
    if BarLen * current >= (BarLen + 1) * total {
      QuotientAtLeast(BarLen * current, total, BarLen + 1);
    } else {
      QuotientBelow(BarLen * current, total, BarLen + 1);
    }
    if current >= 2 * total {
      MulAtLeast(BarLen, current, 2 * total);
      assert BarLen * (2 * total) == (2 * BarLen) * total;
      QuotientAtLeast(BarLen * current, total, 2 * BarLen);
    }
  }

  /** `a / t < k` when `0 <= a < k * t`. */
  lemma QuotientBelow(a: int, t: int, k: int)
    requires t > 0 && 0 <= a < k * t
    ensures a / t < k
  {
    var q := a / t;
    assert q * t <= a;
    if q >= k {
      MulAtLeast(t, q, k);
      assert false;
    }
  }

  /** `a / t >= k` when `a >= k * t`. */
  lemma QuotientAtLeast(a: int, t: int, k: int)
    requires t > 0 && a >= k * t
    ensures a / t >= k
  {
    var q := a / t;
    if q < k {
      MulAtLeast(t, k, q + 1);
      assert false;
    }
  }

  /** The console line for frame `current` of `total`, or nothing when the video does not report
      a positive frame count. */
  function ProgressLine(current: int, total: int): (r: Option<string>)
    ensures r.None? <==> total <= 0
  {
    if total <= 0 then None
    else Some("\rProcessing video frames: [" + Bar(current, total) + "] " + IntToString(current) + "/" + IntToString(total))
  }

  /** The console lines after each of the first `n` frames, in order. */
  function ProgressLines(n: nat, total: int): (r: seq<Option<string>>)
    ensures |r| == n
  {
    if n == 0 then [] else ProgressLines(n - 1, total) + [ProgressLine(n, total)]
  }

  /** The line after frame `k` (counted from zero) reports `k + 1` frames done. */
  lemma {:induction false} ProgressLinesAt(n: nat, total: int)
    ensures forall k :: 0 <= k < n ==> ProgressLines(n, total)[k] == ProgressLine(k + 1, total)
  {
    if n > 0 {
      ProgressLinesAt(n - 1, total);
    }
  }
}

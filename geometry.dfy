/** Integer box geometry of the annotation pipeline: clamping a box to the frame,
    translating a crop-local box to frame coordinates, and the size of a NumPy
    slice of the frame. */
module Geometry {

  /** An axis-aligned rectangle `(x1, y1, x2, y2)` in pixel coordinates. */
  datatype Box = Box(x1: int, y1: int, x2: int, y2: int)

  /** The box lies in a `w` by `h` frame with its corners in order. */
  predicate InBounds(b: Box, w: int, h: int) {
    0 <= b.x1 <= b.x2 <= w && 0 <= b.y1 <= b.y2 <= h
  }

  /** `max(0, min(limit, v))`. */
  function ClampTo(v: int, limit: int): (r: int)
    requires limit >= 0
    ensures 0 <= r <= limit
    ensures 0 <= v <= limit ==> r == v
    ensures v < 0 ==> r == 0
    ensures v > limit ==> r == limit
  {
    if v < 0 then 0 else if v > limit then limit else v
  }

  /** `sorted([a, b])` as a pair. */
  function SortPair(a: int, b: int): (r: (int, int))
    ensures r.0 <= r.1
    ensures (r.0 == a && r.1 == b) || (r.0 == b && r.1 == a)
  {
    if a <= b then (a, b) else (b, a)
  }

  /** Clamps each coordinate to the frame and then orders each pair of edges. */
  function ClipBox(b: Box, w: int, h: int): (r: Box)
    requires w >= 0 && h >= 0
    ensures InBounds(r, w, h)
  {
    var xs := SortPair(ClampTo(b.x1, w), ClampTo(b.x2, w));
    var ys := SortPair(ClampTo(b.y1, h), ClampTo(b.y2, h));
    Box(xs.0, ys.0, xs.1, ys.1)
  }

  /** Clipping keeps the clamped coordinates of each axis and only orders them: the edges
      of the result are the clamped edges of the input, smaller first. */
  lemma ClipIsSortedClamp(b: Box, w: int, h: int)
    requires w >= 0 && h >= 0
    ensures var r := ClipBox(b, w, h);
      r.x1 <= r.x2 && r.y1 <= r.y2 &&
      multiset{r.x1, r.x2} == multiset{ClampTo(b.x1, w), ClampTo(b.x2, w)} &&
      multiset{r.y1, r.y2} == multiset{ClampTo(b.y1, h), ClampTo(b.y2, h)}
  {
  }

  /** Clipping a box that is already in the frame and in order leaves it unchanged. */
  lemma ClipKeepsInBounds(b: Box, w: int, h: int)
    requires w >= 0 && h >= 0
    requires InBounds(b, w, h)
    ensures ClipBox(b, w, h) == b
  {
  }

  /** Clipping twice is clipping once. */
  lemma ClipIdempotent(b: Box, w: int, h: int)
    requires w >= 0 && h >= 0
    ensures ClipBox(ClipBox(b, w, h), w, h) == ClipBox(b, w, h)
  {
    ClipKeepsInBounds(ClipBox(b, w, h), w, h);
  }

  /** The box moved right by `dx` and down by `dy`. */
  function Offset(b: Box, dx: int, dy: int): (r: Box)
    ensures r.x2 - r.x1 == b.x2 - b.x1 && r.y2 - r.y1 == b.y2 - b.y1
    ensures r.x1 - b.x1 == dx && r.y1 - b.y1 == dy
  {
    Box(b.x1 + dx, b.y1 + dy, b.x2 + dx, b.y2 + dy)
  }

  /** A crop-local box whose translation fits the frame lands exactly on that translation. */
  lemma OffsetThenClipExact(local: Box, dx: int, dy: int, w: int, h: int)
    requires w >= 0 && h >= 0
    requires InBounds(Offset(local, dx, dy), w, h)
    ensures ClipBox(Offset(local, dx, dy), w, h) == Box(local.x1 + dx, local.y1 + dy, local.x2 + dx, local.y2 + dy)
  {
    ClipKeepsInBounds(Offset(local, dx, dy), w, h);
  }

  /** A vessel at (10,10,110,110) and a content box at crop-local (5,5,15,15) give (15,15,25,25). */
  lemma OffsetExample(w: int, h: int)
    requires w >= 25 && h >= 25
    ensures ClipBox(Offset(Box(5, 5, 15, 15), Box(10, 10, 110, 110).x1, Box(10, 10, 110, 110).y1), w, h)
         == Box(15, 15, 25, 25)
  {
  }

  // ---------------------------------------------------------------------------
  // Python slicing of the frame (frame[y1:y2, x1:x2])
  // ---------------------------------------------------------------------------

  /** A slice bound resolved against a dimension of length `n`: negative bounds count from
      the end, and the result is held within `[0, n]`. */
  function SliceBound(i: int, n: int): (r: int)
    requires n >= 0
    ensures 0 <= r <= n
    ensures 0 <= i <= n ==> r == i
  {
    if i < 0 then (if i + n < 0 then 0 else i + n) else if i > n then n else i
  }

  /** The number of elements `a[start:stop]` selects from a dimension of length `n`. */
  function SliceLen(start: int, stop: int, n: int): (r: int)
    requires n >= 0
    ensures 0 <= r <= n
    ensures 0 <= start <= stop <= n ==> r == stop - start
  {
    var lo := SliceBound(start, n);
    var hi := SliceBound(stop, n);
    if hi <= lo then 0 else hi - lo
  }

  /** `frame[b.y1:b.y2, b.x1:b.x2].size == 0` for a `w` by `h` frame. */
  predicate CropIsEmpty(b: Box, w: int, h: int)
    requires w >= 0 && h >= 0
  {
    SliceLen(b.y1, b.y2, h) == 0 || SliceLen(b.x1, b.x2, w) == 0
  }

  /** For a box inside the frame the crop is empty exactly when the box has no area. */
  lemma CropOfClippedBox(b: Box, w: int, h: int)
    requires w >= 0 && h >= 0
    requires InBounds(b, w, h)
    ensures CropIsEmpty(b, w, h) <==> (b.x1 == b.x2 || b.y1 == b.y2)
  {
  }

  /** A negative bound counts from the end: in a frame 100 wide, a raw (unclipped) start of -10
      resolves to column 90, so an end of 95 gives 5 columns and an end of 50 gives none. */
  lemma NegativeBoundWraps()
    ensures SliceLen(-10, 95, 100) == 5
    ensures SliceLen(-10, 50, 100) == 0
  {
  }
}

# Foresight annotation core, in Dafny

Foresight runs two object detectors over laboratory images and videos. The first finds vessels
(vials, beakers). The second finds the contents of each vessel: solid, residue, empty, and
homogeneous or heterogeneous liquid. The program draws a labelled box around each object. For a
liquid it can also write turbidity (T), colour (C, mean hue) and volume fraction (V) on the label.
Each of those three values can be gated by a threshold, and a three-frame "debounce" rule keeps it
on screen across short gaps. The program can place the original frame beside the annotated one,
list every box label in the top-left corner, and print a progress bar while it writes a video.

This project models that annotation core of `foresight.py`. The detectors and the pixel
statistics (mean hue and mean value of a crop) are inputs. The model covers what the program
computes from them, except the colour patch drawn beside each measured liquid (see "Left out"):

- which boxes are drawn, in which order, with which clipped coordinates, text and colour;
- how the debounce map evolves;
- what the output frame and the video writer are given.

Modules:

- `Text`: ASCII lower-casing, substring search, `", ".join`, fixed-point formatting
  (`:.1f`, `:.2f`) and the helpers they need.
- `Geometry`: box clipping (`max(0, min(w, x))`, then sorting each coordinate pair), the offset
  of a content box into frame coordinates, and Python slice semantics for crops.
- `Policy`: class visibility (`class_label_is_visible`), the liquid test (`is_liquid_label`),
  the threshold tuple, the default detection confidence 0.4, and the per-metric show decisions.
- `Debounce`: the per-metric three-frame state machine, and the class `DebounceMap` that holds
  `debounce_map`.
- `Overlay`: `build_label_str`, the volume fraction, and `measure_liquid_overlay` as a function
  of the debounce map.
- `Frame`: the detection loop of `run_detection_on_frame`, specified in two steps. `Plan` fixes,
  in order, what is drawn and where; this depends only on geometry and visibility. `Render` then
  gives every item its text and threads the debounce map through the liquid measurements.
- `Compositor`: box colour, the label anchor `max(y1 - 5, 15)`, drawing the boxes, side-by-side
  sizes, the writer's size and frame rate, the top-left list layout, and the progress bar.
- `Pipeline`: one frame end to end (`Compose`), a whole video (`MapAfter`, `PictureAt`), and the
  class `Annotator`. `Annotator` holds the program's global state (`debounce_map`,
  `last_frame_bboxes`) and has the imperative methods `RunDetectionOnFrame`, `ProcessImage` and
  `ProcessVideo`. Each of these is proved against the functions above.

Modelling choices:

- **Numbers.** Measured values are exact `real`s. Pixel coordinates are `int`s; `parse_box_info`
  has already truncated them.
- **Configuration.** The program's module-level switches are one immutable `Config` value.
- **Threshold tuple.** The tuple `thr` is `Option<Thresholds>`.
- **Debounce key.** The string key `f"{x1}:{y1}:{x2}:{y2}"` is the tuple of the four integers.
  Formatting integers joined by `:` is injective, so the two keys identify the same boxes.

Four behaviours are modelled exactly as the code has them:

- **Hiding a vessel.** A vessel's box is hidden only when its lower-cased label is exactly
  `"vessel"`; any other vessel label stays visible. Content boxes use the substring test of
  `class_label_is_visible`.
- **Hidden vessel's box.** When a vessel's box is hidden, the content crop and the content offset
  use the vessel's raw, unclipped coordinates. Python slicing then lets negative coordinates wrap
  around.
- **Images keep the map.** `process_image` does not clear the debounce map; only
  `process_video` does.
- **Bar overflow.** A progress bar whose current frame exceeds the total still has at least 50
  characters, because `"-" * n` is empty for negative `n`. It is longer than 50 exactly when
  `50 * current >= 51 * total`, in particular from twice the total on: frame 101 of 100 gives
  exactly 50 characters, frame 102 gives 51.

## Model

| member | source | states |
|---|---|---|
| Geometry.ClampTo | foresight.py:712-713 | `max(0, min(limit, v))`: the result is within `[0, limit]`, equals `v` when `v` is inside, is 0 below and `limit` above |
| Geometry.SortPair | foresight.py:712-713 | `sorted` of two values: the result is ordered and is a permutation of the two inputs |
| Geometry.ClipBox | foresight.py:712-713 | a clipped box always lies inside the frame, corners ordered |
| Geometry.ClipIsSortedClamp | foresight.py:732-733 | each clipped coordinate pair is ordered and is, as a multiset, the pair of clamped inputs |
| Geometry.ClipKeepsInBounds | foresight.py:712-713 | clipping a box that is already inside the frame leaves it unchanged |
| Geometry.ClipIdempotent | foresight.py:732-733 | clipping twice is clipping once |
| Geometry.Offset | foresight.py:728-731 | the offset box keeps its width and height and moves by exactly `(dx, dy)` |
| Geometry.OffsetThenClipExact | foresight.py:728-733 | a content box that lands inside the frame after the offset is drawn exactly at crop position plus vessel corner |
| Geometry.OffsetExample | foresight.py:728-733 | content box (5,5,15,15) in a vessel at (10,10) is drawn at (15,15,25,25) |
| Geometry.SliceBound | foresight.py:718 | a Python slice bound normalises into `[0, n]` and leaves in-range bounds alone |
| Geometry.SliceLen | foresight.py:718-719 | a slice's length is within `[0, n]` and equals `stop - start` for in-range ordered bounds |
| Geometry.CropOfClippedBox | foresight.py:718-720 | for an in-frame box the crop is empty if and only if the box has zero width or zero height |
| Geometry.CropIsEmpty | foresight.py:718-719 | the `size == 0` test on a crop, also the one at line 815: empty when either axis slice, after Python's bound normalisation, has no elements; `Geometry.CropOfClippedBox` gives the in-frame case and `Geometry.NegativeBoundWraps` the wrap-around of a raw negative bound |
| Geometry.NegativeBoundWraps | foresight.py:718 | a negative raw coordinate wraps around: `[-10:95]` of 100 has 5 elements, `[-10:50]` none |
| Text.Lower | foresight.py:768 | lower-casing keeps the length |
| Text.LowerAt | foresight.py:768 | lower-casing maps every character independently |
| Text.LowerIdempotent | foresight.py:768 | lower-casing twice is lower-casing once |
| Text.OccursAtContains | foresight.py:769 | an occurrence at some index makes `sub in s` true |
| Text.Contains | foresight.py:769 | Python's `sub in s`: some index of `s` starts an occurrence of `sub` |
| Text.ContainsOccurs | foresight.py:769 | `sub in s` yields an index where `sub` occurs |
| Text.ContainsIff | foresight.py:769-780 | `sub in s` holds if and only if `sub` occurs at some index |
| Text.PrefixIsContained | foresight.py:801 | a prefix of `s` is contained in `s` |
| Text.ContainsExtend | foresight.py:753 | a substring of `s` is a substring of every extension of `s` |
| Text.ContainsPrepend | foresight.py:912 | a substring of `s` is a substring of `t + s` |
| Text.LacksNotContains | foresight.py:912 | a text without the first character of `sub` does not contain `sub` |
| Text.JoinEmptyIff | foresight.py:912 | joining non-empty parts gives `""` if and only if there are no parts |
| Text.Join | foresight.py:912 | `sep.join(parts)`: the parts in order with `sep` between neighbours |
| Text.JoinFirst | foresight.py:912 | the joined string starts with the first part |
| Text.JoinThree | foresight.py:912 | three parts join as `a + sep + b + sep + c` |
| Text.JoinLast | foresight.py:912 | the joined string ends with the last part |
| Text.JoinHasPart | foresight.py:912 | the joined string contains every prefix of every part |
| Text.JoinLacks | foresight.py:912 | a character absent from every part and from the separator is absent from the joined string |
| Text.FlattenSplit | foresight.py:704-748 | the items of vessel `i` sit between the items of the vessels before and after it |
| Text.Repeat | foresight.py:970 | `c * n` has length `max(n, 0)` and consists of `c` only |
| Text.DigitChar | foresight.py:906-910 | a digit value below 10 gives a decimal digit character |
| Text.NatToString | foresight.py:906-910 | a natural number's text is non-empty and all decimal digits |
| Text.IntToString | foresight.py:971 | the `{current}` and `{total}` texts are never empty; `Text.IntToStringSign` gives their shape |
| Text.IntToStringSign | foresight.py:971 | a number's text starts with `-` exactly when the number is negative, and holds decimal digits after that |
| Text.RoundHalfEven | foresight.py:906-910 | the rounded value is within one half of the input |
| Text.Fixed | foresight.py:906-910 | fixed-point text is never empty |
| Text.FixedNumeric | foresight.py:906-910 | fixed-point text consists of digits, `.` and `-` only |
| Policy.VisibleIsFirstMatch | foresight.py:763-782 | visibility is the toggle of the first category name contained in the lower-cased label |
| Policy.UnknownLabelVisible | foresight.py:781-782 | a label containing no category name is visible |
| Policy.HiddenOnlyByToggle | foresight.py:763-782 | a hidden label contains some category name whose toggle is off |
| Policy.VisibilityIgnoresCase | foresight.py:768 | visibility does not depend on letter case |
| Policy.VesselHideIsExact | foresight.py:708 | with vessels toggled off, `"vessel_1"` is invisible as a class but its vessel box is still drawn; `"Vessel"` is hidden |
| Policy.VesselBoxHidden | foresight.py:708 | the vessel stage hides a box only when its lower-cased label equals `"vessel"` and the vessel toggle is off; see `Policy.VesselHideIsExact` |
| Policy.LiquidIgnoresCase | foresight.py:801 | the liquid test does not depend on letter case |
| Policy.LiquidVisibility | foresight.py:763-782 | a liquid label is governed by the homo toggle when it starts with "homo", and by the hetero toggle when it does not contain "homo" |
| Policy.ConfidenceThreshold | foresight.py:689-692 | the detection confidence is `thr[3]`, or 0.4 without thresholds |
| Policy.Minimums | foresight.py:828-830 | the metric minimums are the first three threshold fields, or all zero |
| Policy.RawShow | foresight.py:834-840 | one metric qualifies when the overlay is on, its toggle is on and its value reaches its minimum; `Policy.DecisionsNeedToggle` and `Policy.StricterThresholdsShowLess` state its consequences |
| Policy.ClassLabelIsVisible | foresight.py:763-782 | `class_label_is_visible`: the toggle of the first category name (vessel, solid, residue, empty, homo, hetero) contained in the lower-cased label, visible when none is contained; its properties are the lemmas above |
| Policy.IsLiquidLabel | foresight.py:797-801 | `is_liquid_label`: the lower-cased label begins with "homo" or "hetero" |
| Policy.Decisions | foresight.py:828-840 | the three show decisions: overlay on, metric toggled on, and value at least its minimum |
| Policy.DecisionsNeedToggle | foresight.py:834-840 | whatever the thresholds, nothing qualifies with the overlay off, and a metric qualifies only when toggled on |
| Policy.DecisionsWithoutThresholds | foresight.py:828-840 | without thresholds, a toggled-on metric qualifies exactly when the overlay is on and the value is non-negative |
| Policy.StricterThresholdsShowLess | foresight.py:834-840 | raising any threshold never makes a metric qualify that did not before |
| Debounce.Step | foresight.py:856-884 | a qualifying frame stores the value and resets the count; a failing frame increments the count; the state invariant is kept |
| Debounce.TrackInv | foresight.py:861-864 | the track invariant: the failure count is non-negative, and once it reaches 3 the remembered value is 0.0; `Debounce.Step` and `Debounce.RunKeepsInv` prove it is kept |
| Debounce.Shown | foresight.py:891-894 | a metric is rendered exactly when its remembered value is positive; see `Debounce.FreshIsHidden` and `Debounce.ZeroQualifyingValueHidden` |
| Debounce.StepEntry | foresight.py:856-884 | stepping the three tracks keeps the entry invariant |
| Debounce.Lookup | foresight.py:848-854 | an absent key reads as the fresh entry; the map invariant gives a well-formed entry |
| Debounce.FreshIsHidden | foresight.py:850-854 | a fresh entry (value 0.0, count 3) is well-formed and shows nothing |
| Debounce.RunKeepsInv | foresight.py:856-884 | any sequence of frames keeps the track invariant |
| Debounce.Run | foresight.py:856-884 | the track after a sequence of frames, each stepped in order; `Debounce.GracePeriod`, `Debounce.ShownThroughTwoFailures` and `Debounce.NeverQualifiedStaysHidden` are stated over it |
| Debounce.GracePeriod | foresight.py:861-864 | after a qualifying frame, `n` failing frames give count `n`, and the value survives while `n < 3` |
| Debounce.ShownThroughTwoFailures | foresight.py:856-894 | a positive value stays shown through two failing frames and disappears on the third |
| Debounce.ReacquireIsImmediate | foresight.py:858-860 | a qualifying frame shows its value at once, whatever came before |
| Debounce.NeverQualifiedStaysHidden | foresight.py:850-864 | a box that never qualifies keeps value 0.0 and a count of `3 + n` |
| Debounce.ZeroQualifyingValueHidden | foresight.py:891-894 | a qualifying value of 0.0 is not shown when debouncing is on |
| Debounce.DebounceMap.constructor | foresight.py:676 | the map starts empty |
| Debounce.DebounceMap.Clear | foresight.py:627 | clearing empties the map |
| Debounce.DebounceMap.Update | foresight.py:847-889 | only the key's entry changes, to the stepped entry (fresh if absent); returns the three debounced values |
| Overlay.TurbidityPart | foresight.py:906 | the `T=` part: `T=` followed by the turbidity to one place; `Overlay.NumberPartLacks` states its characters |
| Overlay.HuePart | foresight.py:908 | the `C=` part: `C=` followed by the hue to one place |
| Overlay.VolumePart | foresight.py:910 | the `V=` part: `V=` followed by the volume fraction to two places |
| Overlay.LabelParts | foresight.py:904-910 | one part per shown metric, each longer than its `X=` prefix |
| Overlay.BuildLabelStrEmptyIff | foresight.py:899-912 | the label is empty if and only if no metric is shown |
| Overlay.BuildLabelStrAll | foresight.py:904-912 | with all metrics shown the label is `T=…, C=…, V=…` |
| Overlay.BuildLabelStrOrder | foresight.py:904-912 | T comes first when shown, C first when T is not shown, V last when shown |
| Overlay.BuildLabelStr | foresight.py:899-912 | `build_label_str`: the shown parts `T=x.x`, `C=x.x`, `V=x.xx` joined by `", "`; its properties are the lemmas around it |
| Overlay.BuildLabelStrOnlyShown | foresight.py:904-912 | the label contains `T=` if and only if turbidity is shown, and likewise `C=` and `V=` |
| Overlay.PartInLabel | foresight.py:904-912 | a part's `X=` head is in the joined label if and only if that part is one of the joined parts, provided that, when it is not joined, no joined part contains the head's first character (true of the `T=`, `C=`, `V=` parts, whose other characters are digits, `.` and `-`) |
| Overlay.NumberPartLacks | foresight.py:906-910 | a part `X=` followed by a number contains no character other than `X`, `=`, digits, `.` and `-` |
| Overlay.VolumeFraction | foresight.py:821-822 | the volume fraction is 0 for a non-positive frame height |
| Overlay.VolumeFractionScales | foresight.py:821-822 | fraction times frame height is the box height, and a box inside the frame gives a fraction within `[0, 1]` |
| Overlay.KeyOf | foresight.py:847 | the debounce key of a box is its four frame coordinates in the order x1, y1, x2, y2 |
| Overlay.KeyIdentifiesBox | foresight.py:847 | two boxes share a debounce entry if and only if all four of their coordinates coincide |
| Overlay.Measure | foresight.py:807-896 | an empty crop gives `""` and leaves the map alone; otherwise at most the box's own key is added or changed; the map invariant is kept |
| Overlay.WithoutDebounceNoMemory | foresight.py:842-844 | without debouncing the text ignores the map, the map is unchanged, and the text is the raw label of the three decisions |
| Overlay.QualifyingTurbidityShownAtOnce | foresight.py:856-896 | with debouncing, a qualifying positive turbidity is shown in the same frame |
| Overlay.DebounceStepsEntry | foresight.py:847-884 | with debouncing, the box's entry afterwards is its previous (or fresh) entry stepped by the three decisions |
| Overlay.RememberedTurbidityShown | foresight.py:861-896 | a turbidity remembered from fewer than two failing frames ago is shown though the current frame does not qualify |
| Overlay.DebouncedText | foresight.py:886-896 | with debouncing and a non-empty crop, the text is the label of the stepped entry's three last values, each shown exactly when positive, and `T=`, `C=`, `V=` appear exactly for the positive ones |
| Pipeline.Annotator.MeasureLiquidOverlay | foresight.py:807-896 | the imperative measurement returns the text and leaves the map as `Overlay.Measure` says |
| Frame.VesselRegion | foresight.py:707-718 | a drawn vessel's crop region lies inside the frame; `Frame.VesselRegionCases` gives both cases |
| Frame.VesselRegionCases | foresight.py:707-731 | a drawn vessel is cropped and offset by its clipped box; a hidden vessel by its raw, unclipped box |
| Frame.RenderItem | foresight.py:714-748 | the drawn box keeps the planned box; the text starts with `label conf`; vessels, and all boxes when the overlay is off, get exactly that text; the map invariant is kept |
| Frame.BaseText | foresight.py:714-740 | the `f"{label} {conf:.2f}"` text of a vessel or content box; `Frame.RenderShape` and `Frame.RenderOverlayOff` state where it is used |
| Frame.RenderContentItem | foresight.py:740-748 | with the overlay on, a non-liquid content box gets `label conf` and leaves the map alone; a liquid one is measured, gets `label conf`, the separator and the measured text `s` when `s` is not empty, and `label conf` otherwise, and the map becomes the measurement's map |
| Frame.Texts | foresight.py:759 | the top-left lines are the drawn texts, in order |
| Frame.PlanSnoc | foresight.py:704 | the plan for one more vessel appends that vessel's items |
| Frame.PlanSnocParts | foresight.py:704-748 | a vessel's items are its head (vessel box or nothing) followed by its content items |
| Frame.VesselItems | foresight.py:704-738 | one iteration of the vessel loop: the vessel's own box unless hidden, then its content items unless its crop is empty; see `Frame.PlanSnocParts` and `Frame.VesselItemsStartWithVessel` |
| Frame.ContentItems | foresight.py:725-738 | the content loop of one vessel: each detection offset, clipped and kept when its class is visible; see `Frame.ContentItemsSnoc`, `Frame.ContentItemsVisible` and `Frame.ContentItemsAllVisible` |
| Frame.Plan | foresight.py:704-738 | what the detection loop draws, in order, before texts are assigned; its properties are the Plan lemmas |
| Frame.Render | foresight.py:740-752 | each planned item rendered in turn with the map left by the ones before; its properties are the Render lemmas |
| Frame.AnnotateFrame | foresight.py:679-760 | `run_detection_on_frame` as a function: no result without vessels, else the rendered plan and the new map; see `Frame.AnnotateFrameShape` |
| Frame.ContentItemsSnoc | foresight.py:725 | the items for one more content box append that box's items |
| Frame.RenderSnoc | foresight.py:752 | rendering one more item appends its drawable and threads the map through it |
| Frame.PerVessel | foresight.py:704-748 | entry `i` is the item list of vessel `i` |
| Frame.PlanIsFlatten | foresight.py:704-748 | the plan is the concatenation of the per-vessel item lists |
| Frame.PerVesselTake | foresight.py:704 | the per-vessel lists of a prefix of vessels are the prefix of the per-vessel lists |
| Frame.PerVesselDrop | foresight.py:704 | the per-vessel lists of a suffix of vessels are the suffix of the per-vessel lists |
| Frame.PlanOrder | foresight.py:704-748 | every vessel's items appear after all earlier vessels' items and before all later ones |
| Frame.VesselItemsStartWithVessel | foresight.py:707-715 | a vessel's items begin with its clipped box if and only if its box is not hidden |
| Frame.ContentItemsAllVisible | foresight.py:725-748 | when every content class is visible there is one item per detection, at its offset-then-clipped box |
| Frame.PlanInBounds | foresight.py:712-733 | every planned box lies inside the frame |
| Frame.ContentItemsInBounds | foresight.py:732-733 | every content item's box lies inside the frame |
| Frame.ContentItemsVisible | foresight.py:735-738 | only visible content classes produce items |
| Frame.PlanOnlyVisible | foresight.py:707-738 | planned content items have visible classes and planned vessel boxes are not hidden |
| Frame.HiddenVesselUsesRawBox | foresight.py:707-720 | a hidden vessel at (-10,0,50,50) draws nothing, not even its contents; they are cropped from the raw box, whose column slice `[-10:50]` wraps to `[90:50]` and is empty, so its contents are lost, while the clipped box's crop would not be empty |
| Frame.RenderLength | foresight.py:752 | rendering gives one drawable per planned item |
| Frame.RenderAt | foresight.py:752 | drawable `i` is item `i` rendered with the map left by the items before it |
| Frame.RenderShape | foresight.py:714-748 | each drawable keeps its item's box and starts with its `label conf` text; vessel texts are exactly that |
| Frame.RenderKeepsInv | foresight.py:847-884 | rendering a frame keeps the debounce map invariant |
| Frame.RenderWithoutDebounce | foresight.py:842-844 | without debouncing, the frame's texts do not depend on the map and the map is unchanged |
| Frame.RenderOverlayOff | foresight.py:742-746 | with the overlay off, every text is exactly `label conf` and the map is unchanged |
| Frame.NoneIffNoVessel | foresight.py:697-698 | the frame has no result if and only if no vessel was detected, and then the map is unchanged |
| Frame.AnnotateFrameShape | foresight.py:697-759 | with vessels, the result has one drawable per planned item, each in the frame, keeping its box and `label conf` prefix, only for visible classes; the map invariant is kept |
| Compositor.Trunc | foresight.py:969 | `int()` truncates toward zero, from below for non-negative input and from above for negative input |
| Compositor.LowerAppend | foresight.py:753 | lower-casing distributes over concatenation |
| Compositor.VesselClassIsYellow | foresight.py:753 | a label whose class contains "vessel" (any case) is drawn yellow; a text without it is drawn red |
| Compositor.VesselItemColor | foresight.py:714-753 | a vessel-class detection's drawn text gets the yellow colour |
| Compositor.BoxColor | foresight.py:753 | a box is drawn yellow or red, nothing else |
| Compositor.LabelAnchorY | foresight.py:755 | the text baseline is at least 15 and at least `y1 - 5`, and is one of the two |
| Compositor.LabelAnchorCases | foresight.py:755 | from `y1 >= 20` the text sits 5 pixels above the box; up to 20 it sits at 15 |
| Compositor.BoxOp | foresight.py:752-756 | each draw operation has the box, its text at `x1`, a baseline of at least 15, and yellow or red |
| Compositor.BoxOps | foresight.py:752-756 | one draw operation per box, in order |
| Compositor.DrawBoxes | foresight.py:752-756 | the drawing loop emits exactly those operations |
| Compositor.CombineSideBySide | foresight.py:936-941 | the combined frame has the original's height and adds the annotated width |
| Compositor.OutputSize | foresight.py:639-641 | the writer's width is doubled with side-by-side, and its height is the frame height |
| Compositor.ComposedMatchesWriter | foresight.py:936-941 | composed frames have exactly the size the writer was opened with |
| Compositor.ComposedSize | foresight.py:936-941 | the size of a written picture: the frame's size, or the side-by-side pair of two equal frames; `Compositor.ComposedMatchesWriter` proves it equals the writer's size |
| Compositor.OutputFps | foresight.py:644 | the writer's frame rate is positive: the capture's rate when positive, else 25 |
| Compositor.LineStep | foresight.py:957 | the list's line step is at least 10 for a non-negative font scale |
| Compositor.ListLayoutShape | foresight.py:953-957 | line `i` is drawn at `(10, 30 + i * step)` |
| Compositor.ListLayout | foresight.py:953-957 | one placed line per text of the list, in order; `Compositor.ListLayoutShape` gives each position |
| Compositor.ListLinesDescend | foresight.py:953-957 | later lines are drawn at the same x and at least 10 pixels lower per line |
| Compositor.DrawTopLeftList | foresight.py:948-958 | the list loop places exactly the lines of the layout |
| Compositor.BarFillIsTruncation | foresight.py:967-969 | the filled count is `int(50 * (current / total))` |
| Compositor.BarFill | foresight.py:967-969 | the filled count has the sign of the current frame: non-negative from frame 0 on |
| Compositor.Bar | foresight.py:967-970 | from frame 0 on the bar has 50 characters, or as many as the fill when the fill exceeds 50 |
| Compositor.RealQuotientFloor | foresight.py:968-969 | integer division is the floor of the exact quotient |
| Compositor.BarFillBounds | foresight.py:967-969 | within the video the fill is within `[0, 50]`, and 50 at the last frame |
| Compositor.BarWithinVideo | foresight.py:967-970 | within the video the bar has 50 characters, `#` exactly in the first `filled` places, all `#` at the last frame |
| Compositor.BarOverflow | foresight.py:969-970 | past the total the bar has at least 50 characters; it has more than 50 if and only if `50 * current >= 51 * total`, in particular from twice the total on |
| Compositor.ProgressLine | foresight.py:965-966 | nothing is printed if and only if the total is not positive |
| Compositor.ProgressLines | foresight.py:666 | one progress line per frame written |
| Compositor.ProgressLinesAt | foresight.py:651-666 | the line after frame `k` reports `k + 1` |
| Pipeline.PicturesUpTo | foresight.py:647-665 | the first `n` pictures of a video |
| Pipeline.PicturesUpToAt | foresight.py:647-665 | picture `k` is frame `k` composed with the map left by the frames before it |
| Pipeline.PicturesUpToAll | foresight.py:647-665 | each picture of a whole video is the picture of its own frame |
| Pipeline.Compose | foresight.py:604-615 | one frame end to end: detection, side-by-side and the top-left list, with the new map; its properties are `ComposeShape` and the lemmas below |
| Pipeline.Picture | foresight.py:604-615 | the written picture of a frame: the composed size, the annotated half's x offset, one draw operation per box, and the top-left list when enabled; see `Pipeline.ComposeShape` |
| Pipeline.ListFontScale | foresight.py:615 | the list is drawn at twice the annotation font scale |
| Pipeline.MapAfter | foresight.py:647-665 | the map after a sequence of frames, each composed in turn |
| Pipeline.PictureAt | foresight.py:647-665 | picture `k` is frame `k` composed with the map the frames before it left |
| Pipeline.FrameTexts | foresight.py:759 | `last_frame_bboxes` after one frame: the texts of its drawn boxes, empty without vessels |
| Pipeline.TextsAfter | foresight.py:647-665 | `last_frame_bboxes` after `n` frames of a video: the last frame's texts, or the previous list before any frame |
| Pipeline.MapAfterSnoc | foresight.py:647-665 | one more frame moves the map on by that frame's composition |
| Pipeline.ComposeShape | foresight.py:604-615 | an output frame has the writer's size, the annotated half at the original's width, one draw operation per box, and the top-left list of those texts at x 10 exactly when enabled |
| Pipeline.NoVesselNoBoxes | foresight.py:697-698 | a frame without vessels is written unannotated, with an empty list, and leaves the map alone |
| Pipeline.ComposeWithoutDebounce | foresight.py:842-844 | without debouncing a frame's picture does not depend on the map, and the map is unchanged |
| Pipeline.VideoWithoutDebounce | foresight.py:621-666 | without debouncing every video frame is drawn as if alone, and the map ends as it began |
| Pipeline.MapAfterWithoutDebounce | foresight.py:647-665 | without debouncing a video leaves the map unchanged |
| Pipeline.MapAfterKeepsInv | foresight.py:647-665 | any video keeps the debounce map invariant |
| Pipeline.Annotator.constructor | foresight.py:675-676 | the program starts with an empty map and an empty list |
| Pipeline.Annotator.RunDetectionOnFrame | foresight.py:679-760 | the nested loops give the frame's drawables and the new map as `Frame.AnnotateFrame` specifies; they draw exactly those boxes and keep their texts for the list |
| Pipeline.Annotator.AddVesselWithContents | foresight.py:704-748 | one step of the outer loop moves the drawables and the map from the plan of the vessels before it to the plan including it |
| Pipeline.Annotator.AddVessel | foresight.py:707-715 | a vessel step appends its head's drawable and leaves the map unchanged |
| Pipeline.Annotator.AddContents | foresight.py:725-748 | the inner loop appends the rendered content items and moves the map on as `Frame.Render` specifies |
| Pipeline.Annotator.AddContentAt | foresight.py:725-748 | one step of the inner loop moves the drawables and the map from the items of the contents before it to the items including it |
| Pipeline.Annotator.AddContent | foresight.py:726-748 | one content box appends its rendered item and moves the map on |
| Pipeline.Annotator.Produce | foresight.py:653-663 | one frame's output picture and new map are `Compose` of the frame, and the list holds that frame's box texts |
| Pipeline.Annotator.ProcessVideoFrame | foresight.py:651-665 | frame `i` of a video gives `PictureAt(i)`, moves the map on by one frame, and leaves that frame's texts in the list |
| Pipeline.Annotator.ProcessImage | foresight.py:590-618 | an image gives the composed picture and moves the map on, without clearing it first; the list holds the image's box texts |
| Pipeline.Annotator.ProcessVideo | foresight.py:621-666 | a video clears the map, opens the writer with the composed size and positive rate, writes picture `k` = `PictureAt(k)` for every frame, ends with the map after all frames, and prints one progress line per frame; the list holds the last frame's texts, or is unchanged for a video without frames |
| Pipeline.Annotator.ProcessFrames | foresight.py:646-666 | the frame loop writes the pictures of all frames in order, ends with the map after all frames and one progress line per frame, and leaves the last frame's texts in the list |

## Left out

- The GUI, the command-line arguments, and model loading. They only set the `Config` value and
  the threshold tuple.
- The detectors (`predict`) and `parse_box_info`. Their output is the model's input:
  - integer boxes, a confidence and a class name for each vessel;
  - for each vessel, the detections inside its crop.
- The detectors' use of the confidence threshold is not modelled. `Policy.ConfidenceThreshold`
  computes the value passed to them.
- The HSV conversion and the `np.mean` statistics. Mean hue and mean value of a non-empty crop
  are inputs (`Measurement`).
- `draw_color_patch` and its effect on later crops. The model assumes the statistics given for
  each box already include whatever was drawn before it.
- Pixels. Rectangles, text and the top-left list are modelled as draw operations, not rendered
  images, and `cv2.resize` in `combine_side_by_side` is modelled only by the resulting size.
- Floating point. Values are exact reals, so binary rounding of the mean, of the quotient and of
  `30 * font_scale + 10` is not modelled.
- Text.Fixed: its contract states only that the text is non-empty. The digits follow
  round-half-even on the exact real value, which can differ from Python's formatting of the
  nearest double.
- Text.Lower: lower-cases ASCII letters only, not the rest of Unicode.
- File I/O:
  - reading the image or video;
  - the "could not read" and "cannot open" error returns;
  - `imwrite` success;
  - releasing the capture and the writer;
  - the final newline after the progress bar.
- The frame count, width, height and rate reported by the capture are parameters of
  `ProcessVideo`.
- Console colouring (`ctext`) and all other printing. The progress line is modelled as the
  string it prints.

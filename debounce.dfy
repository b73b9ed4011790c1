/** The "3-frame rule": a per-box, per-metric hysteresis filter that shows a measurement
    as soon as it qualifies and hides it only after three consecutive frames on which it
    does not. */
module Debounce {

  /** Consecutive failing frames after which a metric is hidden. */
  const Window: int := 3

  /** One metric's memory: the value last shown and the count of consecutive failures. */
  datatype Track = Track(lastVal: real, zeroCount: int)

  /** The memory of one box: a Track for each of T, C and V. */
  datatype Entry = Entry(t: Track, c: Track, v: Track)

  /** The debounce map is keyed by the box's four frame coordinates. */
  type BoxKey = (int, int, int, int)

  /** A metric seen for the first time: nothing to show, and already past the window. */
  const FreshTrack: Track := Track(0.0, Window)

  const FreshEntry: Entry := Entry(FreshTrack, FreshTrack, FreshTrack)

  /** The invariant of a Track: a failure count that has reached the window has cleared the value. */
  predicate TrackInv(s: Track) {
    s.zeroCount >= 0 && (s.zeroCount >= Window ==> s.lastVal == 0.0)
  }

  predicate EntryInv(e: Entry) {
    TrackInv(e.t) && TrackInv(e.c) && TrackInv(e.v)
  }

  predicate MapInv(m: map<BoxKey, Entry>) {
    forall k :: k in m ==> EntryInv(m[k])
  }

  /** A metric is rendered when the value it remembers is positive. */
  predicate Shown(s: Track) {
    s.lastVal > 0.0
  }

  /** One frame of one metric: a qualifying frame takes the current value at once; a failing
      frame counts one more failure and clears the value once the count reaches the window. */
  function Step(s: Track, qualifies: bool, value: real): (r: Track)
    ensures TrackInv(s) ==> TrackInv(r)
    ensures qualifies ==> r == Track(value, 0)
    ensures !qualifies ==> r.zeroCount == s.zeroCount + 1
    ensures !qualifies ==> r.lastVal == (if s.zeroCount + 1 >= Window then 0.0 else s.lastVal)
  {
    if qualifies then Track(value, 0)
    else
      var count := s.zeroCount + 1;
      Track(if count >= Window then 0.0 else s.lastVal, count)
  }

  /** One frame of one box: T, then C, then V. */
  function StepEntry(e: Entry, showT: bool, showC: bool, showV: bool, turbidity: real, hue: real, volume: real): (r: Entry)
    ensures EntryInv(e) ==> EntryInv(r)
  {
    Entry(Step(e.t, showT, turbidity), Step(e.c, showC, hue), Step(e.v, showV, volume))
  }

  /** The entry of `key`, or a fresh one for a key not seen yet. */
  function Lookup(m: map<BoxKey, Entry>, key: BoxKey): (e: Entry)
    ensures key in m ==> e == m[key]
    ensures key !in m ==> e == FreshEntry
    ensures MapInv(m) ==> EntryInv(e)
  {
    if key in m then m[key] else FreshEntry
  }

  /** A metric that has never qualified is not shown. */
  lemma FreshIsHidden()
    ensures TrackInv(FreshTrack) && !Shown(FreshTrack)
    ensures EntryInv(FreshEntry)
  {
  }

  // ---------------------------------------------------------------------------
  // Runs of frames
  // ---------------------------------------------------------------------------

  /** The Track after a run of frames, each a (qualifies, current value) pair, in order. */
  function Run(s: Track, frames: seq<(bool, real)>): Track
    decreases |frames|
  {
    if frames == [] then s
    else Step(Run(s, frames[..|frames| - 1]), frames[|frames| - 1].0, frames[|frames| - 1].1)
  }

  /** Every run keeps the invariant. */
  lemma {:induction false} RunKeepsInv(s: Track, frames: seq<(bool, real)>)
    requires TrackInv(s)
    ensures TrackInv(Run(s, frames))
    decreases |frames|
  {
    if frames != [] {
      RunKeepsInv(s, frames[..|frames| - 1]);
    }
  }

  /** After a qualifying frame with value `v`, `n` failing frames keep `v` while `n` is below
      the window and clear it from the third failure on. */
  lemma {:induction false} GracePeriod(s: Track, v: real, frames: seq<(bool, real)>)
    requires forall i :: 0 <= i < |frames| ==> !frames[i].0
    ensures Run(Step(s, true, v), frames).zeroCount == |frames|
    ensures Run(Step(s, true, v), frames).lastVal == if |frames| < Window then v else 0.0
    decreases |frames|
  {
    if frames != [] {
      GracePeriod(s, v, frames[..|frames| - 1]);
    }
  }

  /** A qualifying value of `v > 0` is rendered through two further failing frames and hidden on
      the third consecutive failure. */
  lemma ShownThroughTwoFailures(s: Track, v: real, a: real, b: real, c: real)
    requires v > 0.0
    ensures Shown(Step(s, true, v))
    ensures Shown(Step(Step(s, true, v), false, a))
    ensures Shown(Step(Step(Step(s, true, v), false, a), false, b))
    ensures !Shown(Step(Step(Step(Step(s, true, v), false, a), false, b), false, c))
  {
  }

  /** A qualifying frame shows the new current value whatever came before it. */
  lemma ReacquireIsImmediate(s: Track, frames: seq<(bool, real)>, v: real)
    ensures Run(s, frames + [(true, v)]) == Track(v, 0)
  {
    assert (frames + [(true, v)])[..|frames|] == frames;
  }

  /** A metric never seen to qualify stays hidden however many frames fail. */
  lemma {:induction false} NeverQualifiedStaysHidden(frames: seq<(bool, real)>)
    requires forall i :: 0 <= i < |frames| ==> !frames[i].0
    ensures Run(FreshTrack, frames) == Track(0.0, Window + |frames|)
    decreases |frames|
  {
    if frames != [] {
      NeverQualifiedStaysHidden(frames[..|frames| - 1]);
    }
  }

  /** Under debouncing a metric that qualifies with the value 0 is not rendered, although the same
      decision without debouncing renders it (as "T=0.0", say). */
  lemma ZeroQualifyingValueHidden(s: Track)
    ensures !Shown(Step(s, true, 0.0))
  {
  }

  // ---------------------------------------------------------------------------
  // The map held across the frames of one video
  // ---------------------------------------------------------------------------

  /** The debounce state of one video run: one Entry per box key seen so far. */
  class DebounceMap {
    var entries: map<BoxKey, Entry>

    ghost predicate Valid()
      reads this
    {
      MapInv(entries)
    }

    constructor ()
      ensures Valid() && entries == map[]
    {
      entries := map[];
    }

    /** Forgets every box, as at the start of a video. */
    method Clear()
      modifies this
      ensures Valid() && entries == map[]
    {
      entries := map[];
    }

    /** Applies one frame's decisions for the box `key` (creating its entry if it is new) and
        returns the values now remembered for T, C and V. */
    method Update(key: BoxKey, showT: bool, showC: bool, showV: bool, turbidity: real, hue: real, volume: real)
      returns (t: real, c: real, v: real)
      requires Valid()
      modifies this
      ensures Valid()
      ensures entries == old(entries)[key := StepEntry(Lookup(old(entries), key), showT, showC, showV, turbidity, hue, volume)]
      ensures t == entries[key].t.lastVal && c == entries[key].c.lastVal && v == entries[key].v.lastVal
    {
      if key !in entries {
        entries := entries[key := FreshEntry];
      }
      var e := entries[key];
      var et := e.t;
      if showT {
        et := Track(turbidity, 0);
      } else {
        et := et.(zeroCount := et.zeroCount + 1);
        if et.zeroCount >= Window {
          et := et.(lastVal := 0.0);
        }
      }
      var ec := e.c;
      if showC {
        ec := Track(hue, 0);
      } else {
        ec := ec.(zeroCount := ec.zeroCount + 1);
        if ec.zeroCount >= Window {
          ec := ec.(lastVal := 0.0);
        }
      }
      var ev := e.v;
      if showV {
        ev := Track(volume, 0);
      } else {
        ev := ev.(zeroCount := ev.zeroCount + 1);
        if ev.zeroCount >= Window {
          ev := ev.(lastVal := 0.0);
        }
      }
      entries := entries[key := Entry(et, ec, ev)];
      t, c, v := et.lastVal, ec.lastVal, ev.lastVal;
    }
  }
}

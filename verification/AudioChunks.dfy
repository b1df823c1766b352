// Planning and splitting of meeting audio: silence intervals become overlapping chunks of bounded
// length, and a work list halves every chunk whose encoding exceeds the provider limit. Times are
// reals; the encoder is a function from a part to its encoded size.
module AudioChunks {
  const OVERLAP_SECONDS := 2.0
  const EPSILON := 0.001
  const PROVIDER_MAX_BYTES: nat := 20 * 1024 * 1024

  datatype Interval = Interval(start: real, end: real) {
    function Length(): real { end - start }

    predicate Contains(t: real) { start <= t <= end }
  }

  function Min(a: real, b: real): real {
    if a < b then a else b
  }

  function Max(a: real, b: real): real {
    if a > b then a else b
  }

  // ---------- Planning ----------

  // The gaps between the silences from the cursor on, ending with the one before `duration`.
  function Gaps(duration: real, silences: seq<Interval>, cursor: real): seq<Interval> {
    if silences == [] then [Interval(cursor, duration)]
    else
      [Interval(cursor, Min(duration, Max(cursor, silences[0].start)))]
      + Gaps(duration, silences[1..], Max(cursor, Min(duration, silences[0].end)))
  }

  function LongEnough(gaps: seq<Interval>, minSpeech: real): seq<Interval> {
    if gaps == [] then []
    else (if gaps[0].Length() >= minSpeech then [gaps[0]] else []) + LongEnough(gaps[1..], minSpeech)
  }

  // The gaps long enough to hold speech, or the whole recording when there is none.
  function Speech(duration: real, silences: seq<Interval>, minSpeech: real): seq<Interval> {
    var speech := LongEnough(Gaps(duration, silences, 0.0), minSpeech);
    if speech == [] then [Interval(0.0, duration)] else speech
  }

  // How many steps of the given size fit into a length, rounded up.
  function Rounds(length: real, step: real): nat
    requires step > 0.0
  {
    if length <= 0.0 then 0 else RoundsFloor(length, step) + 1
  }

  function RoundsFloor(length: real, step: real): (n: nat)
    requires step > 0.0 && length > 0.0
    ensures n as real <= length / step < n as real + 1.0
  {
    PositiveQuotient(length, step);
    (length / step).Floor
  }

  lemma PositiveQuotient(length: real, step: real)
    requires step > 0.0 && length > 0.0
    ensures length / step > 0.0
  {
    var q := length / step;
    assert q * step == length;
  }

  // A length shorter by a step takes fewer rounds.
  lemma FewerRounds(shorter: real, length: real, step: real)
    requires step > 0.0 && length > 0.0 && shorter <= length - step
    ensures Rounds(shorter, step) < Rounds(length, step)
  {
    if shorter > 0.0 {
      ShorterByStep(shorter, length, step);
      var n, m := RoundsFloor(shorter, step), RoundsFloor(length, step);
      assert n as real < m as real;
    }
  }

  lemma ShorterByStep(shorter: real, length: real, step: real)
    requires step > 0.0 && shorter <= length - step
    ensures shorter / step <= length / step - 1.0
  {
    var a, b := shorter / step, length / step;
    assert a * step == shorter && b * step == length;
    if a > b - 1.0 {
      PositiveProduct(a - b + 1.0, step);
    }
  }

  lemma PositiveProduct(x: real, y: real)
    requires x > 0.0 && y > 0.0
    ensures x * y > 0.0
  {
  }

  // Windows of at most `maxChunk` seconds over one speech interval, each starting `overlap` seconds
  // before the end of the one before it.
  function Windows(start: real, end: real, maxChunk: real, overlap: real): seq<Interval>
    requires maxChunk > overlap >= 0.0
    decreases Rounds(end - start, maxChunk - overlap)
  {
    if start >= end - EPSILON then []
    else
      var stop := Min(end, start + maxChunk);
      if stop >= end - EPSILON then [Interval(start, stop)]
      else
        FewerRounds(end - (stop - overlap), end - start, maxChunk - overlap);
        [Interval(start, stop)] + Windows(stop - overlap, end, maxChunk, overlap)
  }

  function WindowsOfAll(speech: seq<Interval>, maxChunk: real, overlap: real): seq<Interval>
    requires maxChunk > overlap >= 0.0
  {
    if speech == [] then []
    else
      var n := |speech| - 1;
      WindowsOfAll(speech[..n], maxChunk, overlap) + Windows(speech[n].start, speech[n].end, maxChunk, overlap)
  }

  function Plan(duration: real, silences: seq<Interval>, maxChunk: real, overlap: real, minSpeech: real): seq<Interval>
    requires maxChunk > overlap >= 0.0
  {
    WindowsOfAll(Speech(duration, silences, minSpeech), maxChunk, overlap)
  }

  lemma LongEnoughHead(gap: Interval, rest: seq<Interval>, minSpeech: real)
    ensures LongEnough([gap] + rest, minSpeech) == (if gap.Length() >= minSpeech then [gap] else []) + LongEnough(rest, minSpeech)
  {
    assert ([gap] + rest)[1..] == rest;
  }

  // The gap before the next silence, and the cursor after it.
  lemma GapsStep(duration: real, silences: seq<Interval>, i: nat, cursor: real, minSpeech: real)
    requires i < |silences|
    ensures var gap := Interval(cursor, Min(duration, Max(cursor, silences[i].start)));
            LongEnough(Gaps(duration, silences[i..], cursor), minSpeech)
            == (if gap.Length() >= minSpeech then [gap] else [])
               + LongEnough(Gaps(duration, silences[i + 1..], Max(cursor, Min(duration, silences[i].end))), minSpeech)
  {
    assert silences[i..][1..] == silences[i + 1..];
    LongEnoughHead(Interval(cursor, Min(duration, Max(cursor, silences[i].start))),
                   Gaps(duration, silences[i + 1..], Max(cursor, Min(duration, silences[i].end))), minSpeech);
  }

  // One more window in front: its length and its overlap with the next one.
  lemma WindowsUnfold(start: real, end: real, maxChunk: real, overlap: real)
    requires maxChunk > overlap >= 0.0 && start < end - EPSILON
    ensures var stop := Min(end, start + maxChunk);
            && (stop >= end - EPSILON ==> Windows(start, end, maxChunk, overlap) == [Interval(start, stop)])
            && (stop < end - EPSILON ==>
                (stop == start + maxChunk && start < stop
                 && Windows(start, end, maxChunk, overlap) == [Interval(start, stop)] + Windows(stop - overlap, end, maxChunk, overlap)
                 && Rounds(end - (stop - overlap), maxChunk - overlap) < Rounds(end - start, maxChunk - overlap)))
  {
    var stop := Min(end, start + maxChunk);
    if stop < end - EPSILON {
      FewerRounds(end - (stop - overlap), end - start, maxChunk - overlap);
    }
  }

  // The planner's next window in front of those that follow it.
  lemma WindowsNext(chunks: seq<Interval>, start: real, end: real, maxChunk: real, overlap: real)
    requires maxChunk > overlap >= 0.0 && start < end - EPSILON
    ensures var stop := Min(end, start + maxChunk);
      && (stop >= end - EPSILON ==> chunks + [Interval(start, stop)] == chunks + Windows(start, end, maxChunk, overlap))
      && (stop < end - EPSILON ==>
            Rounds(end - (stop - overlap), maxChunk - overlap) < Rounds(end - start, maxChunk - overlap)
            && (chunks + [Interval(start, stop)]) + Windows(stop - overlap, end, maxChunk, overlap) == chunks + Windows(start, end, maxChunk, overlap))
  {
    hide Windows, Rounds;
    WindowsUnfold(start, end, maxChunk, overlap);
  }

  lemma WindowsEmpty(start: real, end: real, maxChunk: real, overlap: real)
    requires maxChunk > overlap >= 0.0
    ensures start >= end - EPSILON ==> Windows(start, end, maxChunk, overlap) == []
  {
  }

  method PlanBoundedSpeechChunks(duration: real, silences: seq<Interval>, maxChunk: real, overlap: real, minSpeech: real)
    returns (chunks: seq<Interval>)
    requires maxChunk > overlap >= 0.0
    ensures chunks == Plan(duration, silences, maxChunk, overlap, minSpeech)
  {
    hide Windows, Rounds;
    var speech := CollectSpeech(duration, silences, minSpeech);
    chunks := [];
    for i := 0 to |speech|
      invariant chunks == WindowsOfAll(speech[..i], maxChunk, overlap)
    {
      assert speech[..i + 1][..i] == speech[..i];
      var start, stop := speech[i].start, speech[i].end;
      ghost var planned := chunks;
      while start < stop - EPSILON
        invariant planned + Windows(speech[i].start, stop, maxChunk, overlap) == chunks + Windows(start, stop, maxChunk, overlap)
        decreases Rounds(stop - start, maxChunk - overlap)
      {
        WindowsNext(chunks, start, stop, maxChunk, overlap);
        var end := Min(stop, start + maxChunk);
        chunks := chunks + [Interval(start, end)];
        if end >= stop - EPSILON {
          start := stop;
          break;
        }
        start := end - overlap;
      }
      WindowsEmpty(start, stop, maxChunk, overlap);
      assert chunks == planned + Windows(speech[i].start, stop, maxChunk, overlap);
    }
    assert speech[..|speech|] == speech;
  }

  // The first loop of the planner.
  method CollectSpeech(duration: real, silences: seq<Interval>, minSpeech: real) returns (speech: seq<Interval>)
    ensures speech == Speech(duration, silences, minSpeech)
  {
    hide Gaps, LongEnough;
    speech := [];
    var cursor := 0.0;
    assert silences[0..] == silences;
    for i := 0 to |silences|
      invariant LongEnough(Gaps(duration, silences, 0.0), minSpeech) == speech + LongEnough(Gaps(duration, silences[i..], cursor), minSpeech)
    {
      GapsStep(duration, silences, i, cursor, minSpeech);
      var start := Min(duration, Max(cursor, silences[i].start));
      if start - cursor >= minSpeech {
        speech := speech + [Interval(cursor, start)];
      }
      cursor := Max(cursor, Min(duration, silences[i].end));
    }
    assert silences[|silences|..] == [];
    LastGap(duration, cursor, minSpeech);
    if duration - cursor >= minSpeech {
      speech := speech + [Interval(cursor, duration)];
    }
    if |speech| == 0 {
      speech := [Interval(0.0, duration)];
    }
  }

  lemma LastGap(duration: real, cursor: real, minSpeech: real)
    ensures LongEnough(Gaps(duration, [], cursor), minSpeech)
         == if duration - cursor >= minSpeech then [Interval(cursor, duration)] else []
  {
  }

  // ---------- What a plan guarantees ----------

  // Windows over one speech interval: inside it, at most `maxChunk` long, each but the last exactly
  // so and overlapping its successor by exactly `overlap`, from the start to the last millisecond.
  predicate Tiles(w: seq<Interval>, start: real, end: real, maxChunk: real, overlap: real) {
    && (forall i :: 0 <= i < |w| ==> start <= w[i].start < w[i].end <= end && w[i].Length() <= maxChunk)
    && (forall i :: 0 <= i < |w| - 1 ==> w[i + 1].start == w[i].end - overlap && w[i].Length() == maxChunk)
    && (w != [] ==> w[0].start == start && w[|w| - 1].end >= end - EPSILON)
    && (w == [] <==> start >= end - EPSILON)
  }

  lemma TilesCons(rest: seq<Interval>, start: real, end: real, maxChunk: real, overlap: real)
    requires maxChunk > overlap >= 0.0 && start + maxChunk < end - EPSILON
    requires Tiles(rest, start + maxChunk - overlap, end, maxChunk, overlap)
    ensures Tiles([Interval(start, start + maxChunk)] + rest, start, end, maxChunk, overlap)
  {
  }

  lemma TilesOne(start: real, end: real, maxChunk: real, overlap: real)
    requires maxChunk > overlap >= 0.0 && start < end - EPSILON
    requires Min(end, start + maxChunk) >= end - EPSILON
    ensures Tiles([Interval(start, Min(end, start + maxChunk))], start, end, maxChunk, overlap)
  {
  }

  lemma TilesNone(start: real, end: real, maxChunk: real, overlap: real)
    requires start >= end - EPSILON
    ensures Tiles([], start, end, maxChunk, overlap)
  {
  }

  lemma {:induction false} WindowsTile(start: real, end: real, maxChunk: real, overlap: real)
    requires maxChunk > overlap >= 0.0
    ensures Tiles(Windows(start, end, maxChunk, overlap), start, end, maxChunk, overlap)
    decreases Rounds(end - start, maxChunk - overlap)
  {
    hide Windows, Rounds, Tiles;
    if start >= end - EPSILON {
      WindowsEmpty(start, end, maxChunk, overlap);
      TilesNone(start, end, maxChunk, overlap);
    } else {
      WindowsUnfold(start, end, maxChunk, overlap);
      var stop := Min(end, start + maxChunk);
      if stop < end - EPSILON {
        WindowsTile(stop - overlap, end, maxChunk, overlap);
        TilesCons(Windows(stop - overlap, end, maxChunk, overlap), start, end, maxChunk, overlap);
      } else {
        TilesOne(start, end, maxChunk, overlap);
      }
    }
  }

  lemma {:induction false} WindowsCover(start: real, end: real, maxChunk: real, overlap: real, t: real)
    requires maxChunk > overlap >= 0.0 && start <= t <= end - EPSILON && start < end - EPSILON
    ensures InSome(Windows(start, end, maxChunk, overlap), t)
    decreases Rounds(end - start, maxChunk - overlap)
  {
    hide InSome;
    var w := Windows(start, end, maxChunk, overlap);
    InSomeTail(w, t);
    WindowsUnfold(start, end, maxChunk, overlap);
    var stop := Min(end, start + maxChunk);
    if t > stop {
      WindowsCover(stop - overlap, end, maxChunk, overlap, t);
      assert w[1..] == Windows(stop - overlap, end, maxChunk, overlap);
    }
  }

  predicate InSome(intervals: seq<Interval>, t: real) {
    exists i :: 0 <= i < |intervals| && intervals[i].Contains(t)
  }

  lemma InSomeTail(intervals: seq<Interval>, t: real)
    requires intervals != []
    ensures InSome(intervals, t) <==> intervals[0].Contains(t) || InSome(intervals[1..], t)
  {
    if i :| 0 <= i < |intervals| && intervals[i].Contains(t) {
      assert i > 0 ==> intervals[1..][i - 1].Contains(t);
    }
    if i :| 0 <= i < |intervals[1..]| && intervals[1..][i].Contains(t) {
      assert intervals[i + 1].Contains(t);
    }
  }

  // Every instant after the cursor is in a gap or in a silence.
  lemma {:induction false} GapsCover(duration: real, silences: seq<Interval>, cursor: real, t: real)
    requires forall i :: 0 <= i < |silences| ==> silences[i].start <= silences[i].end
    requires cursor <= t <= duration
    ensures InSome(Gaps(duration, silences, cursor), t) || InSome(silences, t)
  {
    hide InSome;
    var gaps := Gaps(duration, silences, cursor);
    InSomeTail(gaps, t);
    if silences != [] && t > gaps[0].end {
      InSomeTail(silences, t);
      var next := Max(cursor, Min(duration, silences[0].end));
      if t >= next {
        assert gaps[1..] == Gaps(duration, silences[1..], next);
        GapsCover(duration, silences[1..], next, t);
      }
    }
  }

  lemma {:induction false} LongEnoughKeeps(gaps: seq<Interval>, minSpeech: real, i: nat)
    requires i < |gaps| && gaps[i].Length() >= minSpeech
    ensures gaps[i] in LongEnough(gaps, minSpeech)
  {
    if i > 0 {
      LongEnoughKeeps(gaps[1..], minSpeech, i - 1);
    }
  }

  lemma {:induction false} WindowsOfAllKeeps(speech: seq<Interval>, maxChunk: real, overlap: real, i: nat, w: Interval)
    requires maxChunk > overlap >= 0.0 && i < |speech|
    requires w in Windows(speech[i].start, speech[i].end, maxChunk, overlap)
    ensures w in WindowsOfAll(speech, maxChunk, overlap)
  {
    var n := |speech| - 1;
    if i < n {
      WindowsOfAllKeeps(speech[..n], maxChunk, overlap, i, w);
    }
  }

  // Every instant of the recording is in a chunk, in a silence, in a dropped gap that is too short to
  // hold speech, or in the last millisecond of a speech interval; in a chunk or the last millisecond of
  // all, when no gap is long enough.
  lemma PlanCovers(duration: real, silences: seq<Interval>, maxChunk: real, overlap: real, minSpeech: real, t: real)
    requires maxChunk > overlap >= 0.0 && 0.0 <= t <= duration
    requires forall i :: 0 <= i < |silences| ==> silences[i].start <= silences[i].end
    ensures var planned := exists c :: c in Plan(duration, silences, maxChunk, overlap, minSpeech) && c.Contains(t);
      if forall g :: g in Gaps(duration, silences, 0.0) ==> g.Length() < minSpeech then planned || duration - EPSILON <= t
      else
        || planned
        || InSome(silences, t)
        || (exists g :: g in Gaps(duration, silences, 0.0) && g.Contains(t) && g.Length() < minSpeech)
        || (exists s :: s in Speech(duration, silences, minSpeech) && s.end - EPSILON <= t <= s.end)
  {
    var gaps := Gaps(duration, silences, 0.0);
    if forall g :: g in gaps ==> g.Length() < minSpeech {
      forall g ensures g !in LongEnough(gaps, minSpeech) {
        LongEnoughAre(gaps, minSpeech, g);
      }
      EmptyOrNot(LongEnough(gaps, minSpeech));
      SpeechIsPlanned(Speech(duration, silences, minSpeech), maxChunk, overlap, Interval(0.0, duration), t);
    } else {
      GapsCover(duration, silences, 0.0, t);
      if i :| 0 <= i < |gaps| && gaps[i].Contains(t) {
        if gaps[i].Length() >= minSpeech {
          LongEnoughKeeps(gaps, minSpeech, i);
          SpeechIsPlanned(Speech(duration, silences, minSpeech), maxChunk, overlap, gaps[i], t);
        } else {
          assert gaps[i] in gaps;
        }
      }
    }
  }

  lemma SpeechIsPlanned(speech: seq<Interval>, maxChunk: real, overlap: real, s: Interval, t: real)
    requires maxChunk > overlap >= 0.0 && s in speech && s.Contains(t)
    ensures (exists c :: c in WindowsOfAll(speech, maxChunk, overlap) && c.Contains(t)) || s.end - EPSILON <= t <= s.end
  {
    if t < s.end - EPSILON {
      WindowsCover(s.start, s.end, maxChunk, overlap, t);
      var w := Windows(s.start, s.end, maxChunk, overlap);
      var k :| 0 <= k < |w| && w[k].Contains(t);
      var i :| 0 <= i < |speech| && speech[i] == s;
      WindowsOfAllKeeps(speech, maxChunk, overlap, i, w[k]);
    }
  }

  // The two have at most an end in common.
  predicate Apart(a: Interval, b: Interval) {
    a.end <= b.start || b.end <= a.start
  }

  // No gap reaches into a silence, for silences in the order of their starts.
  lemma {:induction false} GapsAvoidSilences(duration: real, silences: seq<Interval>, cursor: real, g: Interval, k: nat)
    requires forall i, j :: 0 <= i < j < |silences| ==> silences[i].start <= silences[j].start
    requires g in Gaps(duration, silences, cursor) && cursor <= duration && k < |silences|
    ensures cursor <= g.start && g.end <= duration
    ensures g.start < g.end ==> Apart(g, silences[k])
  {
    var next := Max(cursor, Min(duration, silences[0].end));
    if g in Gaps(duration, silences[1..], next) {
      if |silences| > 1 {
        GapsAvoidSilences(duration, silences[1..], next, g, if k == 0 then 0 else k - 1);
      }
    }
  }

  lemma {:induction false} LongEnoughAre(gaps: seq<Interval>, minSpeech: real, g: Interval)
    ensures g in LongEnough(gaps, minSpeech) <==> g in gaps && g.Length() >= minSpeech
  {
    if gaps != [] {
      LongEnoughAre(gaps[1..], minSpeech, g);
    }
  }

  lemma {:induction false} WindowOfSome(speech: seq<Interval>, maxChunk: real, overlap: real, w: Interval)
    requires maxChunk > overlap >= 0.0 && w in WindowsOfAll(speech, maxChunk, overlap)
    ensures exists s :: s in speech && s.start <= w.start < w.end <= s.end
  {
    var n := |speech| - 1;
    if w in WindowsOfAll(speech[..n], maxChunk, overlap) {
      WindowOfSome(speech[..n], maxChunk, overlap, w);
    } else {
      WindowsTile(speech[n].start, speech[n].end, maxChunk, overlap);
    }
  }

  lemma EmptyOrNot(gaps: seq<Interval>)
    ensures gaps == [] || exists g :: g in gaps
  {
    if gaps != [] {
      assert gaps[0] in gaps;
    }
  }

  // No chunk reaches into a silence, unless no gap is long enough to hold speech: then the whole recording
  // is cut up. And each chunk lies in a gap that is long enough.
  lemma PlanAvoidsSilences(duration: real, silences: seq<Interval>, maxChunk: real, overlap: real, minSpeech: real, c: Interval)
    requires maxChunk > overlap >= 0.0 && 0.0 <= duration
    requires forall i, j :: 0 <= i < j < |silences| ==> silences[i].start <= silences[j].start
    requires c in Plan(duration, silences, maxChunk, overlap, minSpeech)
    ensures if forall g :: g in Gaps(duration, silences, 0.0) ==> g.Length() < minSpeech then 0.0 <= c.start < c.end <= duration
      else
        && (exists g :: g in Gaps(duration, silences, 0.0) && g.Length() >= minSpeech && g.start <= c.start < c.end <= g.end)
        && forall k :: 0 <= k < |silences| ==> Apart(c, silences[k])
  {
    hide Gaps, LongEnough, WindowsOfAll, Windows;
    var gaps, speech := Gaps(duration, silences, 0.0), Speech(duration, silences, minSpeech);
    forall g ensures g in LongEnough(gaps, minSpeech) <==> g in gaps && g.Length() >= minSpeech {
      LongEnoughAre(gaps, minSpeech, g);
    }
    WindowOfSome(speech, maxChunk, overlap, c);
    var s :| s in speech && s.start <= c.start < c.end <= s.end;
    if g :| g in gaps && g.Length() >= minSpeech {
      assert g in LongEnough(gaps, minSpeech);
      assert s in gaps && s.Length() >= minSpeech;
      forall k | 0 <= k < |silences| ensures Apart(c, silences[k]) {
        GapsAvoidSilences(duration, silences, 0.0, s, k);
      }
    } else {
      EmptyOrNot(LongEnough(gaps, minSpeech));
    }
  }

  // Speech intervals in order, without overlap.
  predicate Ordered(speech: seq<Interval>) {
    && (forall i :: 0 <= i < |speech| ==> speech[i].start <= speech[i].end)
    && forall i, j :: 0 <= i < j < |speech| ==> speech[i].end <= speech[j].start
  }

  lemma {:induction false} GapsOrdered(duration: real, silences: seq<Interval>, cursor: real)
    requires forall i :: 0 <= i < |silences| ==> silences[i].start <= silences[i].end
    requires cursor <= duration
    ensures Ordered(Gaps(duration, silences, cursor))
    ensures forall g :: g in Gaps(duration, silences, cursor) ==> cursor <= g.start && g.end <= duration
  {
    if silences != [] {
      GapsOrdered(duration, silences[1..], Max(cursor, Min(duration, silences[0].end)));
    }
  }

  lemma {:induction false} LongEnoughOrdered(gaps: seq<Interval>, minSpeech: real)
    requires Ordered(gaps)
    ensures Ordered(LongEnough(gaps, minSpeech))
    ensures forall g :: g in LongEnough(gaps, minSpeech) ==> g in gaps
  {
    if gaps != [] {
      LongEnoughOrdered(gaps[1..], minSpeech);
      var rest := LongEnough(gaps[1..], minSpeech);
      forall j | 0 <= j < |rest|
        ensures gaps[0].end <= rest[j].start
      {
        assert rest[j] in gaps[1..];
      }
    }
  }

  // Neighbouring chunks: starts never go back, and the next chunk starts at most `overlap` seconds
  // before the end of the one before it.
  predicate Stepwise(chunks: seq<Interval>, overlap: real) {
    forall i :: 0 <= i < |chunks| - 1 ==>
      chunks[i].start <= chunks[i + 1].start && chunks[i].end - overlap <= chunks[i + 1].start
  }

  lemma WindowsStepwise(start: real, end: real, maxChunk: real, overlap: real)
    requires maxChunk > overlap >= 0.0
    ensures Stepwise(Windows(start, end, maxChunk, overlap), overlap)
  {
    WindowsTile(start, end, maxChunk, overlap);
  }

  lemma StepwiseAppend(a: seq<Interval>, b: seq<Interval>, overlap: real)
    requires Stepwise(a, overlap) && Stepwise(b, overlap)
    requires a != [] && b != [] ==> a[|a| - 1].start <= b[0].start && a[|a| - 1].end - overlap <= b[0].start
    ensures Stepwise(a + b, overlap)
  {
  }

  lemma WindowsOfAllUnfold(speech: seq<Interval>, maxChunk: real, overlap: real)
    requires maxChunk > overlap >= 0.0 && speech != []
    ensures var n := |speech| - 1;
            WindowsOfAll(speech, maxChunk, overlap)
            == WindowsOfAll(speech[..n], maxChunk, overlap) + Windows(speech[n].start, speech[n].end, maxChunk, overlap)
  {
  }

  predicate Bounded(chunks: seq<Interval>, maxChunk: real, limit: real) {
    forall c :: c in chunks ==> c.start < c.end <= limit && c.Length() <= maxChunk
  }

  lemma {:induction false} WindowsOfAllStepwise(speech: seq<Interval>, maxChunk: real, overlap: real, limit: real)
    requires maxChunk > overlap >= 0.0 && Ordered(speech)
    requires forall i :: 0 <= i < |speech| ==> speech[i].end <= limit
    ensures Stepwise(WindowsOfAll(speech, maxChunk, overlap), overlap)
    ensures Bounded(WindowsOfAll(speech, maxChunk, overlap), maxChunk, limit)
  {
    if speech != [] {
      hide Windows, Stepwise, WindowsOfAll;
      var n := |speech| - 1;
      WindowsOfAllUnfold(speech, maxChunk, overlap);
      var before, last := WindowsOfAll(speech[..n], maxChunk, overlap), Windows(speech[n].start, speech[n].end, maxChunk, overlap);
      WindowsOfAllStepwise(speech[..n], maxChunk, overlap, speech[n].start);
      WindowsTile(speech[n].start, speech[n].end, maxChunk, overlap);
      WindowsStepwise(speech[n].start, speech[n].end, maxChunk, overlap);
      if before != [] {
        assert before[|before| - 1] in before;
      }
      StepwiseAppend(before, last, overlap);
    }
  }

  // The chunks of a plan are at most `maxChunk` long and advance stepwise.
  lemma PlanIsStepwise(duration: real, silences: seq<Interval>, maxChunk: real, overlap: real, minSpeech: real)
    requires maxChunk > overlap >= 0.0 && 0.0 <= duration
    requires forall i :: 0 <= i < |silences| ==> silences[i].start <= silences[i].end
    ensures var chunks := Plan(duration, silences, maxChunk, overlap, minSpeech);
            Stepwise(chunks, overlap) && Bounded(chunks, maxChunk, duration)
  {
    GapsOrdered(duration, silences, 0.0);
    LongEnoughOrdered(Gaps(duration, silences, 0.0), minSpeech);
    WindowsOfAllStepwise(Speech(duration, silences, minSpeech), maxChunk, overlap, duration);
  }

  // ---------- Splitting ----------

  // The encoded size of a part in bytes.
  type Encoder = Interval -> nat

  predicate Oversized(size: Encoder, part: Interval) {
    size(part) > PROVIDER_MAX_BYTES
  }

  function FirstHalf(part: Interval): Interval {
    Interval(part.start, (part.start + part.end) / 2.0)
  }

  function SecondHalf(part: Interval): Interval {
    Interval(Max(part.start, (part.start + part.end) / 2.0 - OVERLAP_SECONDS), part.end)
  }

  // Every part between two seconds and `bound` fits. Since halving overlaps by two seconds, a part of
  // length L gives parts of length L / 2 and L / 2 + 2; only above four seconds both are shorter.
  ghost predicate FitsUpTo(size: Encoder, bound: real) {
    bound > 4.0 && forall part: Interval :: 2.0 <= part.Length() <= bound ==> !Oversized(size, part)
  }

  lemma HalvesShrink(part: Interval, bound: real)
    requires bound > 4.0 && part.Length() > bound
    ensures FirstHalf(part).Length() == part.Length() / 2.0 && SecondHalf(part).Length() == part.Length() / 2.0 + 2.0
    ensures 2.0 < FirstHalf(part).Length() <= part.Length() - (bound / 2.0 - 2.0)
    ensures 2.0 < SecondHalf(part).Length() <= part.Length() - (bound / 2.0 - 2.0)
    ensures Rounds(FirstHalf(part).Length(), bound / 2.0 - 2.0) < Rounds(part.Length(), bound / 2.0 - 2.0)
    ensures Rounds(SecondHalf(part).Length(), bound / 2.0 - 2.0) < Rounds(part.Length(), bound / 2.0 - 2.0)
  {
    var step := bound / 2.0 - 2.0;
    FewerRounds(FirstHalf(part).Length(), part.Length(), step);
    FewerRounds(SecondHalf(part).Length(), part.Length(), step);
  }

  // A part that is oversized although it is too short to be halved.
  predicate Hopeless(size: Encoder, part: Interval) {
    Oversized(size, part) && part.Length() < 2.0
  }

  // The pieces a part ends up in.
  ghost function Pieces(size: Encoder, part: Interval, bound: real): (r: seq<Interval>)
    requires FitsUpTo(size, bound)
    ensures |r| > 0
    decreases Rounds(part.Length(), bound / 2.0 - 2.0)
  {
    if !Oversized(size, part) || Hopeless(size, part) then [part]
    else
      HalvesShrink(part, bound);
      Pieces(size, FirstHalf(part), bound) + Pieces(size, SecondHalf(part), bound)
  }

  // The pieces of all parts up to the first hopeless one.
  ghost function PiecesOfAll(size: Encoder, parts: seq<Interval>, bound: real): seq<Interval>
    requires FitsUpTo(size, bound)
  {
    if parts == [] || Hopeless(size, parts[0]) then []
    else Pieces(size, parts[0], bound) + PiecesOfAll(size, parts[1..], bound)
  }

  ghost predicate AnyHopeless(size: Encoder, parts: seq<Interval>) {
    exists i :: 0 <= i < |parts| && Hopeless(size, parts[i])
  }

  // How often the loop turns for the parts still pending.
  ghost function Turns(size: Encoder, part: Interval, bound: real): nat
    requires FitsUpTo(size, bound)
    decreases Rounds(part.Length(), bound / 2.0 - 2.0)
  {
    if !Oversized(size, part) || Hopeless(size, part) then 1
    else
      HalvesShrink(part, bound);
      1 + Turns(size, FirstHalf(part), bound) + Turns(size, SecondHalf(part), bound)
  }

  ghost function TurnsOfAll(size: Encoder, stack: seq<Interval>, bound: real): nat
    requires FitsUpTo(size, bound)
  {
    if stack == [] then 0 else TurnsOfAll(size, stack[..|stack| - 1], bound) + Turns(size, stack[|stack| - 1], bound)
  }

  function Reverse(s: seq<Interval>): seq<Interval> {
    if s == [] then [] else [s[|s| - 1]] + Reverse(s[..|s| - 1])
  }

  // JavaScript's Math.round.
  function Round(x: real): int {
    (x + 0.5).Floor
  }

  datatype Chunk = Chunk(index: nat, part: Interval, offsetMs: int, durationMs: int)

  function ToChunk(index: nat, part: Interval): Chunk {
    Chunk(index, part, Round(part.start * 1000.0), Round(part.Length() * 1000.0))
  }

  // The time in seconds, to the nearest millisecond; a half goes up.
  predicate NearestMs(ms: int, seconds: real) {
    seconds * 1000.0 - 0.5 < ms as real <= seconds * 1000.0 + 0.5
  }

  // The chunks are the pieces in their order, numbered, with start and length in milliseconds.
  predicate Describe(chunks: seq<Chunk>, pieces: seq<Interval>) {
    && |chunks| == |pieces|
    && forall i :: 0 <= i < |chunks| ==>
         && chunks[i].index == i && chunks[i].part == pieces[i]
         && NearestMs(chunks[i].offsetMs, pieces[i].start) && NearestMs(chunks[i].durationMs, pieces[i].end - pieces[i].start)
  }

  lemma {:induction false} ReverseSnoc(s: seq<Interval>, x: Interval)
    ensures Reverse(s + [x]) == [x] + Reverse(s)
  {
    assert (s + [x])[..|s|] == s;
  }

  lemma {:induction false} ReverseTwice(s: seq<Interval>)
    ensures Reverse(Reverse(s)) == s
  {
    if s != [] {
      var n := |s| - 1;
      ReverseTwice(s[..n]);
      ReverseCons(s[n], Reverse(s[..n]));
    }
  }

  lemma {:induction false} ReverseCons(x: Interval, s: seq<Interval>)
    ensures Reverse([x] + s) == Reverse(s) + [x]
  {
    if s == [] {
      assert [x] + s == [x];
    } else {
      var n := |s| - 1;
      assert ([x] + s)[..n + 1] == [x] + s[..n];
      ReverseCons(x, s[..n]);
    }
  }

  lemma TurnsPush(size: Encoder, stack: seq<Interval>, part: Interval, bound: real)
    requires FitsUpTo(size, bound)
    ensures TurnsOfAll(size, stack + [part], bound) == TurnsOfAll(size, stack, bound) + Turns(size, part, bound)
  {
    assert (stack + [part])[..|stack|] == stack;
  }

  // What the loop still has to emit, read from the top of the stack.
  ghost function ToEmit(size: Encoder, stack: seq<Interval>, bound: real): seq<Interval>
    requires FitsUpTo(size, bound)
  {
    PiecesOfAll(size, Reverse(stack), bound)
  }

  lemma EmitTop(size: Encoder, stack: seq<Interval>, part: Interval, bound: real)
    requires FitsUpTo(size, bound)
    ensures ToEmit(size, stack + [part], bound)
         == if Hopeless(size, part) then [] else Pieces(size, part, bound) + ToEmit(size, stack, bound)
    ensures AnyHopeless(size, Reverse(stack + [part])) <==> Hopeless(size, part) || AnyHopeless(size, Reverse(stack))
  {
    ReverseSnoc(stack, part);
    var r := Reverse(stack);
    assert ([part] + r)[1..] == r;
    if AnyHopeless(size, r) {
      var i :| 0 <= i < |r| && Hopeless(size, r[i]);
      assert Hopeless(size, ([part] + r)[i + 1]);
    }
    if Hopeless(size, part) {
      assert Hopeless(size, ([part] + r)[0]);
    }
  }

  lemma SplitPart(size: Encoder, part: Interval, bound: real)
    requires FitsUpTo(size, bound) && Oversized(size, part) && !Hopeless(size, part)
    ensures !Hopeless(size, FirstHalf(part)) && !Hopeless(size, SecondHalf(part))
    ensures Pieces(size, part, bound) == Pieces(size, FirstHalf(part), bound) + Pieces(size, SecondHalf(part), bound)
    ensures Turns(size, part, bound) == 1 + Turns(size, FirstHalf(part), bound) + Turns(size, SecondHalf(part), bound)
  {
    HalvesShrink(part, bound);
  }

  // Splitting the top replaces it by its two halves, first half on top.
  lemma SplitTop(size: Encoder, stack: seq<Interval>, part: Interval, bound: real)
    requires FitsUpTo(size, bound) && Oversized(size, part) && !Hopeless(size, part)
    ensures ToEmit(size, stack + [part], bound) == ToEmit(size, stack + [SecondHalf(part)] + [FirstHalf(part)], bound)
    ensures AnyHopeless(size, Reverse(stack + [part])) <==> AnyHopeless(size, Reverse(stack + [SecondHalf(part)] + [FirstHalf(part)]))
    ensures TurnsOfAll(size, stack + [SecondHalf(part)] + [FirstHalf(part)], bound) < TurnsOfAll(size, stack + [part], bound)
  {
    hide Pieces, Turns, Hopeless, Oversized, ToEmit, AnyHopeless, TurnsOfAll, FirstHalf, SecondHalf, FitsUpTo, Reverse;
    SplitPart(size, part, bound);
    EmitTop(size, stack, part, bound);
    EmitTop(size, stack, SecondHalf(part), bound);
    EmitTop(size, stack + [SecondHalf(part)], FirstHalf(part), bound);
    TurnsPush(size, stack, part, bound);
    TurnsPush(size, stack, SecondHalf(part), bound);
    TurnsPush(size, stack + [SecondHalf(part)], FirstHalf(part), bound);
  }

  lemma PiecesOfFitting(size: Encoder, part: Interval, bound: real)
    requires FitsUpTo(size, bound) && !Oversized(size, part)
    ensures Pieces(size, part, bound) == [part] && Turns(size, part, bound) == 1
  {
  }

  lemma StartAndEnd(size: Encoder, parts: seq<Interval>, bound: real)
    requires FitsUpTo(size, bound)
    ensures ToEmit(size, Reverse(parts), bound) == PiecesOfAll(size, parts, bound) && Reverse(Reverse(parts)) == parts
    ensures ToEmit(size, [], bound) == [] && !AnyHopeless(size, Reverse([]))
  {
    ReverseTwice(parts);
  }

  lemma ChunkDescribes(chunks: seq<Chunk>, pieces: seq<Interval>, part: Interval)
    requires Describe(chunks, pieces)
    ensures Describe(chunks + [ToChunk(|chunks|, part)], pieces + [part])
  {
  }

  lemma NothingDescribed()
    ensures Describe([], [])
  {
  }

  // The chunks carry consecutive indices and the pieces in order; the error is raised exactly when
  // some part is hopeless, after the pieces of the parts before it.
  method IterateBoundedAudioChunks(size: Encoder, parts: seq<Interval>, ghost bound: real)
    returns (chunks: seq<Chunk>, tooLarge: bool)
    requires FitsUpTo(size, bound)
    ensures Describe(chunks, PiecesOfAll(size, parts, bound))
    ensures tooLarge <==> AnyHopeless(size, parts)
  {
    hide Pieces, Turns, ToEmit, AnyHopeless, TurnsOfAll, PiecesOfAll, FitsUpTo, Reverse, ToChunk, Oversized, Describe;
    assert Describe([], []) by { NothingDescribed(); }
    var index := 0;
    chunks := [];
    ghost var emitted: seq<Interval> := [];
    var pending := Reverse(parts);
    StartAndEnd(size, parts, bound);
    while |pending| > 0
      invariant index == |chunks| == |emitted|
      invariant Describe(chunks, emitted)
      invariant emitted + ToEmit(size, pending, bound) == PiecesOfAll(size, parts, bound)
      invariant AnyHopeless(size, Reverse(pending)) <==> AnyHopeless(size, parts)
      decreases TurnsOfAll(size, pending, bound)
    {
      var part := pending[|pending| - 1];
      ghost var rest := pending[..|pending| - 1];
      assert pending == rest + [part];
      pending := pending[..|pending| - 1];
      EmitTop(size, rest, part, bound);
      if Oversized(size, part) {
        if part.Length() < 2.0 {
          assert emitted == PiecesOfAll(size, parts, bound);
          tooLarge := true;
          return;
        }
        SplitTop(size, rest, part, bound);
        var midpoint := (part.start + part.end) / 2.0;
        pending := pending + [Interval(Max(part.start, midpoint - OVERLAP_SECONDS), part.end)];
        pending := pending + [Interval(part.start, midpoint)];
        continue;
      }
      PiecesOfFitting(size, part, bound);
      TurnsPush(size, rest, part, bound);
      ChunkDescribes(chunks, emitted, part);
      chunks := chunks + [ToChunk(index, part)];
      emitted := emitted + [part];
      index := index + 1;
    }
    assert pending == [];
    assert emitted == PiecesOfAll(size, parts, bound);
    tooLarge := false;
  }

  // ---------- What the pieces guarantee ----------

  // Neighbouring pieces touch or overlap and never step back.
  predicate Chained(r: seq<Interval>) {
    forall i :: 0 <= i < |r| - 1 ==> r[i].start <= r[i + 1].start <= r[i].end
  }

  // The pieces of a part fit, cover it from its start to its end and never step back; the pieces of
  // a part that was split are longer than the two seconds of overlap.
  ghost predicate Cover(size: Encoder, r: seq<Interval>, part: Interval) {
    && |r| > 0
    && (forall c :: c in r ==> !Oversized(size, c) && part.start <= c.start && c.end <= part.end)
    && r[0].start == part.start && r[|r| - 1].end == part.end
    && Chained(r)
    && (r == [part] || forall c :: c in r ==> c.Length() > 2.0)
  }

  lemma CoverOne(size: Encoder, part: Interval)
    requires !Oversized(size, part)
    ensures Cover(size, [part], part)
  {
  }

  lemma CoverJoin(size: Encoder, ra: seq<Interval>, rb: seq<Interval>, part: Interval, bound: real)
    requires bound > 4.0 && part.Length() > bound
    requires Cover(size, ra, FirstHalf(part)) && Cover(size, rb, SecondHalf(part))
    ensures Cover(size, ra + rb, part)
  {
    var a, b := FirstHalf(part), SecondHalf(part);
    assert a.Length() > 2.0 && b.Length() > 2.0 && b.start == a.end - 2.0;
    var last := ra[|ra| - 1];
    assert last in ra && last.Length() > 2.0;
    assert last.start <= rb[0].start <= last.end;
    ChainedJoin(ra, rb);
  }

  lemma ChainedJoin(ra: seq<Interval>, rb: seq<Interval>)
    requires |ra| > 0 && |rb| > 0 && Chained(ra) && Chained(rb)
    requires ra[|ra| - 1].start <= rb[0].start <= ra[|ra| - 1].end
    ensures Chained(ra + rb)
  {
  }

  lemma {:induction false} PiecesOfPart(size: Encoder, part: Interval, bound: real)
    requires FitsUpTo(size, bound) && !Hopeless(size, part)
    ensures Cover(size, Pieces(size, part, bound), part)
    decreases Rounds(part.Length(), bound / 2.0 - 2.0)
  {
    hide Pieces, Rounds, Cover;
    if !Oversized(size, part) {
      PiecesOfFitting(size, part, bound);
      CoverOne(size, part);
    } else {
      HalvesShrink(part, bound);
      SplitPart(size, part, bound);
      PiecesOfPart(size, FirstHalf(part), bound);
      PiecesOfPart(size, SecondHalf(part), bound);
      CoverJoin(size, Pieces(size, FirstHalf(part), bound), Pieces(size, SecondHalf(part), bound), part, bound);
    }
  }

  lemma {:induction false} StepsCover(r: seq<Interval>, t: real)
    requires |r| > 0 && Chained(r)
    requires r[0].start <= t <= r[|r| - 1].end
    ensures InSome(r, t)
  {
    InSomeTail(r, t);
    if t > r[0].end {
      assert forall i :: 0 <= i < |r[1..]| ==> r[1..][i] == r[i + 1];
      StepsCover(r[1..], t);
    }
  }

  // Without a hopeless part every instant of every input part is in an emitted piece, and every
  // emitted piece fits the provider limit.
  lemma {:induction false} SplitCovers(size: Encoder, parts: seq<Interval>, bound: real, k: nat, t: real)
    requires FitsUpTo(size, bound) && !AnyHopeless(size, parts)
    requires k < |parts| && parts[k].Contains(t)
    ensures exists c :: c in PiecesOfAll(size, parts, bound) && c.Contains(t)
  {
    assert !Hopeless(size, parts[0]);
    if k == 0 {
      PiecesOfPart(size, parts[0], bound);
      var r := Pieces(size, parts[0], bound);
      StepsCover(r, t);
      var i :| 0 <= i < |r| && r[i].Contains(t);
      assert r[i] in PiecesOfAll(size, parts, bound);
    } else {
      NoneHopelessTail(size, parts);
      SplitCovers(size, parts[1..], bound, k - 1, t);
    }
  }

  lemma NoneHopelessTail(size: Encoder, parts: seq<Interval>)
    requires parts != [] && !AnyHopeless(size, parts)
    ensures !AnyHopeless(size, parts[1..]) && !Hopeless(size, parts[0])
  {
  }

  // Emitted pieces fit the limit, and their starts never step back when the parts advance like those
  // of a plan with the default overlap.
  lemma {:induction false} SplitFitsAndAdvances(size: Encoder, parts: seq<Interval>, bound: real)
    requires FitsUpTo(size, bound) && Stepwise(parts, OVERLAP_SECONDS)
    ensures var r := PiecesOfAll(size, parts, bound);
            && (forall c :: c in r ==> !Oversized(size, c))
            && (forall i :: 0 <= i < |r| - 1 ==> r[i].start <= r[i + 1].start)
            && (r != [] ==> r[0].start == parts[0].start)
  {
    if parts != [] && !Hopeless(size, parts[0]) {
      var first, rest := Pieces(size, parts[0], bound), PiecesOfAll(size, parts[1..], bound);
      PiecesOfPart(size, parts[0], bound);
      assert forall i :: 0 <= i < |parts[1..]| ==> parts[1..][i] == parts[i + 1];
      SplitFitsAndAdvances(size, parts[1..], bound);
      assert first[|first| - 1] in first;
    }
  }

  // Planner and splitter together: the offsets of the emitted chunks never go back.
  lemma OffsetsAdvance(
    size: Encoder, duration: real, silences: seq<Interval>, maxChunk: real, minSpeech: real, bound: real, chunks: seq<Chunk>, i: nat)
    requires FitsUpTo(size, bound) && maxChunk > OVERLAP_SECONDS && 0.0 <= duration
    requires forall k :: 0 <= k < |silences| ==> silences[k].start <= silences[k].end
    requires var parts := PiecesOfAll(size, Plan(duration, silences, maxChunk, OVERLAP_SECONDS, minSpeech), bound);
             Describe(chunks, parts)
    requires i + 1 < |chunks|
    ensures chunks[i].offsetMs <= chunks[i + 1].offsetMs
  {
    var plan := Plan(duration, silences, maxChunk, OVERLAP_SECONDS, minSpeech);
    PlanIsStepwise(duration, silences, maxChunk, OVERLAP_SECONDS, minSpeech);
    SplitFitsAndAdvances(size, plan, bound);
    var parts := PiecesOfAll(size, plan, bound);
    assert parts[i].start <= parts[i + 1].start;
    assert NearestMs(chunks[i].offsetMs, parts[i].start) && NearestMs(chunks[i + 1].offsetMs, parts[i + 1].start);
  }

  // ---------- When a part is split up ----------

  // The part is split up within n levels, without an error.
  ghost predicate SplitsWithin(size: Encoder, part: Interval, n: nat)
    decreases n
  {
    !Oversized(size, part)
    || (n > 0 && part.Length() >= 2.0 && SplitsWithin(size, FirstHalf(part), n - 1) && SplitsWithin(size, SecondHalf(part), n - 1))
  }

  // An oversized part of two to four seconds is its own second half, so that it is never split up.
  lemma {:induction false} ShortOversizedNeverSplits(size: Encoder, part: Interval, n: nat)
    requires 2.0 <= part.Length() <= 4.0 && Oversized(size, part)
    ensures SecondHalf(part) == part && !SplitsWithin(size, part, n)
    decreases n
  {
    if n > 0 {
      ShortOversizedNeverSplits(size, part, n - 1);
    }
  }

  lemma {:induction false} SplitsMonotone(size: Encoder, part: Interval, m: nat, n: nat)
    requires m <= n && SplitsWithin(size, part, m)
    ensures SplitsWithin(size, part, n)
    decreases n
  {
    if Oversized(size, part) {
      SplitsMonotone(size, FirstHalf(part), m - 1, n - 1);
      SplitsMonotone(size, SecondHalf(part), m - 1, n - 1);
    }
  }

  lemma {:induction false} FittingBoundSplits(size: Encoder, part: Interval, bound: real)
    requires FitsUpTo(size, bound) && !Hopeless(size, part)
    ensures SplitsWithin(size, part, Turns(size, part, bound))
    decreases Rounds(part.Length(), bound / 2.0 - 2.0)
  {
    if Oversized(size, part) {
      HalvesShrink(part, bound);
      var a, b := FirstHalf(part), SecondHalf(part);
      FittingBoundSplits(size, a, bound);
      FittingBoundSplits(size, b, bound);
      SplitsMonotone(size, a, Turns(size, a, bound), Turns(size, part, bound) - 1);
      SplitsMonotone(size, b, Turns(size, b, bound), Turns(size, part, bound) - 1);
    }
  }

  // The lengths of the second halves approach four seconds from above without reaching them.
  lemma {:induction false} AlwaysOversizedNeverSplits(size: Encoder, part: Interval, n: nat)
    requires part.Length() > 4.0
    requires forall p: Interval :: p.Length() > 4.0 ==> Oversized(size, p)
    ensures !SplitsWithin(size, part, n)
    decreases n
  {
    if n > 0 {
      AlwaysOversizedNeverSplits(size, SecondHalf(part), n - 1);
    }
  }

  ghost predicate SplitsUp(size: Encoder, part: Interval) {
    exists n: nat :: SplitsWithin(size, part, n)
  }

  // For an encoder whose output only depends on the length and grows with it, a part of at least two
  // seconds is split up without an error exactly when it fits as it is or some length above four
  // seconds fits.
  lemma SplitsUpIff(size: Encoder, bytes: real -> nat, part: Interval)
    requires forall p: Interval :: size(p) == bytes(p.Length())
    requires forall x, y :: x <= y ==> bytes(x) <= bytes(y)
    requires part.Length() >= 2.0
    ensures SplitsUp(size, part) <==> !Oversized(size, part) || exists x :: x > 4.0 && bytes(x) <= PROVIDER_MAX_BYTES
  {
    if !Oversized(size, part) {
      assert SplitsWithin(size, part, 0);
    } else if bound :| bound > 4.0 && bytes(bound) <= PROVIDER_MAX_BYTES {
      forall p: Interval | 2.0 <= p.Length() <= bound ensures !Oversized(size, p) {
        assert size(p) == bytes(p.Length());
      }
      FittingBoundSplits(size, part, bound);
    } else {
      forall p: Interval | p.Length() > 4.0 ensures Oversized(size, p) {
        assert size(p) == bytes(p.Length());
      }
      forall n: nat ensures !SplitsWithin(size, part, n) {
        if part.Length() <= 4.0 {
          ShortOversizedNeverSplits(size, part, n);
        } else {
          AlwaysOversizedNeverSplits(size, part, n);
        }
      }
    }
  }

  // And so are all parts exactly when some length above four seconds fits.
  lemma AllSplitUpIff(size: Encoder, bytes: real -> nat)
    requires forall p: Interval :: size(p) == bytes(p.Length())
    requires forall x, y :: x <= y ==> bytes(x) <= bytes(y)
    ensures (forall p: Interval :: p.Length() >= 2.0 ==> SplitsUp(size, p))
            <==> exists x :: x > 4.0 && bytes(x) <= PROVIDER_MAX_BYTES
  {
    forall p: Interval | p.Length() >= 2.0
      ensures SplitsUp(size, p) <==> !Oversized(size, p) || exists x :: x > 4.0 && bytes(x) <= PROVIDER_MAX_BYTES
    {
      SplitsUpIff(size, bytes, p);
    }
    var five := Interval(0.0, 5.0);
    assert size(five) == bytes(5.0) && five.Length() >= 2.0;
  }
}

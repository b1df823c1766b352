// The work list of the audio splitter turn by turn: whether it ends, raises the error, or runs for ever.
module AudioSplitting {
  import opened AudioChunks

  datatype Progress = Going(stack: seq<Interval>) | Raised | Ended

  function Resumed(stack: seq<Interval>): Progress {
    if stack == [] then Ended else Going(stack)
  }

  // One turn of the loop. A fitting part is emitted; an oversized one raises the error when it is too
  // short, and is replaced by its halves otherwise, the first half on top.
  function Turn(size: Encoder, stack: seq<Interval>): (p: Progress)
    requires stack != []
    ensures p.Going? ==> p.stack != []
  {
    var part, rest := stack[|stack| - 1], stack[..|stack| - 1];
    if !Oversized(size, part) then Resumed(rest)
    else if part.Length() < 2.0 then Raised
    else Going(rest + [SecondHalf(part)] + [FirstHalf(part)])
  }

  function After(size: Encoder, stack: seq<Interval>, n: nat): (p: Progress)
    ensures p.Going? ==> p.stack != []
  {
    if n == 0 then Resumed(stack)
    else
      var before := After(size, stack, n - 1);
      if before.Going? then Turn(size, before.stack) else before
  }

  lemma {:induction false} AfterJoin(size: Encoder, stack: seq<Interval>, m: nat, middle: seq<Interval>, n: nat)
    requires After(size, stack, m) == Resumed(middle)
    ensures After(size, stack, m + n) == After(size, middle, n)
  {
    hide Turn;
    if n > 0 {
      AfterJoin(size, stack, m, middle, n - 1);
    }
  }

  lemma {:induction false} StaysOver(size: Encoder, stack: seq<Interval>, m: nat, n: nat)
    requires m <= n && !After(size, stack, m).Going?
    ensures After(size, stack, n) == After(size, stack, m)
  {
    if m < n {
      StaysOver(size, stack, m, n - 1);
    }
  }

  ghost predicate EverEnds(size: Encoder, stack: seq<Interval>) {
    exists n: nat :: After(size, stack, n).Ended?
  }

  ghost predicate EverRaises(size: Encoder, stack: seq<Interval>) {
    exists n: nat :: After(size, stack, n).Raised?
  }

  ghost predicate RunsForEver(size: Encoder, stack: seq<Interval>) {
    forall n: nat :: After(size, stack, n).Going?
  }

  // A work list does exactly one of the three.
  lemma ExactlyOne(size: Encoder, stack: seq<Interval>)
    ensures EverEnds(size, stack) || EverRaises(size, stack) || RunsForEver(size, stack)
    ensures !(EverEnds(size, stack) && EverRaises(size, stack))
    ensures RunsForEver(size, stack) ==> !EverEnds(size, stack) && !EverRaises(size, stack)
  {
    if EverEnds(size, stack) && EverRaises(size, stack) {
      var m: nat :| After(size, stack, m).Ended?;
      var n: nat :| After(size, stack, n).Raised?;
      StaysOver(size, stack, if m < n then m else n, if m < n then n else m);
    }
  }

  // ---------- Parts that are split up ----------

  lemma {:induction false} SplitPartIsPopped(size: Encoder, rest: seq<Interval>, part: Interval, levels: nat) returns (n: nat)
    requires SplitsWithin(size, part, levels)
    ensures After(size, rest + [part], n) == Resumed(rest)
    decreases levels
  {
    hide After;
    OneTurn(size, rest, part);
    if !Oversized(size, part) {
      n := 1;
    } else {
      var halved := rest + [SecondHalf(part)] + [FirstHalf(part)];
      var a := SplitPartIsPopped(size, rest + [SecondHalf(part)], FirstHalf(part), levels - 1);
      AfterJoin(size, rest + [part], 1, halved, a);
      var b := SplitPartIsPopped(size, rest, SecondHalf(part), levels - 1);
      AfterJoin(size, rest + [part], 1 + a, rest + [SecondHalf(part)], b);
      n := 1 + a + b;
    }
  }

  lemma OneTurn(size: Encoder, rest: seq<Interval>, part: Interval)
    ensures After(size, rest + [part], 1) ==
      if !Oversized(size, part) then Resumed(rest)
      else if part.Length() < 2.0 then Raised
      else Resumed(rest + [SecondHalf(part)] + [FirstHalf(part)])
  {
    assert After(size, rest + [part], 0) == Going(rest + [part]);
    assert (rest + [part])[..|rest|] == rest;
  }

  // For a bound above four seconds up to which every part fits, as the emitting loop assumes: the list
  // ends exactly when no part is hopeless, and raises the error exactly when one is.
  lemma {:induction false} FittingOutcome(size: Encoder, parts: seq<Interval>, bound: real)
    requires FitsUpTo(size, bound)
    ensures EverEnds(size, Reverse(parts)) <==> !AnyHopeless(size, parts)
    ensures EverRaises(size, Reverse(parts)) <==> AnyHopeless(size, parts)
  {
    ExactlyOne(size, Reverse(parts));
    if parts == [] {
      assert After(size, [], 0).Ended?;
    } else {
      var part, rest := parts[0], Reverse(parts[1..]);
      ReverseCons(part, parts[1..]);
      assert parts == [part] + parts[1..];
      if Hopeless(size, part) {
        OneTurn(size, rest, part);
      } else {
        FittingOutcome(size, parts[1..], bound);
        FittingBoundSplits(size, part, bound);
        var a := SplitPartIsPopped(size, rest, part, Turns(size, part, bound));
        GoesOnWith(size, rest + [part], a, rest);
        assert AnyHopeless(size, parts) <==> AnyHopeless(size, parts[1..]);
        ExactlyOne(size, rest);
      }
    }
  }

  // Once a list has come down to its rest, it does what the rest does.
  lemma GoesOnWith(size: Encoder, stack: seq<Interval>, m: nat, rest: seq<Interval>)
    requires After(size, stack, m) == Resumed(rest)
    ensures EverEnds(size, rest) ==> EverEnds(size, stack)
    ensures EverRaises(size, rest) ==> EverRaises(size, stack)
    ensures RunsForEver(size, rest) ==> RunsForEver(size, stack)
  {
    if EverEnds(size, rest) {
      var n: nat :| After(size, rest, n).Ended?;
      AfterJoin(size, stack, m, rest, n);
    }
    if EverRaises(size, rest) {
      var n: nat :| After(size, rest, n).Raised?;
      AfterJoin(size, stack, m, rest, n);
    }
    if RunsForEver(size, rest) {
      forall n: nat ensures After(size, stack, n).Going? {
        assert After(size, rest, n).Going?;
        AfterJoin(size, stack, m, rest, n);
        if !After(size, stack, n).Going? {
          StaysOver(size, stack, n, m + n);
        }
      }
    }
  }

  // ---------- Encoders whose output grows with the length ----------

  ghost predicate GrowsWithLength(size: Encoder, bytes: real -> nat) {
    && (forall p: Interval :: size(p) == bytes(p.Length()))
    && (forall x, y :: x <= y ==> bytes(x) <= bytes(y))
  }

  predicate Fits(bytes: real -> nat, length: real) {
    bytes(length) <= PROVIDER_MAX_BYTES
  }

  ghost predicate FitsAboveFour(bytes: real -> nat) {
    exists x :: x > 4.0 && Fits(bytes, x)
  }

  // A length halved until it is below two seconds, where the error is raised if it is still oversized.
  function BelowTwo(length: real): (r: real)
    ensures r < 2.0 && r <= length
    decreases if length < 2.0 then 0 else length.Floor
  {
    if length < 2.0 then length else BelowTwo(length / 2.0)
  }

  // If even the last of the first halves does not fit, the error is raised.
  lemma {:induction false} LastHalfRaises(size: Encoder, bytes: real -> nat, rest: seq<Interval>, part: Interval) returns (n: nat)
    requires GrowsWithLength(size, bytes) && !Fits(bytes, BelowTwo(part.Length()))
    ensures After(size, rest + [part], n).Raised?
    decreases if part.Length() < 2.0 then 0 else part.Length().Floor
  {
    assert size(part) == bytes(part.Length()) && BelowTwo(part.Length()) <= part.Length();
    OneTurn(size, rest, part);
    if part.Length() < 2.0 {
      n := 1;
    } else {
      var first := FirstHalf(part);
      assert first.Length() == part.Length() / 2.0;
      var m := LastHalfRaises(size, bytes, rest + [SecondHalf(part)], first);
      AfterJoin(size, rest + [part], 1, rest + [SecondHalf(part)] + [first], m);
      n := 1 + m;
    }
  }

  // An oversized part whose halves fit in the end.
  predicate Trap(size: Encoder, bytes: real -> nat, part: Interval) {
    Oversized(size, part) && part.Length() >= 2.0 && Fits(bytes, BelowTwo(part.Length()))
  }

  // A trap is on top, or only a fitting part above it.
  predicate Trapped(size: Encoder, bytes: real -> nat, stack: seq<Interval>) {
    && stack != []
    && var top := |stack| - 1;
       Trap(size, bytes, stack[top]) || (!Oversized(size, stack[top]) && top > 0 && Trap(size, bytes, stack[top - 1]))
  }

  // The halves of a trap: the first is a trap itself, or fits and leaves a trap behind it.
  lemma HalvesOfTrap(size: Encoder, bytes: real -> nat, part: Interval)
    requires GrowsWithLength(size, bytes) && !FitsAboveFour(bytes) && Trap(size, bytes, part)
    ensures Trap(size, bytes, FirstHalf(part)) || (!Oversized(size, FirstHalf(part)) && Trap(size, bytes, SecondHalf(part)))
  {
    var length, first, second := part.Length(), FirstHalf(part), SecondHalf(part);
    assert first.Length() == length / 2.0 && BelowTwo(length) == BelowTwo(length / 2.0);
    assert size(first) == bytes(length / 2.0) && size(second) == bytes(second.Length()) && size(part) == bytes(length);
    if !Oversized(size, first) {
      if length <= 4.0 {
        assert second.Length() == length;
      } else {
        assert second.Length() == length / 2.0 + 2.0 && second.Length() > 4.0;
        assert !Fits(bytes, second.Length());
        assert BelowTwo(second.Length()) <= length / 2.0;
      }
    }
  }

  lemma TrappedTurn(size: Encoder, bytes: real -> nat, stack: seq<Interval>)
    requires GrowsWithLength(size, bytes) && !FitsAboveFour(bytes) && Trapped(size, bytes, stack)
    ensures Turn(size, stack).Going? && Trapped(size, bytes, Turn(size, stack).stack)
  {
    hide GrowsWithLength, FitsAboveFour, BelowTwo, Fits;
    var top := stack[|stack| - 1];
    if Oversized(size, top) {
      HalvesOfTrap(size, bytes, top);
    }
  }

  lemma {:induction false} TrappedForEver(size: Encoder, bytes: real -> nat, stack: seq<Interval>, n: nat)
    requires GrowsWithLength(size, bytes) && !FitsAboveFour(bytes) && Trapped(size, bytes, stack)
    ensures After(size, stack, n).Going? && Trapped(size, bytes, After(size, stack, n).stack)
  {
    if n > 0 {
      hide GrowsWithLength, FitsAboveFour, Trapped;
      TrappedForEver(size, bytes, stack, n - 1);
      TrappedTurn(size, bytes, After(size, stack, n - 1).stack);
    }
  }

  // ---------- The exact answer ----------

  datatype Fate = Splits | Raises | Loops

  // What becomes of a part, worked out from three lengths only.
  ghost function FateOf(bytes: real -> nat, part: Interval): Fate {
    if Fits(bytes, part.Length()) || FitsAboveFour(bytes) then Splits
    else if !Fits(bytes, BelowTwo(part.Length())) then Raises
    else Loops
  }

  // The first part that is not split up decides over all parts.
  ghost function FateOfAll(bytes: real -> nat, parts: seq<Interval>): Fate {
    if parts == [] then Splits
    else if FateOf(bytes, parts[0]).Splits? then FateOfAll(bytes, parts[1..])
    else FateOf(bytes, parts[0])
  }

  lemma SplitsWithinSome(size: Encoder, bytes: real -> nat, part: Interval) returns (levels: nat)
    requires GrowsWithLength(size, bytes) && FateOf(bytes, part).Splits?
    ensures SplitsWithin(size, part, levels)
  {
    assert size(part) == bytes(part.Length());
    if Fits(bytes, part.Length()) {
      levels := 0;
    } else {
      var bound :| bound > 4.0 && Fits(bytes, bound);
      forall p: Interval | p.Length() <= bound ensures !Oversized(size, p) {
        assert size(p) == bytes(p.Length());
      }
      FittingBoundSplits(size, part, bound);
      levels := Turns(size, part, bound);
    }
  }

  lemma PartOutcome(size: Encoder, bytes: real -> nat, rest: seq<Interval>, part: Interval)
    requires GrowsWithLength(size, bytes)
    ensures match FateOf(bytes, part)
            case Splits => exists n: nat :: After(size, rest + [part], n) == Resumed(rest)
            case Raises => EverRaises(size, rest + [part])
            case Loops => RunsForEver(size, rest + [part])
  {
    assert size(part) == bytes(part.Length());
    match FateOf(bytes, part)
    case Splits =>
      var levels := SplitsWithinSome(size, bytes, part);
      var n := SplitPartIsPopped(size, rest, part, levels);
    case Raises =>
      var n := LastHalfRaises(size, bytes, rest, part);
    case Loops =>
      assert BelowTwo(part.Length()) == part.Length() || part.Length() >= 2.0;
      forall n: nat ensures After(size, rest + [part], n).Going? {
        TrappedForEver(size, bytes, rest + [part], n);
      }
  }

  // For every list of parts and every encoder that grows with the length: the list ends without an
  // error, raises it or runs for ever, exactly as the parts and the three lengths of each say.
  lemma {:induction false} ListOutcome(size: Encoder, bytes: real -> nat, parts: seq<Interval>)
    requires GrowsWithLength(size, bytes)
    ensures EverEnds(size, Reverse(parts)) <==> FateOfAll(bytes, parts).Splits?
    ensures EverRaises(size, Reverse(parts)) <==> FateOfAll(bytes, parts).Raises?
    ensures RunsForEver(size, Reverse(parts)) <==> FateOfAll(bytes, parts).Loops?
  {
    hide GrowsWithLength, FateOf, EverEnds, EverRaises, RunsForEver;
    ExactlyOne(size, Reverse(parts));
    if parts == [] {
      NothingToSplit(size);
    } else {
      var part, rest := parts[0], Reverse(parts[1..]);
      ReverseCons(part, parts[1..]);
      assert parts == [part] + parts[1..];
      PartOutcome(size, bytes, rest, part);
      if FateOf(bytes, part).Splits? {
        ListOutcome(size, bytes, parts[1..]);
        ExactlyOne(size, rest);
        var n: nat :| After(size, rest + [part], n) == Resumed(rest);
        GoesOnWith(size, rest + [part], n, rest);
      }
    }
  }

  lemma NothingToSplit(size: Encoder)
    ensures EverEnds(size, Reverse([]))
  {
    assert After(size, Reverse([]), 0).Ended?;
  }

  // For one part: it runs for ever if and only if it is oversized, no length above four seconds fits,
  // and the first of its repeated halves below two seconds does; and it raises the error if and only if
  // that half does not fit.
  lemma SplittingOutcome(size: Encoder, bytes: real -> nat, part: Interval)
    requires GrowsWithLength(size, bytes)
    ensures EverEnds(size, [part]) <==> !Oversized(size, part) || FitsAboveFour(bytes)
    ensures EverRaises(size, [part]) <==> !Fits(bytes, BelowTwo(part.Length()))
    ensures RunsForEver(size, [part]) <==>
      Oversized(size, part) && !FitsAboveFour(bytes) && Fits(bytes, BelowTwo(part.Length()))
  {
    hide EverEnds, EverRaises, RunsForEver;
    assert size(part) == bytes(part.Length());
    ListOutcome(size, bytes, [part]);
    assert Reverse([part]) == [part] by { ReverseCons(part, []); }
    FateOfOne(bytes, part);
    assert !Fits(bytes, BelowTwo(part.Length())) ==> !Fits(bytes, part.Length()) && !FitsAboveFour(bytes);
  }

  lemma FateOfOne(bytes: real -> nat, part: Interval)
    ensures FateOfAll(bytes, [part]) == FateOf(bytes, part)
  {
    assert [part][1..] == [];
  }

  // When nothing fits, every part ends with the error.
  lemma NothingFitsRaises(size: Encoder, part: Interval)
    requires forall p: Interval :: size(p) == PROVIDER_MAX_BYTES + 1
    ensures EverRaises(size, [part])
  {
    SplittingOutcome(size, x => PROVIDER_MAX_BYTES + 1, part);
  }

  // When just the parts up to two seconds fit, exactly the longer ones keep the list going for ever.
  lemma ShortFitsLoops(size: Encoder, part: Interval)
    requires forall p: Interval :: size(p) == if p.Length() <= 2.0 then 0 else PROVIDER_MAX_BYTES + 1
    ensures RunsForEver(size, [part]) <==> part.Length() > 2.0
    ensures EverEnds(size, [part]) <==> part.Length() <= 2.0
  {
    SplittingOutcome(size, x => if x <= 2.0 then 0 else PROVIDER_MAX_BYTES + 1, part);
  }
}

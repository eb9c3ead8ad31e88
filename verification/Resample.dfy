/** The streaming resampler of `src/media/resample.rs` in exact arithmetic: a position is a whole
    number of `1 / toRate` input samples. */
module Resample {
  import opened Arithmetic
  import opened Words
  import opened Sequences

  function CeilDiv(a: nat, b: pos): nat {
    (a + b - 1) / b
  }

  /** Rust's conversion of a float to an integer: toward zero. */
  function TruncDiv(n: int, d: pos): int {
    if n >= 0 then n / d else -((-n) / d)
  }

  /** Linear interpolation a fraction `f / to` of the way from `before` to `current`. */
  function Interpolate(before: int, current: int, f: nat, to: pos): int {
    TruncDiv(before * to + f * (current - before), to)
  }

  // ---- the whole stream at once ----

  /** Output sample `m` of the whole input `x`: causal, one input sample late. */
  function SampleAt(x: seq<int>, m: nat, from: pos, to: pos): int
    requires m * from / to < |x|
  {
    var index := m * from / to;
    Interpolate(if index == 0 then x[0] else x[index - 1], x[index], m * from % to, to)
  }

  lemma {:induction false} CeilDivCounts(m: nat, a: nat, b: pos)
    ensures m < CeilDiv(a, b) <==> m * b < a
  {
    QuotientBelow(a + b - 1, m + 1, b);
    assert (m + 1) * b == m * b + b;
  }

  /** What the stream `x` becomes. Equal rates copy the input. */
  function Resampled(x: seq<int>, from: pos, to: pos): (y: seq<int>)
    ensures |y| == if from == to then |x| else CeilDiv(|x| * to, from)
  {
    if from == to then x
    else
      seq(CeilDiv(|x| * to, from), m requires 0 <= m < CeilDiv(|x| * to, from) =>
        CeilDivCounts(m, |x| * to, from);
        QuotientBelow(m * from, |x|, to);
        SampleAt(x, m, from, to))
  }

  /** More input only appends output. */
  lemma {:induction false} ResampledGrows(x: seq<int>, y: seq<int>, from: pos, to: pos)
    ensures |Resampled(x, from, to)| <= |Resampled(x + y, from, to)|
    ensures Resampled(x + y, from, to)[..|Resampled(x, from, to)|] == Resampled(x, from, to)
  {
    if from == to {
      assert (x + y)[..|x|] == x;
    } else {
      var n := CeilDiv(|x| * to, from);
      assert |x + y| * to == |x| * to + |y| * to;
      assert n <= CeilDiv(|x + y| * to, from) by {
        if n > 0 { CeilDivCounts(n - 1, |x| * to, from); CeilDivCounts(n - 1, |x + y| * to, from); }
      }
      forall m | 0 <= m < n ensures Resampled(x + y, from, to)[m] == Resampled(x, from, to)[m] {
        CeilDivCounts(m, |x| * to, from);
        QuotientBelow(m * from, |x|, to);
        hide Interpolate;
      }
    }
  }

  /** Every output sample lies between its two neighbouring inputs. */
  lemma {:induction false} InterpolateIsBetween(before: int, current: int, f: nat, to: pos)
    requires f < to
    ensures Min(before, current) <= Interpolate(before, current, f, to) <= Max(before, current)
  {
    hide TruncDiv;
    var step := current - before;
    assert before * to + to * step == current * to;
    if step >= 0 {
      MulMonotone(f, to, step);
    } else {
      MulMonotone(f, to, -step);
      assert f * (-step) == -(f * step) && to * (-step) == -(to * step);
    }
    TruncWithin(before * to + f * step, to, Min(before, current), Max(before, current));
  }

  lemma {:induction false} TruncWithin(n: int, d: pos, lo: int, hi: int)
    requires lo * d <= n <= hi * d
    ensures lo <= TruncDiv(n, d) <= hi
  {
    assert (hi + 1) * d == hi * d + d && (-lo + 1) * d == -(lo * d) + d && (-hi) * d == -(hi * d);
    QuotientBelow(n, lo, d);
    QuotientBelow(n, hi + 1, d);
    QuotientBelow(-n, -hi, d);
    QuotientBelow(-n, -lo + 1, d);
  }

  // ---- chunk by chunk ----

  /** The loop guard with its epsilon of 1e-9 input samples, on the grid of positions. */
  predicate Guard(k: nat, n: nat, to: pos) {
    k * 1_000_000_000 + to < n * to * 1_000_000_000
  }

  /** At any rate below 10^9 Hz the epsilon decides nothing: positions are too far apart. */
  lemma {:induction false} EpsilonDecidesNothing(k: nat, n: nat, to: pos)
    requires to < 1_000_000_000
    ensures Guard(k, n, to) <==> k < n * to
  {
    var due := n * to;
    assert n * to * 1_000_000_000 == due * 1_000_000_000;
  }

  /** After `n` input samples and `m` output samples the next output is due at `pos`. */
  ghost predicate Due(n: nat, m: nat, pos: nat, from: pos, to: pos) {
    pos + n * to == m * from
  }

  class Resampler {
    const fromRate: pos
    const toRate: pos
    var fracPos: nat
    var previous: Option<int>
    ghost var heard: seq<int>

    ghost predicate Valid()
      reads this
    {
      && toRate < 1_000_000_000
      && (fromRate != toRate ==>
            && Due(|heard|, |Resampled(heard, fromRate, toRate)|, fracPos, fromRate, toRate)
            && previous == if heard == [] then None else Some(heard[|heard| - 1]))
    }

    constructor (from: pos, to: pos)
      requires to < 1_000_000_000
      ensures Valid() && heard == [] && fromRate == from && toRate == to
    {
      fromRate, toRate := from, to;
      fracPos, previous, heard := 0, None, [];
      new;
      assert 0 * toRate == 0 && (0 + fromRate - 1) / fromRate == 0;
    }

    /** Whatever was heard before, this chunk emits exactly what the longer stream adds. */
    method Process(input: seq<int>) returns (output: seq<int>)
      requires Valid()
      modifies this
      ensures Valid() && heard == old(heard) + input
      ensures Resampled(old(heard), fromRate, toRate) + output == Resampled(heard, fromRate, toRate)
    {
      hide Resampled, Interpolate, Guard, Due, Whole, Fraction, Beyond;
      output := [];
      ghost var x := heard + input;
      ResampledGrows(heard, input, fromRate, toRate);
      if fromRate == toRate {
        EqualRatesCopy(heard, input, fromRate);
        heard := x;
        output := input;
        return;
      }
      if input == [] {
        assert x == heard;
        return;
      }
      var pos;
      output, pos := Emit(heard, input, previous, fracPos, fromRate, toRate);
      fracPos := Beyond(pos, |input|, toRate);
      previous := Some(input[|input| - 1]);
      heard := x;
    }
  }

  /** The loop of one call: every sample that has become due, and the position after them. */
  method Emit(ghost past: seq<int>, input: seq<int>, previous: Option<int>, start: nat, from: pos, to: pos)
      returns (output: seq<int>, pos: nat)
    requires to < 1_000_000_000 && from != to && input != []
    requires previous == if past == [] then None else Some(past[|past| - 1])
    requires Due(|past|, |Resampled(past, from, to)|, start, from, to)
    ensures Resampled(past, from, to) + output == Resampled(past + input, from, to)
    ensures Due(|past + input|, |Resampled(past + input, from, to)|, Beyond(pos, |input|, to), from, to)
  {
    hide Resampled, Interpolate, Guard, Due, Whole, Fraction, Beyond;
    ghost var base := |Resampled(past, from, to)|;
    ghost var due := Resampled(past + input, from, to);
    ResampledGrows(past, input, from, to);
    output, pos := [], start;
    while Guard(pos, |input|, to)
      invariant Due(|past|, base + |output|, pos, from, to)
      invariant base + |output| <= |due|
      invariant output == due[base..base + |output|]
      decreases |due| - |output|
    {
      NextSample(past, input, base + |output|, pos, from, to);
      var index := Whole(pos, to);
      var before := if index == 0 then (if previous.Some? then previous.value else input[0]) else input[index - 1];
      output := output + [Interpolate(before, input[index], Fraction(pos, to), to)];
      pos := pos + from;
    }
    Exhausted(past, input, base + |output|, pos, from, to);
  }

  /** The position split into whole input samples and the rest, and the part past the input. */
  function Whole(at: nat, to: pos): nat {
    at / to
  }

  function Fraction(at: nat, to: pos): nat {
    at % to
  }

  function Beyond(at: nat, n: nat, to: pos): nat {
    Max(at - n * to, 0)
  }

  lemma {:induction false} EqualRatesCopy(x: seq<int>, y: seq<int>, rate: pos)
    ensures Resampled(x, rate, rate) + y == Resampled(x + y, rate, rate)
  {
  }

  lemma {:induction false} ResampledAt(x: seq<int>, m: nat, from: pos, to: pos)
    requires from != to && m * from < |x| * to
    ensures m < |Resampled(x, from, to)| && m * from / to < |x|
    ensures Resampled(x, from, to)[m] == SampleAt(x, m, from, to)
  {
    CeilDivCounts(m, |x| * to, from);
    QuotientBelow(m * from, |x|, to);
  }

  /** One turn of the loop reads the samples that the whole-stream definition reads. */
  lemma {:induction false} NextSample(x: seq<int>, y: seq<int>, m: nat, pos: nat, from: pos, to: pos)
    requires to < 1_000_000_000 && from != to && Guard(pos, |y|, to) && Due(|x|, m, pos, from, to)
    ensures Whole(pos, to) < |y| && m < |Resampled(x + y, from, to)|
    ensures Due(|x|, m + 1, pos + from, from, to)
    ensures var i := Whole(pos, to);
            var before := if i > 0 then y[i - 1] else if x == [] then y[0] else x[|x| - 1];
            Resampled(x + y, from, to)[m] == Interpolate(before, y[i], Fraction(pos, to), to)
  {
    hide Interpolate, Resampled, Guard;
    EpsilonDecidesNothing(pos, |y|, to);
    QuotientBelow(pos, |y|, to);
    ShiftDiv(pos, |x|, to);
    assert |x + y| * to == |x| * to + |y| * to;
    ResampledAt(x + y, m, from, to);
    assert (m + 1) * from == m * from + from;
  }

  lemma {:induction false} ShiftDiv(k: nat, n: nat, to: pos)
    ensures (k + n * to) / to == k / to + n && (k + n * to) % to == k % to
  {
    var q, r := k / to, k % to;
    assert k == q * to + r && (q + n) * to == q * to + n * to;
    QuotientIs(k + n * to, to, q + n, r);
  }

  /** When the guard fails everything due has been emitted. */
  lemma {:induction false} Exhausted(x: seq<int>, y: seq<int>, m: nat, pos: nat, from: pos, to: pos)
    requires to < 1_000_000_000 && from != to && !Guard(pos, |y|, to) && Due(|x|, m, pos, from, to)
    requires m <= |Resampled(x + y, from, to)|
    ensures m == |Resampled(x + y, from, to)| && Due(|x + y|, m, Beyond(pos, |y|, to), from, to)
  {
    EpsilonDecidesNothing(pos, |y|, to);
    assert |x + y| * to == |x| * to + |y| * to;
    CeilDivCounts(m, |x + y| * to, from);
  }

  // ---- what a stream becomes ----

  /** From 10^9 Hz on, the epsilon does hold a due sample back. */
  lemma {:induction false} EpsilonDecides(n: nat, to: pos)
    requires n > 0 && to >= 1_000_000_000
    ensures n * to > 0 && !Guard(n * to - 1, n, to)
  {
    var due := n * to;
    assert due >= to;
    assert n * to * 1_000_000_000 == due * 1_000_000_000;
  }

  /** The split of a stream into calls does not show in the output. */
  method ProcessAll(chunks: seq<seq<int>>, from: pos, to: pos) returns (output: seq<int>)
    requires to < 1_000_000_000
    ensures output == Resampled(Flat(chunks), from, to) && |output| == CeilDiv(|Flat(chunks)| * to, from)
  {
    hide Resampled, Due, CeilDiv;
    var resampler := new Resampler(from, to);
    EmptyStream(from, to);
    output := [];
    for i := 0 to |chunks|
      invariant fresh(resampler) && resampler.Valid() && resampler.fromRate == from && resampler.toRate == to
      invariant resampler.heard == Flat(chunks[..i])
      invariant output == Resampled(resampler.heard, from, to)
    {
      var part := resampler.Process(chunks[i]);
      output := output + part;
      FlatSnoc(chunks[..i], chunks[i]);
      assert chunks[..i + 1] == chunks[..i] + [chunks[i]];
    }
    assert chunks[..|chunks|] == chunks;
    CeilDivWhole(|Flat(chunks)|, to);
  }

  lemma {:induction false} CeilDivWhole(n: nat, d: pos)
    ensures CeilDiv(n * d, d) == n
  {
    QuotientIs(n * d + d - 1, d, n, d - 1);
  }

  lemma {:induction false} EmptyStream(from: pos, to: pos)
    ensures Resampled([], from, to) == []
  {
    assert 0 * to == 0 && (0 + from - 1) / from == 0;
  }

  /** Every output sample lies between the two input samples around its instant, so a stream of
      16-bit samples stays one. */
  lemma {:induction false} OutputIsBetweenNeighbours(x: seq<int>, m: nat, from: pos, to: pos)
    requires from != to && m < |Resampled(x, from, to)|
    ensures Whole(m * from, to) < |x|
    ensures var i := Whole(m * from, to);
            var before := if i == 0 then x[0] else x[i - 1];
            Min(before, x[i]) <= Resampled(x, from, to)[m] <= Max(before, x[i])
  {
    hide Resampled, Interpolate, CeilDiv;
    CeilDivCounts(m, |x| * to, from);
    ResampledAt(x, m, from, to);
    var i := Whole(m * from, to);
    InterpolateIsBetween(if i == 0 then x[0] else x[i - 1], x[i], Fraction(m * from, to), to);
  }
}

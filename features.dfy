/** Per-segment acoustic descriptors: zero-crossing rate, energy and a
    lag-search pitch estimate (calculateZeroCrossingRate, calculateEnergy,
    estimatePitch). Samples are exact reals. */
module Features {
  import opened Numbers

  datatype FeatureVector = FeatureVector(energy: Num, pitch: real, zcr: Num)

  // ---------------------------------------------------------------- ZCR

  /** The sign test of the crossing loop: one side `>= 0`, the other `< 0`. */
  predicate SignsDiffer(previous: real, current: real) {
    (current >= 0.0 && previous < 0.0) || (current < 0.0 && previous >= 0.0)
  }

  /** Number of adjacent pairs among `data[..n]` whose signs differ. */
  function Crossings(data: seq<real>, n: nat): nat
    requires n <= |data|
  {
    if n <= 1 then 0
    else Crossings(data, n - 1) + (if SignsDiffer(data[n - 2], data[n - 1]) then 1 else 0)
  }

  /** `crossings / data.length`; an empty window is 0/0. */
  function ZeroCrossingRate(data: seq<real>): Num {
    if |data| == 0 then NaN else Finite(Crossings(data, |data|) as real / |data| as real)
  }

  /** There are at most `n - 1` adjacent pairs, so at most that many crossings. */
  lemma {:induction false} CrossingsBound(data: seq<real>, n: nat)
    requires 1 <= n <= |data|
    ensures Crossings(data, n) <= n - 1
  {
    if n > 1 { CrossingsBound(data, n - 1); }
  }

  /** A window that never decreases crosses zero once if it starts below
      zero and ends at or above it, and otherwise not at all. */
  lemma {:induction false} CrossingsOfRamp(data: seq<real>, n: nat)
    requires 1 <= n <= |data|
    requires forall i, j :: 0 <= i <= j < n ==> data[i] <= data[j]
    ensures Crossings(data, n) == if data[0] < 0.0 <= data[n - 1] then 1 else 0
  {
    if n > 1 { CrossingsOfRamp(data, n - 1); }
  }

  /** The rate of a non-empty window lies in [0, 1). */
  lemma RateBounds(data: seq<real>)
    requires |data| > 0
    ensures ZeroCrossingRate(data).Finite?
    ensures 0.0 <= ZeroCrossingRate(data).v < 1.0
  {
    var c, n := Crossings(data, |data|), |data|;
    CrossingsBound(data, n);
    var r := c as real / n as real;
    assert r * n as real == c as real;
    assert r < 1.0;
  }

  method CalculateZeroCrossingRate(data: seq<real>) returns (rate: Num)
    ensures rate == ZeroCrossingRate(data)
  {
    var crossings := 0;
    var i := 1;
    while i < |data|
      invariant 1 <= i <= |data| || (|data| == 0 && i == 1)
      invariant |data| > 0 ==> crossings == Crossings(data, i)
    {
      if (data[i] >= 0.0 && data[i - 1] < 0.0) || (data[i] < 0.0 && data[i - 1] >= 0.0) {
        crossings := crossings + 1;
      }
      i := i + 1;
    }
    if |data| == 0 {
      rate := NaN;
    } else {
      rate := Finite(crossings as real / |data| as real);
    }
  }

  // ------------------------------------------------------------- energy

  function SumOfSquares(data: seq<real>, n: nat): real
    requires n <= |data|
  {
    if n == 0 then 0.0 else SumOfSquares(data, n - 1) + data[n - 1] * data[n - 1]
  }

  /** The quantity under the square root of calculateEnergy: the mean
      square of the window; an empty window is 0/0. */
  function MeanSquare(data: seq<real>): Num {
    if |data| == 0 then NaN else Finite(SumOfSquares(data, |data|) / |data| as real)
  }

  lemma SquareNonNegative(x: real)
    ensures x * x >= 0.0
  {
    if x < 0.0 { assert x * x == (-x) * (-x); }
  }

  lemma {:induction false} SumOfSquaresOfSilence(data: seq<real>, n: nat)
    requires n <= |data|
    ensures SumOfSquares(data, n) >= 0.0
    ensures (forall i :: 0 <= i < n ==> data[i] == 0.0) ==> SumOfSquares(data, n) == 0.0
  {
    if n > 0 {
      SumOfSquaresOfSilence(data, n - 1);
      SquareNonNegative(data[n - 1]);
    }
  }

  /** The energy of a non-empty window is a non-negative number, and that of
      an all-zero window is exactly 0. */
  lemma EnergyOfSilence(data: seq<real>)
    requires |data| > 0
    ensures MeanSquare(data).Finite? && MeanSquare(data).v >= 0.0
    ensures (forall i :: 0 <= i < |data| ==> data[i] == 0.0) ==> MeanSquare(data).v == 0.0
  {
    SumOfSquaresOfSilence(data, |data|);
  }

  method CalculateEnergy(data: seq<real>) returns (energy: Num)
    ensures energy == MeanSquare(data)
  {
    var sum := 0.0;
    var i := 0;
    while i < |data|
      invariant 0 <= i <= |data|
      invariant sum == SumOfSquares(data, i)
    {
      sum := sum + data[i] * data[i];
      i := i + 1;
    }
    if |data| == 0 {
      energy := NaN;
    } else {
      energy := Finite(sum / |data| as real);
    }
  }

  // -------------------------------------------------------------- pitch

  /** At most this many leading samples enter the pitch search. */
  const BufferSize: nat := 2048
  /** The smallest lag the pitch search tries. */
  const MinLag: nat := 20

  /** `data.slice(0, Math.min(2048, data.length))`. */
  function PitchBuffer(data: seq<real>): (buffer: seq<real>)
    ensures |buffer| <= BufferSize && |buffer| <= |data| && buffer == data[..|buffer|]
    ensures |data| <= BufferSize ==> buffer == data
  {
    if |data| <= BufferSize then data else data[..BufferSize]
  }

  function Abs(x: real): real { if x < 0.0 then -x else x }

  /** `sum of |buffer[i] - buffer[i + lag]|` for `i < n`. */
  function AbsDiffSum(buffer: seq<real>, lag: nat, n: nat): real
    requires lag + n <= |buffer|
  {
    if n == 0 then 0.0
    else AbsDiffSum(buffer, lag, n - 1) + Abs(buffer[n - 1] - buffer[n - 1 + lag])
  }

  /** A lag the search tries: `20 <= lag < buffer.length / 2`. */
  predicate Candidate(buffer: seq<real>, lag: nat) {
    MinLag <= lag && 2 * lag < |buffer|
  }

  /** `1 - sum |buffer[i] - buffer[i + lag]| / (buffer.length - lag)`. */
  function Score(buffer: seq<real>, lag: nat): real
    requires lag < |buffer|
  {
    1.0 - AbsDiffSum(buffer, lag, |buffer| - lag) / (|buffer| - lag) as real
  }

  /** The remainder of the search from `lag` on, with the best score so far
      and the lag that reached it; a lag replaces it only on a strictly
      larger score. */
  function Scan(buffer: seq<real>, lag: nat, best: real, bestLag: nat): nat
    decreases |buffer| - lag
  {
    if 2 * lag >= |buffer| then bestLag
    else if Score(buffer, lag) > best then Scan(buffer, lag + 1, Score(buffer, lag), lag)
    else Scan(buffer, lag + 1, best, bestLag)
  }

  function BestLag(buffer: seq<real>): nat {
    Scan(buffer, MinLag, 0.0, 0)
  }

  /** `sampleRate / (bestOffset || 1)`. */
  function Pitch(data: seq<real>, sampleRate: real): real {
    var lag := BestLag(PitchBuffer(data));
    sampleRate / (if lag == 0 then 1 else lag) as real
  }

  /** What the scan has established after trying every lag below `lag`. */
  ghost predicate ScanInvariant(buffer: seq<real>, lag: nat, best: real, bestLag: nat) {
    && (forall o: nat :: MinLag <= o < lag && 2 * o < |buffer| ==> Score(buffer, o) <= best)
    && (if bestLag == 0 then best == 0.0
        else
          && Candidate(buffer, bestLag) && bestLag < lag
          && best == Score(buffer, bestLag) && best > 0.0
          && forall o: nat :: MinLag <= o < bestLag ==> Score(buffer, o) < best)
  }

  /** The lag the search picks is the EARLIEST lag of maximal positive score
      among the candidates, or 0 when no candidate scores above 0. */
  ghost predicate EarliestBestLag(buffer: seq<real>, lag: nat) {
    if lag == 0 then
      forall o: nat :: Candidate(buffer, o) ==> Score(buffer, o) <= 0.0
    else
      && Candidate(buffer, lag)
      && Score(buffer, lag) > 0.0
      && (forall o: nat :: Candidate(buffer, o) ==> Score(buffer, o) <= Score(buffer, lag))
      && (forall o: nat :: Candidate(buffer, o) && o < lag ==> Score(buffer, o) < Score(buffer, lag))
  }

  lemma {:induction false} ScanFindsEarliestBest(buffer: seq<real>, lag: nat, best: real, bestLag: nat)
    requires MinLag <= lag
    requires ScanInvariant(buffer, lag, best, bestLag)
    ensures EarliestBestLag(buffer, Scan(buffer, lag, best, bestLag))
    decreases |buffer| - lag
  {
    if 2 * lag < |buffer| {
      if Score(buffer, lag) > best {
        ScanFindsEarliestBest(buffer, lag + 1, Score(buffer, lag), lag);
      } else {
        ScanFindsEarliestBest(buffer, lag + 1, best, bestLag);
      }
    }
  }

  /** The pitch lag is 0 or a candidate in [20, min(len, 2048) / 2), and it
      is the earliest lag of maximal positive score. */
  lemma BestLagSpec(data: seq<real>)
    ensures var lag := BestLag(PitchBuffer(data));
      (lag == 0 || (MinLag <= lag && 2 * lag < |PitchBuffer(data)|))
      && EarliestBestLag(PitchBuffer(data), lag)
  {
    ScanFindsEarliestBest(PitchBuffer(data), MinLag, 0.0, 0);
  }

  /** The estimate is the sample rate itself when no lag scores above 0,
      and otherwise the sample rate over a lag of at least 20. */
  lemma PitchSpec(data: seq<real>, sampleRate: real)
    ensures BestLag(PitchBuffer(data)) == 0 ==> Pitch(data, sampleRate) == sampleRate
    ensures BestLag(PitchBuffer(data)) != 0 ==>
      Pitch(data, sampleRate) * BestLag(PitchBuffer(data)) as real == sampleRate
      && BestLag(PitchBuffer(data)) >= MinLag
  {
    BestLagSpec(data);
  }

  method EstimatePitch(data: seq<real>, sampleRate: real) returns (pitch: real)
    ensures pitch == Pitch(data, sampleRate)
  {
    var buffer := if |data| <= BufferSize then data else data[..BufferSize];
    var maxCorrelation := 0.0;
    var bestOffset: nat := 0;
    var offset := MinLag;
    while 2 * offset < |buffer|
      invariant MinLag <= offset
      invariant Scan(buffer, offset, maxCorrelation, bestOffset) == BestLag(buffer)
      decreases |buffer| - offset
    {
      var correlation := 0.0;
      var i := 0;
      while i < |buffer| - offset
        invariant 0 <= i <= |buffer| - offset
        invariant correlation == AbsDiffSum(buffer, offset, i)
      {
        correlation := correlation + Abs(buffer[i] - buffer[i + offset]);
        i := i + 1;
      }
      correlation := 1.0 - correlation / (|buffer| - offset) as real;
      if correlation > maxCorrelation {
        maxCorrelation := correlation;
        bestOffset := offset;
      }
      offset := offset + 1;
    }
    pitch := sampleRate / (if bestOffset == 0 then 1 else bestOffset) as real;
  }

  /** The three descriptors of one sample window. */
  function Extract(window: seq<real>, sampleRate: real): FeatureVector {
    FeatureVector(MeanSquare(window), Pitch(window, sampleRate), ZeroCrossingRate(window))
  }

  method ExtractFeatures(window: seq<real>, sampleRate: real) returns (f: FeatureVector)
    ensures f == Extract(window, sampleRate)
  {
    var energy := CalculateEnergy(window);
    var pitch := EstimatePitch(window, sampleRate);
    var zcr := CalculateZeroCrossingRate(window);
    f := FeatureVector(energy, pitch, zcr);
  }
}

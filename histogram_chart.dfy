/**
 * The binning behind the histogram of price moves: rows without a move are
 * dropped, the remaining moves are counted into 14 half-open unit bins
 * `[-7, -6), ..., [6, 7)`, and the y axis gets one tick per whole number from
 * 0 to one above the tallest bin.
 */
module HistogramChart {
  import opened Common
  import opened Text
  import opened Lists

  /** A row of the chart data; only the move is read by the binning. */
  datatype PriceRow = PriceRow(date: string, priceChangePct: Option<real>)

  datatype Bin = Bin(binStart: int, binEnd: int, frequency: nat, binLabel: string)

  const FirstEdge := -7
  const EdgeCount := 15

  /** `data.map(item => item.price_change_pct).filter(move => move !== null)`. */
  function ValidMoves(data: seq<PriceRow>): seq<real>
  {
    FilterMap((row: PriceRow) => row.priceChangePct, data)
  }

  /** Null moves are excluded: one valid move per row that has one, each the move of some row. */
  lemma ValidMovesAreTheNonNull(data: seq<PriceRow>)
    ensures |ValidMoves(data)| <= |data|
    ensures forall k :: 0 <= k < |ValidMoves(data)| ==>
      exists j :: 0 <= j < |data| && data[j].priceChangePct == Some(ValidMoves(data)[k])
  {
    FilterMapCount((row: PriceRow) => row.priceChangePct, data);
  }

  /** `validMoves.filter(move => move >= lo && move < hi).length`. */
  function CountIn(moves: seq<real>, lo: real, hi: real): (n: nat)
    ensures n <= |moves|
  {
    if moves == [] then 0
    else CountIn(moves[..|moves| - 1], lo, hi) + (if lo <= moves[|moves| - 1] < hi then 1 else 0)
  }

  /** `${binStart} to ${binEnd}`. */
  function BinLabel(binStart: int, binEnd: int): string
  {
    IntToString(binStart) + " to " + IntToString(binEnd)
  }

  /** The `i`-th bin: edges `-7 + i` and `-6 + i`. */
  function BinAt(moves: seq<real>, i: nat): Bin
  {
    var binStart := FirstEdge + i;
    var binEnd := FirstEdge + i + 1;
    Bin(binStart, binEnd, CountIn(moves, binStart as real, binEnd as real), BinLabel(binStart, binEnd))
  }

  /** The `for` loop over consecutive edges that builds the bins. */
  method BuildBins(validMoves: seq<real>) returns (bins: seq<Bin>)
    ensures |bins| == EdgeCount - 1 == 14
    ensures forall i :: 0 <= i < |bins| ==> bins[i] == BinAt(validMoves, i)
    ensures bins[0].binStart == -7 && bins[|bins| - 1].binEnd == 7
    ensures forall i :: 0 <= i < |bins| ==> bins[i].binEnd == bins[i].binStart + 1
    ensures forall i :: 0 <= i < |bins| - 1 ==> bins[i].binEnd == bins[i + 1].binStart
  {
    var binEdges := seq(EdgeCount, i requires 0 <= i < EdgeCount => FirstEdge + i);
    bins := [];
    for i := 0 to |binEdges| - 1
      invariant |bins| == i
      invariant forall k :: 0 <= k < i ==> bins[k] == BinAt(validMoves, k)
    {
      var binStart := binEdges[i];
      var binEnd := binEdges[i + 1];
      var frequency := CountIn(validMoves, binStart as real, binEnd as real);
      bins := bins + [Bin(binStart, binEnd, frequency, BinLabel(binStart, binEnd))];
    }
  }

  /** Counting over two adjacent half-open ranges is counting over their union. */
  lemma {:induction false} CountSplit(moves: seq<real>, lo: real, mid: real, hi: real)
    requires lo <= mid <= hi
    ensures CountIn(moves, lo, mid) + CountIn(moves, mid, hi) == CountIn(moves, lo, hi)
  {
    if moves != [] {
      CountSplit(moves[..|moves| - 1], lo, mid, hi);
    }
  }

  /** The total of the first `n` bins' frequencies. */
  function SumFrequencies(bins: seq<Bin>): nat
  {
    if bins == [] then 0 else SumFrequencies(bins[..|bins| - 1]) + bins[|bins| - 1].frequency
  }

  /** The first `n` bins together count the moves in `[-7, -7 + n)`. */
  lemma {:induction false} SumOfFirstBins(moves: seq<real>, bins: seq<Bin>, n: nat)
    requires n <= |bins| && forall i :: 0 <= i < |bins| ==> bins[i] == BinAt(moves, i)
    ensures SumFrequencies(bins[..n]) == CountIn(moves, FirstEdge as real, (FirstEdge + n) as real)
  {
    if n == 0 {
      CountSplit(moves, FirstEdge as real, FirstEdge as real, FirstEdge as real);
    } else {
      SumOfFirstBins(moves, bins, n - 1);
      assert bins[..n][..n - 1] == bins[..n - 1];
      CountSplit(moves, FirstEdge as real, (FirstEdge + n - 1) as real, (FirstEdge + n) as real);
    }
  }

  /** The frequencies add up to the number of moves in `[-7, 7)`, never more than there are moves. */
  lemma SumOfFrequencies(moves: seq<real>, bins: seq<Bin>)
    requires |bins| == 14 && forall i :: 0 <= i < |bins| ==> bins[i] == BinAt(moves, i)
    ensures SumFrequencies(bins) == CountIn(moves, -7.0, 7.0) <= |moves|
  {
    SumOfFirstBins(moves, bins, 14);
    assert bins[..14] == bins;
    assert FirstEdge as real == -7.0 && (FirstEdge + 14) as real == 7.0;
  }

  /** Whether `m` falls in the `i`-th bin. */
  predicate InBin(m: real, i: int)
  {
    (FirstEdge + i) as real <= m < (FirstEdge + i + 1) as real
  }

  /** A move in `[-7, 7)` falls in exactly one bin, the one whose start is its floor; any other move falls in none. */
  lemma ExactlyOneBin(m: real)
    ensures -7.0 <= m < 7.0 ==> 0 <= m.Floor + 7 < 14 && InBin(m, m.Floor + 7)
    ensures forall i :: 0 <= i < 14 && InBin(m, i) ==> i == m.Floor + 7
    ensures !(-7.0 <= m < 7.0) ==> forall i :: 0 <= i < 14 ==> !InBin(m, i)
  {
    forall i | 0 <= i < 14 && InBin(m, i) ensures i == m.Floor + 7 {
      assert (i - 7) as real <= m < (i - 6) as real;
    }
  }

  /** `Math.max(...bins.map(bin => bin.frequency))` on a non-empty array. */
  function MaxFrequency(bins: seq<Bin>): (r: nat)
    requires bins != []
    ensures forall i :: 0 <= i < |bins| ==> bins[i].frequency <= r
    ensures exists i :: 0 <= i < |bins| && bins[i].frequency == r
  {
    if |bins| == 1 then bins[0].frequency
    else
      var front := MaxFrequency(bins[..|bins| - 1]);
      var last := bins[|bins| - 1].frequency;
      if front < last then last else front
  }

  /** `maxFreq`: the tallest bin, or 0 when there are no bins. */
  function MaxFreq(bins: seq<Bin>): nat
  {
    if |bins| > 0 then MaxFrequency(bins) else 0
  }

  /** `Array.from({ length: maxFreq + 2 }, (_, i) => i)`: the ticks 0, 1, ..., maxFreq + 1. */
  function YTicks(maxFreq: nat): (ticks: seq<nat>)
    ensures |ticks| == maxFreq + 2
    ensures forall i :: 0 <= i < |ticks| ==> ticks[i] == i
  {
    seq(maxFreq + 2, i requires 0 <= i < maxFreq + 2 => i)
  }

  /** The y axis reaches one tick above the tallest bin, and every bin's frequency has a tick. */
  lemma TicksCoverBins(bins: seq<Bin>)
    requires bins != []
    ensures YTicks(MaxFreq(bins))[|YTicks(MaxFreq(bins))| - 1] == MaxFreq(bins) + 1
    ensures forall i :: 0 <= i < |bins| ==> bins[i].frequency in YTicks(MaxFreq(bins))
  {
    var ticks := YTicks(MaxFreq(bins));
    forall i | 0 <= i < |bins| ensures bins[i].frequency in ticks {
      assert ticks[bins[i].frequency] == bins[i].frequency;
    }
  }
}

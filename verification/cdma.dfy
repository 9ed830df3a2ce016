/**
 * CDMA superposition of the UMTS visualizer (app.py, lines 18-22).
 *
 * One chip sequence of +-1 values, of length spreading_factor, is shared by
 * every user; each user has one +-1 data bit.  A user's spread signal is the
 * chip sequence scaled by that user's bit, and the composite signal is the
 * elementwise sum of all spread signals.  The random draws of lines 18-19 are
 * parameters here.
 */
module Cdma {

  /** A value a chip or a data bit can take. */
  predicate IsAntipodal(x: int) {
    x == -1 || x == 1
  }

  predicate AllAntipodal(s: seq<int>) {
    forall i :: 0 <= i < |s| ==> IsAntipodal(s[i])
  }

  /** Every row of a signal matrix has length n. */
  predicate Rectangular(rows: seq<seq<int>>, n: nat) {
    forall i :: 0 <= i < |rows| ==> |rows[i]| == n
  }

  /** Sum of a sequence of integers. */
  function Sum(s: seq<int>): int {
    if s == [] then 0 else s[0] + Sum(s[1..])
  }

  /** Inner product of two sequences of equal length. */
  function Dot(a: seq<int>, b: seq<int>): int
    requires |a| == |b|
  {
    if a == [] then 0 else a[0] * b[0] + Dot(a[1..], b[1..])
  }

  /** Sum over all rows of column j (what np.sum(..., axis=0) adds up at j). */
  function ColumnSum(rows: seq<seq<int>>, j: nat): int
    requires forall i :: 0 <= i < |rows| ==> j < |rows[i]|
  {
    if rows == [] then 0 else rows[0][j] + ColumnSum(rows[1..], j)
  }

  /** Scale a sequence by a scalar: `bit * np.tile(chips, 1)`. */
  function Spread(bit: int, chips: seq<int>): (r: seq<int>)
    ensures |r| == |chips|
    ensures forall j :: 0 <= j < |r| ==> r[j] == bit * chips[j]
  {
    seq(|chips|, j requires 0 <= j < |chips| => bit * chips[j])
  }

  /** One spread signal per data bit, in bit order (the list comprehension). */
  function SpreadSignals(bits: seq<int>, chips: seq<int>): (r: seq<seq<int>>)
    ensures |r| == |bits|
    ensures Rectangular(r, |chips|)
    ensures forall i :: 0 <= i < |r| ==> r[i] == Spread(bits[i], chips)
  {
    seq(|bits|, i requires 0 <= i < |bits| => Spread(bits[i], chips))
  }

  /** Elementwise sum of two signals of equal length. */
  function Add(a: seq<int>, b: seq<int>): (r: seq<int>)
    requires |a| == |b|
    ensures |r| == |a|
    ensures forall j :: 0 <= j < |r| ==> r[j] == a[j] + b[j]
  {
    seq(|a|, j requires 0 <= j < |a| => a[j] + b[j])
  }

  /**
   * np.sum(rows, axis=0) for a non-empty list of rows of length n: the
   * signal whose element j is the sum of the rows' elements j.
   */
  function Composite(rows: seq<seq<int>>, n: nat): (r: seq<int>)
    requires |rows| >= 1 && Rectangular(rows, n)
    ensures |r| == n
    ensures forall j :: 0 <= j < n ==> r[j] == ColumnSum(rows, j)
  {
    if |rows| == 1 then rows[0] else Add(rows[0], Composite(rows[1..], n))
  }

  /** What one run of the spreading simulation produces. */
  datatype CdmaSignals = CdmaSignals(spreadSignals: seq<seq<int>>, composite: seq<int>)

  /** Lines 18-22, with the chip and bit draws as inputs. */
  function SimulateCdma(numUsers: nat, spreadingFactor: nat, chips: seq<int>, bits: seq<int>): (out: CdmaSignals)
    requires numUsers >= 1
    requires |chips| == spreadingFactor && AllAntipodal(chips)
    requires |bits| == numUsers && AllAntipodal(bits)
    ensures |out.spreadSignals| == numUsers
    ensures forall i :: 0 <= i < numUsers ==> |out.spreadSignals[i]| == spreadingFactor
    ensures forall i, j :: 0 <= i < numUsers && 0 <= j < spreadingFactor ==>
              out.spreadSignals[i][j] == bits[i] * chips[j] && IsAntipodal(out.spreadSignals[i][j])
    ensures |out.composite| == spreadingFactor
    ensures forall j :: 0 <= j < spreadingFactor ==>
              out.composite[j] == chips[j] * Sum(bits) && -(numUsers as int) <= out.composite[j] <= numUsers
  {
    var signals := SpreadSignals(bits, chips);
    var composite := Composite(signals, spreadingFactor);
    CompositeClosedForm(bits, chips);
    CompositeBounded(bits, chips);
    CdmaSignals(signals, composite)
  }

  // ---------------------------------------------------------------------
  // Lemmas
  // ---------------------------------------------------------------------

  /** The sum of n values of +-1 lies in [-n, n] and has the parity of n. */
  lemma {:induction false} SumAntipodal(s: seq<int>)
    requires AllAntipodal(s)
    ensures -|s| <= Sum(s) <= |s|
    ensures (Sum(s) + |s|) % 2 == 0
  {
    if s != [] {
      SumAntipodal(s[1..]);
    }
  }

  /** Column j of the spread signals adds up to chips[j] times the sum of the bits. */
  lemma {:induction false} ColumnSumOfSpread(bits: seq<int>, chips: seq<int>, j: nat)
    requires j < |chips|
    ensures ColumnSum(SpreadSignals(bits, chips), j) == chips[j] * Sum(bits)
  {
    if bits != [] {
      var rows := SpreadSignals(bits, chips);
      assert rows[1..] == SpreadSignals(bits[1..], chips);
      ColumnSumOfSpread(bits[1..], chips, j);
      calc {
        ColumnSum(rows, j);
        rows[0][j] + ColumnSum(rows[1..], j);
        bits[0] * chips[j] + chips[j] * Sum(bits[1..]);
        chips[j] * (bits[0] + Sum(bits[1..]));
      }
    }
  }

  /** Each element of the composite is chips[j] * sum(bits). */
  lemma CompositeClosedForm(bits: seq<int>, chips: seq<int>)
    requires |bits| >= 1
    ensures forall j :: 0 <= j < |chips| ==>
              Composite(SpreadSignals(bits, chips), |chips|)[j] == chips[j] * Sum(bits)
  {
    forall j | 0 <= j < |chips|
      ensures Composite(SpreadSignals(bits, chips), |chips|)[j] == chips[j] * Sum(bits)
    {
      ColumnSumOfSpread(bits, chips, j);
    }
  }

  /** The composite is the shared chip sequence scaled by the sum of the bits. */
  lemma CompositeIsScaledChips(bits: seq<int>, chips: seq<int>)
    requires |bits| >= 1
    ensures Composite(SpreadSignals(bits, chips), |chips|) == Spread(Sum(bits), chips)
  {
    CompositeClosedForm(bits, chips);
  }

  /** Scaling +-1 chips by k gives samples that are k or -k. */
  lemma SpreadAntipodalChips(k: int, chips: seq<int>)
    requires AllAntipodal(chips)
    ensures forall j :: 0 <= j < |chips| ==> Spread(k, chips)[j] == k || Spread(k, chips)[j] == -k
  {
    forall j | 0 <= j < |chips|
      ensures Spread(k, chips)[j] == k || Spread(k, chips)[j] == -k
    {
      assert IsAntipodal(chips[j]);
    }
  }

  /** With +-1 chips and bits, every composite sample lies in [-num_users, num_users]. */
  lemma CompositeBounded(bits: seq<int>, chips: seq<int>)
    requires |bits| >= 1 && AllAntipodal(chips) && AllAntipodal(bits)
    ensures forall j :: 0 <= j < |chips| ==>
              -|bits| <= Composite(SpreadSignals(bits, chips), |chips|)[j] <= |bits|
  {
    CompositeIsScaledChips(bits, chips);
    SumAntipodal(bits);
    SpreadAntipodalChips(Sum(bits), chips);
  }

  /** Every composite sample has the parity of the number of users. */
  lemma CompositeParity(bits: seq<int>, chips: seq<int>)
    requires |bits| >= 1 && AllAntipodal(chips) && AllAntipodal(bits)
    ensures forall j :: 0 <= j < |chips| ==>
              (Composite(SpreadSignals(bits, chips), |chips|)[j] + |bits|) % 2 == 0
  {
    var k, n := Sum(bits), |bits|;
    var c := Composite(SpreadSignals(bits, chips), |chips|);
    CompositeIsScaledChips(bits, chips);
    SumAntipodal(bits);
    SpreadAntipodalChips(k, chips);
    assert (k + n) % 2 == 0 && (-k + n) % 2 == 0 by {
      assert -k + n == (k + n) + 2 * (-k);
    }
    forall j | 0 <= j < |chips|
      ensures (c[j] + n) % 2 == 0
    {
      assert c[j] == k || c[j] == -k;
    }
  }

  /** Correlating +-1 chips with the chips scaled by k gives k times the length. */
  lemma {:induction false} DotWithSpread(chips: seq<int>, k: int)
    requires AllAntipodal(chips)
    ensures Dot(chips, Spread(k, chips)) == k * |chips|
  {
    if chips != [] {
      var s := Spread(k, chips);
      assert s[1..] == Spread(k, chips[1..]);
      DotWithSpread(chips[1..], k);
      assert chips[0] * (k * chips[0]) == k * (chips[0] * chips[0]);
      assert chips[0] * chips[0] == 1;
      assert k + k * (|chips| - 1) == k * |chips|;
    }
  }

  /**
   * Despreading the composite with the shared chip sequence yields
   * spreading_factor * sum(bits): only the sum of the users' bits.
   */
  lemma DespreadYieldsBitSum(bits: seq<int>, chips: seq<int>)
    requires |bits| >= 1 && AllAntipodal(chips)
    ensures var c := Composite(SpreadSignals(bits, chips), |chips|);
            |c| == |chips| && Dot(chips, c) == |chips| * Sum(bits)
  {
    var k := Sum(bits);
    var c := Composite(SpreadSignals(bits, chips), |chips|);
    assert c == Spread(k, chips) by {
      CompositeIsScaledChips(bits, chips);
    }
    DotWithSpread(chips, k);
  }

  /** Two bit vectors with the same sum produce the same composite. */
  lemma SameBitSumSameComposite(bits1: seq<int>, bits2: seq<int>, chips: seq<int>)
    requires |bits1| >= 1 && |bits2| >= 1 && Sum(bits1) == Sum(bits2)
    ensures Composite(SpreadSignals(bits1, chips), |chips|) == Composite(SpreadSignals(bits2, chips), |chips|)
  {
    CompositeIsScaledChips(bits1, chips);
    CompositeIsScaledChips(bits2, chips);
  }

  /**
   * Because all users share one chip sequence, the users' bits cannot be told
   * apart from the composite: bits [1, -1] and [-1, 1] give the same signal.
   */
  lemma SharedCodeHidesBits(chips: seq<int>)
    ensures Composite(SpreadSignals([1, -1], chips), |chips|) == Composite(SpreadSignals([-1, 1], chips), |chips|)
  {
    assert Sum([1, -1]) == 0 by { assert [1, -1][1..] == [-1]; }
    assert Sum([-1, 1]) == 0 by { assert [-1, 1][1..] == [1]; }
    SameBitSumSameComposite([1, -1], [-1, 1], chips);
  }
}

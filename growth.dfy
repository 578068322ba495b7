/**
 * The growth-function table at the top of `plot_complexity` (app.py, lines 46-57): the
 * input sizes of the plot and, per label text, the operation counts drawn against them.
 * Drawing and encoding the chart (lines 59-74) are not part of this model.
 */
module Growth {

  /** The rows of the table; unrecognised label texts fall back to the constant row. */
  datatype Row = ConstantRow | LinearRow | QuadraticRow | ExponentialRow

  /** The case split of lines 48-57 on the label text. */
  function RowFor(complexity: string): (r: Row)
    ensures r == ConstantRow <==> complexity !in {"O(N)", "O(N^2)", "O(2^N)"}
    ensures r == LinearRow <==> complexity == "O(N)"
    ensures r == QuadraticRow <==> complexity == "O(N^2)"
    ensures r == ExponentialRow <==> complexity == "O(2^N)"
  {
    if complexity == "O(1)" then ConstantRow
    else if complexity == "O(N)" then LinearRow
    else if complexity == "O(N^2)" then QuadraticRow
    else if complexity == "O(2^N)" then ExponentialRow
    else ConstantRow
  }

  /**
   * `np.linspace(start, stop, num)`: `num` evenly spaced points from `start` to `stop`
   * inclusive, for the case where the step `(stop - start) / (num - 1)` is a whole number.
   */
  function Linspace(start: int, stop: int, num: nat): (ns: seq<int>)
    requires num >= 2 && (stop - start) % (num - 1) == 0
    ensures |ns| == num && ns[0] == start && ns[num - 1] == stop
    ensures forall k :: 0 <= k < num - 1 ==> ns[k + 1] - ns[k] == (stop - start) / (num - 1)
  {
    var step := (stop - start) / (num - 1);
    LinspaceLast(start, stop, num, step);
    seq(num, k requires 0 <= k < num => start + k * step)
  }

  lemma LinspaceLast(start: int, stop: int, num: nat, step: int)
    requires num >= 2 && (stop - start) % (num - 1) == 0 && step == (stop - start) / (num - 1)
    ensures start + (num - 1) * step == stop
  {
  }

  /** The plot's input sizes, `np.linspace(1, 100, 100)` (line 46): the whole numbers 1 to 100. */
  function Domain(): (ns: seq<int>)
    ensures |ns| == 100
    ensures forall k :: 0 <= k < 100 ==> ns[k] == k + 1
  {
    Linspace(1, 100, 100)
  }

  /**
   * The operation count of a polynomial row at input size `n` (lines 49, 51, 53 and 57):
   * for a positive size, at least 1 and at most the square of the size.
   */
  function Value(row: Row, n: int): (v: int)
    requires row != ExponentialRow
    ensures 1 <= n ==> 1 <= v <= n * n
  {
    assert 1 <= n ==> n * 1 <= n * n;
    match row
    case ConstantRow => 1
    case LinearRow => n
    case QuadraticRow => n * n
  }

  /**
   * `y` computed element-wise from the input sizes `ns`, as numpy does: one value per
   * size, and for a positive size between 1 and its square.
   */
  function Curve(row: Row, ns: seq<int>): (ys: seq<int>)
    requires row != ExponentialRow
    ensures |ys| == |ns|
    ensures forall k :: 0 <= k < |ns| && 1 <= ns[k] ==> 1 <= ys[k] <= ns[k] * ns[k]
  {
    seq(|ns|, k requires 0 <= k < |ns| => Value(row, ns[k]))
  }

  /** `O(1)` and every unrecognised label draw the constant 1: equal at input size 1 and 100. */
  lemma FlatCurve(complexity: string)
    requires complexity !in {"O(N)", "O(N^2)", "O(2^N)"}
    ensures forall k :: 0 <= k < 100 ==> Curve(RowFor(complexity), Domain())[k] == 1
    ensures Curve(RowFor(complexity), Domain())[0] == Curve(RowFor(complexity), Domain())[99]
  {
  }

  /** `O(N)` draws the input size itself. */
  lemma LinearCurve()
    ensures Curve(RowFor("O(N)"), Domain()) == Domain()
  {
  }

  /** `O(N^2)` draws the squares, so its value at 100 is 10000 times its value at 1. */
  lemma QuadraticCurve()
    ensures forall k :: 0 <= k < 100 ==> Curve(RowFor("O(N^2)"), Domain())[k] == (k + 1) * (k + 1)
    ensures Curve(RowFor("O(N^2)"), Domain())[99] == 10000 * Curve(RowFor("O(N^2)"), Domain())[0]
  {
  }

  /** Every polynomial curve is non-decreasing along the plot's domain. */
  lemma CurveNonDecreasing(row: Row, j: nat, k: nat)
    requires row != ExponentialRow && j <= k < 100
    ensures Curve(row, Domain())[j] <= Curve(row, Domain())[k]
  {
    ValueMonotone(row, Domain()[j], Domain()[k]);
  }

  /** Each polynomial row is monotone on positive input sizes. */
  lemma ValueMonotone(row: Row, m: int, n: int)
    requires row != ExponentialRow && 1 <= m <= n
    ensures Value(row, m) <= Value(row, n)
  {
    if row == QuadraticRow {
      assert m * m <= m * n <= n * n;
    }
  }
}

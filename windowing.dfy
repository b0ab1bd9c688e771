/**
 * Cutting a sensor table into fixed windows of 128 rows. The server cuts
 * overlapping windows (a step of 64 rows), the offline loader non-overlapping
 * ones (a step of 128 rows); both keep columns 0-2 as the accelerometer and
 * columns 3-5 as the gyroscope of each row.
 */
module Windowing {

  const WindowSize: nat := 128

  /** One sample of a three-axis sensor. */
  datatype Triple = Triple(x: real, y: real, z: real)

  /** `WindowSize` consecutive samples of one sensor. */
  type Window = seq<Triple>

  /** A table as pandas reads it: `shape[1]` columns, and every row has that many cells. */
  datatype Frame = Frame(width: nat, rows: seq<seq<real>>)
  type Table = f: Frame | forall r :: r in f.rows ==> |r| == f.width witness Frame(0, [])

  /** Every row carries the six sensor columns. */
  ghost predicate SensorRows(rows: seq<seq<real>>)
  {
    forall r :: r in rows ==> |r| >= 6
  }

  /** Columns 0-2 of a row. */
  function AccOf(row: seq<real>): Triple
    requires |row| >= 3
  {
    Triple(row[0], row[1], row[2])
  }

  /** Columns 3-5 of a row. */
  function GyroOf(row: seq<real>): Triple
    requires |row| >= 6
  {
    Triple(row[3], row[4], row[5])
  }

  /** `rows[start:start + 128][:, :3]`. */
  function AccWindow(rows: seq<seq<real>>, start: nat): (w: Window)
    requires SensorRows(rows) && start + WindowSize <= |rows|
    ensures |w| == WindowSize
    ensures forall j :: 0 <= j < WindowSize ==> w[j] == AccOf(rows[start + j])
  {
    seq(WindowSize, j requires 0 <= j < WindowSize => AccOf(rows[start + j]))
  }

  /** `rows[start:start + 128][:, 3:6]`. */
  function GyroWindow(rows: seq<seq<real>>, start: nat): (w: Window)
    requires SensorRows(rows) && start + WindowSize <= |rows|
    ensures |w| == WindowSize
    ensures forall j :: 0 <= j < WindowSize ==> w[j] == GyroOf(rows[start + j])
  {
    seq(WindowSize, j requires 0 <= j < WindowSize => GyroOf(rows[start + j]))
  }

  /** How many windows `range(0, n - 127, step)` starts: none below 128 rows, and at most one per row beyond 127. */
  function WindowCount(n: nat, step: nat): (count: nat)
    requires step > 0
    ensures count == 0 <==> n < WindowSize
    ensures n >= WindowSize ==> count <= n - WindowSize + 1
  {
    if n >= WindowSize then
      QuotientAtMost(n - WindowSize, step);
      (n - WindowSize) / step + 1
    else 0
  }

  lemma MulMonotone(a: nat, b: nat, c: nat)
    requires a <= b
    ensures a * c <= b * c
  {
  }

  lemma QuotientAtMost(x: nat, step: nat)
    requires step > 0
    ensures x / step <= x
  {
    var q := x / step;
    MulMonotone(1, step, q);
    assert q * step <= x;
  }

  /** The k-th window start `k * step` exists exactly when the window fits in the table. */
  lemma WindowStarts(n: nat, step: nat, k: nat)
    requires step > 0
    ensures k < WindowCount(n, step) <==> k * step + WindowSize <= n
  {
    if n >= WindowSize {
      var q := (n - WindowSize) / step;
      assert q * step <= n - WindowSize < (q + 1) * step;
      if k <= q {
        MulMonotone(k, q, step);
      } else {
        MulMonotone(q + 1, k, step);
      }
    }
  }

  /** The accelerometer windows starting at 0, step, 2 * step, ... */
  function AccWindows(rows: seq<seq<real>>, step: nat): (ws: seq<Window>)
    requires step > 0 && SensorRows(rows)
    ensures |ws| == WindowCount(|rows|, step)
    ensures forall k :: 0 <= k < |ws| ==> |ws[k]| == WindowSize
  {
    seq(WindowCount(|rows|, step), k requires 0 <= k < WindowCount(|rows|, step) =>
      WindowStarts(|rows|, step, k); AccWindow(rows, k * step))
  }

  /** The gyroscope windows starting at 0, step, 2 * step, ... */
  function GyroWindows(rows: seq<seq<real>>, step: nat): (ws: seq<Window>)
    requires step > 0 && SensorRows(rows)
    ensures |ws| == WindowCount(|rows|, step)
    ensures forall k :: 0 <= k < |ws| ==> |ws[k]| == WindowSize
  {
    seq(WindowCount(|rows|, step), k requires 0 <= k < WindowCount(|rows|, step) =>
      WindowStarts(|rows|, step, k); GyroWindow(rows, k * step))
  }

  /** Window k covers rows k * step .. k * step + 127: columns 0-2 and 3-5 of the same rows. */
  lemma WindowContents(rows: seq<seq<real>>, step: nat, k: nat, j: nat)
    requires step > 0 && SensorRows(rows) && k < WindowCount(|rows|, step) && j < WindowSize
    ensures k * step + j < |rows|
    ensures AccWindows(rows, step)[k][j] == AccOf(rows[k * step + j])
    ensures GyroWindows(rows, step)[k][j] == GyroOf(rows[k * step + j])
  {
    WindowStarts(|rows|, step, k);
  }

  /** The windowing loop: windows start at 0, step, 2 * step, ... while 128 rows remain. */
  method Segment(rows: seq<seq<real>>, step: nat) returns (acc: seq<Window>, gyro: seq<Window>)
    requires step > 0 && SensorRows(rows)
    ensures |acc| == WindowCount(|rows|, step) && |gyro| == |acc|
    ensures acc == AccWindows(rows, step) && gyro == GyroWindows(rows, step)
  {
    ghost var accAll, gyroAll := AccWindows(rows, step), GyroWindows(rows, step);
    acc, gyro := [], [];
    var i := 0;
    while i + WindowSize <= |rows|
      invariant i == |acc| * step && |gyro| == |acc|
      invariant |acc| <= |accAll|
      invariant acc == accAll[..|acc|] && gyro == gyroAll[..|acc|]
      decreases |rows| - i
    {
      SegmentStep(rows, step, acc, gyro, i);
      acc := acc + [AccWindow(rows, i)];
      gyro := gyro + [GyroWindow(rows, i)];
      i := i + step;
    }
    WindowStarts(|rows|, step, |acc|);
    assert accAll[..|acc|] == accAll && gyroAll[..|acc|] == gyroAll;
  }

  /** One turn of the windowing loop appends the next window of each list. */
  lemma SegmentStep(rows: seq<seq<real>>, step: nat, acc: seq<Window>, gyro: seq<Window>, i: nat)
    requires step > 0 && SensorRows(rows) && i + WindowSize <= |rows|
    requires i == |acc| * step && |gyro| == |acc| && |acc| <= WindowCount(|rows|, step)
    requires acc == AccWindows(rows, step)[..|acc|] && gyro == GyroWindows(rows, step)[..|acc|]
    ensures |acc| + 1 <= WindowCount(|rows|, step) && i + step == (|acc| + 1) * step
    ensures acc + [AccWindow(rows, i)] == AccWindows(rows, step)[..|acc| + 1]
    ensures gyro + [GyroWindow(rows, i)] == GyroWindows(rows, step)[..|acc| + 1]
  {
    var k := |acc|;
    NextStart(|rows|, step, k);
    var accAll, gyroAll := AccWindows(rows, step), GyroWindows(rows, step);
    assert accAll[k] == AccWindow(rows, i) && gyroAll[k] == GyroWindow(rows, i);
    PrefixAppend(accAll, k);
    PrefixAppend(gyroAll, k);
  }

  /** When window k fits there is a window k + 1 to count, and the next start is one step further. */
  lemma NextStart(n: nat, step: nat, k: nat)
    requires step > 0 && k * step + WindowSize <= n
    ensures k + 1 <= WindowCount(n, step) && (k + 1) * step == k * step + step
  {
    WindowStarts(n, step, k);
  }

  lemma PrefixAppend(ws: seq<Window>, k: nat)
    requires k < |ws|
    ensures ws[..k + 1] == ws[..k] + [ws[k]]
  {
  }

  /** A table with at least six columns holds sensor rows. */
  lemma WideTableRows(t: Table)
    requires t.width >= 6
    ensures SensorRows(t.rows)
  {
  }

  /** With a step of 128 the window count is `n // 128` and fewer than 128 trailing rows are dropped. */
  lemma NonOverlappingCount(n: nat)
    ensures WindowCount(n, WindowSize) == n / WindowSize
    ensures 0 <= n - WindowCount(n, WindowSize) * WindowSize < WindowSize
  {
  }

  /** Consecutive windows with a step of 64 share 64 rows: the second half of one is the first half of the next. */
  lemma OverlappingWindowsShareHalf(rows: seq<seq<real>>, start: nat, j: nat)
    requires SensorRows(rows) && start + 64 + WindowSize <= |rows| && j < 64
    ensures AccWindow(rows, start + 64)[j] == AccWindow(rows, start)[j + 64]
    ensures GyroWindow(rows, start + 64)[j] == GyroWindow(rows, start)[j + 64]
  {
  }
}

/** Sliding windows over the sample stream (WindowBuilder in loralink_mllc/runtime/tx_node.py). */
module Windows {
  import opened Basics
  import Arith

  type Row = seq<real>

  /** Window length and stride; the run specification demands both positive. */
  datatype WindowSpec = WindowSpec(W: nat, stride: nat) {
    predicate Valid() {
      W >= 1 && stride >= 1
    }
  }

  /** The deque of the last W rows and the number of rows seen. */
  datatype Builder = Builder(buffer: seq<Row>, seen: nat)

  const EmptyBuilder := Builder([], 0)

  function Flatten(rows: seq<Row>): seq<real> {
    if rows == [] then [] else rows[0] + Flatten(rows[1..])
  }

  /** Appending to a deque that holds at most W rows. */
  function Push(w: WindowSpec, buffer: seq<Row>, row: Row): seq<Row>
    requires w.Valid()
  {
    if |buffer| < w.W then buffer + [row] else (buffer + [row])[|buffer| + 1 - w.W..]
  }

  predicate OnStride(w: WindowSpec, seen: nat)
    requires w.Valid()
  {
    (seen - w.W) % w.stride == 0
  }

  function Feed(w: WindowSpec, b: Builder, row: Row): (Builder, Option<seq<real>>)
    requires w.Valid()
  {
    var after := Builder(Push(w, b.buffer, row), b.seen + 1);
    if |after.buffer| < w.W then (after, None)
    else if !OnStride(w, after.seen) then (after, None)
    else (after, Some(Flatten(after.buffer)))
  }

  /** The builder after a whole history of rows. */
  function After(w: WindowSpec, rows: seq<Row>): Builder
    requires w.Valid()
  {
    if rows == [] then EmptyBuilder
    else Feed(w, After(w, rows[..|rows| - 1]), rows[|rows| - 1]).0
  }

  /** Windows emitted along a history, oldest first. */
  function Emitted(w: WindowSpec, rows: seq<Row>): seq<seq<real>>
    requires w.Valid()
  {
    if rows == [] then []
    else
      var before := rows[..|rows| - 1];
      var out := Feed(w, After(w, before), rows[|rows| - 1]).1;
      Emitted(w, before) + (if out.Some? then [out.value] else [])
  }

  /** How many windows fit into n samples. */
  function Count(w: WindowSpec, n: nat): nat
    requires w.Valid()
  {
    if n < w.W then 0 else (n - w.W) / w.stride + 1
  }

  /** The last W rows of a history, or all of them while there are fewer. */
  function LastRows(w: WindowSpec, rows: seq<Row>): seq<Row> {
    if |rows| < w.W then rows else rows[|rows| - w.W..]
  }

  lemma PushKeepsLastRows(w: WindowSpec, rows: seq<Row>, row: Row)
    requires w.Valid()
    ensures Push(w, LastRows(w, rows), row) == LastRows(w, rows + [row])
  {
    var all := rows + [row];
    if |rows| >= w.W {
      assert LastRows(w, rows) + [row] == all[|rows| - w.W..];
    }
  }

  /** The deque always holds exactly the last rows, at most W of them. */
  lemma {:induction false} BufferIsLastRows(w: WindowSpec, rows: seq<Row>)
    requires w.Valid()
    ensures After(w, rows) == Builder(LastRows(w, rows), |rows|)
  {
    hide OnStride, Flatten, Push, LastRows;
    if rows == [] {
      NoRows(w);
    } else {
      var before, row := rows[..|rows| - 1], rows[|rows| - 1];
      BufferIsLastRows(w, before);
      assert rows == before + [row];
      PushKeepsLastRows(w, before, row);
    }
  }

  lemma NoRows(w: WindowSpec)
    requires w.Valid()
    ensures LastRows(w, []) == []
  {
  }

  /** The window that starts at sample `start`. */
  ghost predicate IsWindowAt(w: WindowSpec, rows: seq<Row>, start: int, window: seq<real>) {
    0 <= start && start + w.W <= |rows| && window == Flatten(rows[start..start + w.W])
  }

  /** One more sample adds a window to the count exactly when the sample is on the stride. */
  lemma CountStep(w: WindowSpec, n: nat)
    requires w.Valid() && n >= 1
    ensures Count(w, n) == Count(w, n - 1) + (if n >= w.W && OnStride(w, n) then 1 else 0)
    ensures n >= w.W && OnStride(w, n) ==> n - w.W == Count(w, n - 1) * w.stride
  {
    if n > w.W {
      Arith.DivStep(n - 1 - w.W, w.stride);
    } else if n == w.W {
      Arith.DivUnique(0, w.stride, 0, 0);
    }
  }

  lemma EmitsWhenDue(w: WindowSpec, before: seq<Row>, row: Row)
    requires w.Valid()
    ensures var n, out := |before| + 1, Feed(w, After(w, before), row).1;
            && (out.Some? <==> n >= w.W && OnStride(w, n))
            && (out.Some? ==> IsWindowAt(w, before + [row], n - w.W, out.value))
  {
    hide OnStride, Flatten, After, Push, LastRows;
    BufferIsLastRows(w, before);
    PushKeepsLastRows(w, before, row);
    LastRowsAre(w, before + [row]);
  }

  lemma LastRowsAre(w: WindowSpec, rows: seq<Row>)
    ensures |LastRows(w, rows)| == Min(w.W, |rows|)
    ensures |rows| >= w.W ==> LastRows(w, rows) == rows[|rows| - w.W..|rows|]
  {
  }

  /** Feeding sample n emits a window if and only if n >= W and n - W is a multiple of the stride;
      the k-th window is exactly samples k*stride up to k*stride + W, flattened. */
  lemma {:induction false} WindowJoin(w: WindowSpec, rows: seq<Row>)
    requires w.Valid()
    ensures |Emitted(w, rows)| == Count(w, |rows|)
    ensures forall k :: 0 <= k < |Emitted(w, rows)| ==> IsWindowAt(w, rows, k * w.stride, Emitted(w, rows)[k])
  {
    hide OnStride, Flatten, After, Feed, IsWindowAt;
    if rows != [] {
      var n := |rows|;
      var before, row := rows[..n - 1], rows[n - 1];
      assert rows == before + [row];
      WindowJoin(w, before);
      EmitsWhenDue(w, before, row);
      CountStep(w, n);
      forall k | 0 <= k < |Emitted(w, rows)|
        ensures IsWindowAt(w, rows, k * w.stride, Emitted(w, rows)[k])
      {
        assert |Emitted(w, before)| <= k ==> k * w.stride == n - w.W;
        if k < |Emitted(w, before)| {
          IsWindowExtends(w, before, row, k * w.stride, Emitted(w, before)[k]);
        }
      }
    }
  }

  lemma IsWindowExtends(w: WindowSpec, before: seq<Row>, row: Row, start: int, window: seq<real>)
    requires IsWindowAt(w, before, start, window)
    ensures IsWindowAt(w, before + [row], start, window)
  {
    assert (before + [row])[start..start + w.W] == before[start..start + w.W];
  }

  // ---------------------------------------------------------------------
  // Entry by entry
  // ---------------------------------------------------------------------

  lemma PlaceInRow(n: nat, dims: nat, i: nat, d: nat)
    requires i < n && d < dims
    ensures i * dims + d < n * dims
    ensures i > 0 ==> (i - 1) * dims == i * dims - dims >= 0
  {
    Arith.MulMonotone(i + 1, n, dims);
    Arith.Distribute(i, 1, dims);
    if i > 0 {
      Arith.MulNonNegative(i - 1, dims);
    }
  }

  /** Rows of one length come one after the other, each in its own order. */
  lemma {:induction false} FlattenAt(rows: seq<Row>, dims: nat, i: nat, d: nat)
    requires i < |rows| && d < dims && forall r <- rows :: |r| == dims
    ensures |Flatten(rows)| == |rows| * dims && i * dims + d < |rows| * dims
    ensures Flatten(rows)[i * dims + d] == rows[i][d]
  {
    PlaceInRow(|rows|, dims, i, d);
    Arith.Distribute(|rows| - 1, 1, dims);
    if i > 0 {
      FlattenAt(rows[1..], dims, i - 1, d);
    } else if |rows| > 1 {
      FlattenAt(rows[1..], dims, 0, d);
    }
  }

  lemma EntryOfWindow(w: WindowSpec, rows: seq<Row>, dims: nat, start: nat, window: seq<real>, i: nat, d: nat)
    requires IsWindowAt(w, rows, start, window) && i < w.W && d < dims && forall r <- rows :: |r| == dims
    ensures |window| == w.W * dims && i * dims + d < w.W * dims
    ensures window[i * dims + d] == rows[start + i][d]
  {
    FlattenAt(rows[start..start + w.W], dims, i, d);
  }

  /** Entry i * dims + d of the k-th window is coordinate d of sample k * stride + i. */
  lemma WindowEntry(w: WindowSpec, rows: seq<Row>, dims: nat, k: nat, i: nat, d: nat)
    requires w.Valid() && k < |Emitted(w, rows)| && i < w.W && d < dims && forall r <- rows :: |r| == dims
    ensures var window, at := Emitted(w, rows)[k], k * w.stride + i;
            && |window| == w.W * dims && 0 <= i * dims + d < |window| && 0 <= at < |rows|
            && window[i * dims + d] == rows[at][d]
  {
    hide Emitted, IsWindowAt;
    WindowJoin(w, rows);
    var start := k * w.stride;
    Arith.MulNonNegative(k, w.stride);
    Inside(w, rows, start, Emitted(w, rows)[k]);
    EntryOfWindow(w, rows, dims, start, Emitted(w, rows)[k], i, d);
    PlaceInRow(w.W, dims, i, d);
    Arith.MulNonNegative(i, dims);
  }

  lemma Inside(w: WindowSpec, rows: seq<Row>, start: int, window: seq<real>)
    requires IsWindowAt(w, rows, start, window)
    ensures 0 <= start && start + w.W <= |rows|
  {
  }

  datatype FeedError = DimsMismatch

  /** The window builder object. */
  class WindowBuilder {
    const dims: nat
    const spec: WindowSpec
    var buffer: seq<Row>
    var samplesSeen: nat

    ghost predicate Valid() {
      spec.Valid()
    }

    ghost function View(): Builder
      reads this
    {
      Builder(buffer, samplesSeen)
    }

    constructor (dims: nat, spec: WindowSpec)
      requires spec.Valid()
      ensures Valid() && this.dims == dims && this.spec == spec && View() == EmptyBuilder
    {
      this.dims := dims;
      this.spec := spec;
      buffer, samplesSeen := [], 0;
    }

    method FeedSample(sample: Row) returns (r: Result<Option<seq<real>>, FeedError>)
      requires Valid()
      modifies this
      ensures |sample| != dims ==> r == Err(DimsMismatch) && View() == old(View())
      ensures |sample| == dims ==>
                r.Ok? && (View(), r.value) == Feed(spec, old(View()), sample)
    {
      hide OnStride, Flatten;
      if |sample| != dims {
        return Err(DimsMismatch);
      }
      if |buffer| < spec.W {
        buffer := buffer + [sample];
      } else {
        buffer := (buffer + [sample])[|buffer| + 1 - spec.W..];
      }
      samplesSeen := samplesSeen + 1;
      if |buffer| < spec.W {
        return Ok(None);
      }
      if !OnStride(spec, samplesSeen) {
        return Ok(None);
      }
      var window := Join(buffer);
      return Ok(Some(window));
    }

    /** The rows of a window one after the other. */
    static method Join(rows: seq<Row>) returns (window: seq<real>)
      ensures window == Flatten(rows)
    {
      window := [];
      for i := 0 to |rows|
        invariant window + Flatten(rows[i..]) == Flatten(rows)
      {
        assert rows[i..][1..] == rows[i + 1..];
        window := window + rows[i];
      }
      assert window == window + Flatten(rows[|rows|..]);
    }
  }
}

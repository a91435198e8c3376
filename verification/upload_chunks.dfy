/**
 * scripts/upload_clean_flights.py: the cleaned flight table is appended to the
 * database table in slices of 50000 rows, `df.iloc[i:i + 50000]` for `i` in
 * `range(0, len(df), 50000)`, with a progress line before each slice.
 *
 * The database is not modelled: each `upload_dataframe` call becomes an entry
 * of the log of upload calls an `UploadLog` keeps, and the progress line an
 * entry of its progress log. `upload_dataframe` reports a database error only
 * by returning False, which the loop ignores, so the log records the calls
 * made, not the rows that reached the table.
 */
module UploadChunks {

  const ChunkSize: nat := 50000

  function Min(a: int, b: int): int {
    if a <= b then a else b
  }

  /** `df.iloc[i:i + size]` for a start `i` inside the table. */
  function ChunkAt<T>(rows: seq<T>, i: nat, size: nat): (c: seq<T>)
    requires i < |rows| && size > 0
    ensures 1 <= |c| <= size
    ensures i + |c| <= |rows| && (|c| == size || i + |c| == |rows|)
    ensures forall k :: 0 <= k < |c| ==> c[k] == rows[i + k]
  {
    rows[i..Min(i + size, |rows|)]
  }

  /** The slices the loop takes from start `i` on: one per start `i`, `i + size`, ... below `|rows|`. */
  function ChunksFrom<T>(rows: seq<T>, i: nat, size: nat): seq<seq<T>>
    requires size > 0
    decreases |rows| - i
  {
    if i >= |rows| then [] else [ChunkAt(rows, i, size)] + ChunksFrom(rows, i + size, size)
  }

  /** Every slice the script uploads, in upload order. */
  function Chunks<T>(rows: seq<T>, size: nat): seq<seq<T>>
    requires size > 0
  {
    ChunksFrom(rows, 0, size)
  }

  /** The progress line for the slice at `i`: "Uploading rows {i} to {i + len(chunk)}". */
  function ProgressFrom<T>(rows: seq<T>, i: nat, size: nat): seq<(nat, nat)>
    requires size > 0
    decreases |rows| - i
  {
    if i >= |rows| then [] else [(i, i + |ChunkAt(rows, i, size)|)] + ProgressFrom(rows, i + size, size)
  }

  /** The rows of a list of slices, concatenated in order. */
  function Flatten<T>(ss: seq<seq<T>>): seq<T> {
    if |ss| == 0 then [] else ss[0] + Flatten(ss[1..])
  }

  /** What the script leaves behind: the slices passed to the upload calls and the progress lines. */
  class UploadLog<T> {
    var calls: seq<seq<T>>
    var progress: seq<(nat, nat)>

    constructor ()
      ensures calls == [] && progress == []
    {
      calls := [];
      progress := [];
    }

    /** One call `upload_dataframe(chunk, "flight_delay", engine, if_exists="append")`. */
    method Append(chunk: seq<T>)
      modifies this
      ensures calls == old(calls) + [chunk] && progress == old(progress)
    {
      calls := calls + [chunk];
    }

    /** The progress line printed before a slice goes up. */
    method Report(first: nat, last: nat)
      modifies this
      ensures progress == old(progress) + [(first, last)] && calls == old(calls)
    {
      progress := progress + [(first, last)];
    }
  }

  /** Lines 15-22: the slicing loop, each slice reported and then passed to one upload call. */
  method UploadInChunks<T>(df: seq<T>, log: UploadLog<T>)
    modifies log
    ensures log.calls == old(log.calls) + Chunks(df, ChunkSize)
    ensures log.progress == old(log.progress) + ProgressFrom(df, 0, ChunkSize)
  {
    var totalRows := |df|;
    var i := 0;
    while i < totalRows
      invariant old(log.calls) + Chunks(df, ChunkSize) == log.calls + ChunksFrom(df, i, ChunkSize)
      invariant old(log.progress) + ProgressFrom(df, 0, ChunkSize) == log.progress + ProgressFrom(df, i, ChunkSize)
      decreases totalRows - i
    {
      var chunk := df[i..Min(i + ChunkSize, totalRows)];
      log.Report(i, i + |chunk|);
      log.Append(chunk);
      i := i + ChunkSize;
    }
  }

  // ---------------------------------------------------------------
  // Properties
  // ---------------------------------------------------------------

  lemma {:induction false} FlattenAppend<T>(ss: seq<seq<T>>, s: seq<T>)
    ensures Flatten([s] + ss) == s + Flatten(ss)
  {
    assert ([s] + ss)[1..] == ss;
  }

  /** From start `i` on, the slices put together are exactly the rows from `i`. */
  lemma {:induction false} ChunksFromCover<T>(rows: seq<T>, i: nat, size: nat)
    requires size > 0 && i <= |rows|
    ensures Flatten(ChunksFrom(rows, i, size)) == rows[i..]
    decreases |rows| - i
  {
    if i < |rows| {
      var next := Min(i + size, |rows|);
      if next < |rows| {
        ChunksFromCover(rows, next, size);
      } else {
        assert ChunksFrom(rows, i + size, size) == [];
      }
      FlattenAppend(ChunksFrom(rows, i + size, size), ChunkAt(rows, i, size));
      assert rows[i..] == rows[i..next] + rows[next..];
    }
  }

  /** Every row is passed to exactly one upload call, in order: the slices put together are the table. */
  lemma ChunksCoverTable<T>(rows: seq<T>)
    ensures Flatten(Chunks(rows, ChunkSize)) == rows
  {
    ChunksFromCover(rows, 0, ChunkSize);
  }

  /** From start `i` there is one progress line per slice, every slice starts inside the table, and the slices reach its end. */
  lemma {:induction false} ChunksFromCount<T>(rows: seq<T>, i: nat, size: nat)
    requires size > 0
    ensures |ChunksFrom(rows, i, size)| == |ProgressFrom(rows, i, size)|
    ensures forall k :: 0 <= k < |ChunksFrom(rows, i, size)| ==> i + k * size < |rows|
    ensures i + |ChunksFrom(rows, i, size)| * size >= |rows|
    decreases |rows| - i
  {
    if i < |rows| {
      ChunksFromCount(rows, i + size, size);
      var n := |ChunksFrom(rows, i, size)|;
      forall k | 1 <= k < n
        ensures i + k * size < |rows|
      {
        NextStart(i, k, size);
      }
      NextStart(i, n, size);
    }
  }

  /** Slice `k` from start `i` holds the rows from `i + k * size` up to `size` further or the end. */
  lemma {:induction false} ChunksFromAt<T>(rows: seq<T>, i: nat, size: nat)
    requires size > 0
    ensures forall k :: 0 <= k < |ChunksFrom(rows, i, size)| ==>
              i + k * size < |rows| &&
              ChunksFrom(rows, i, size)[k] == rows[i + k * size..Min(i + k * size + size, |rows|)]
    decreases |rows| - i
  {
    ChunksFromCount(rows, i, size);
    if i < |rows| {
      ChunksFromAt(rows, i + size, size);
      var all := ChunksFrom(rows, i, size);
      var rest := ChunksFrom(rows, i + size, size);
      assert all == [ChunkAt(rows, i, size)] + rest;
      forall k | 0 <= k < |all|
        ensures all[k] == rows[i + k * size..Min(i + k * size + size, |rows|)]
      {
        if k == 0 {
          assert all[0] == rows[i..Min(i + size, |rows|)];
        } else {
          NextStart(i, k, size);
          assert all[k] == rest[k - 1];
        }
      }
    }
  }

  /** The progress line for slice `k` from start `i` reports `i + k * size` and `size` further or the end. */
  lemma {:induction false} ProgressFromAt<T>(rows: seq<T>, i: nat, size: nat)
    requires size > 0
    ensures forall k :: 0 <= k < |ProgressFrom(rows, i, size)| ==>
              ProgressFrom(rows, i, size)[k] == (i + k * size, Min(i + k * size + size, |rows|))
    decreases |rows| - i
  {
    if i < |rows| {
      ProgressFromAt(rows, i + size, size);
      var ps := ProgressFrom(rows, i, size);
      var rest := ProgressFrom(rows, i + size, size);
      assert ps == [(i, i + |ChunkAt(rows, i, size)|)] + rest;
      forall k | 0 <= k < |ps|
        ensures ps[k] == (i + k * size, Min(i + k * size + size, |rows|))
      {
        if k == 0 {
          assert |ChunkAt(rows, i, size)| == Min(i + size, |rows|) - i;
        } else {
          NextStart(i, k, size);
          assert ps[k] == rest[k - 1];
        }
      }
    }
  }

  lemma NextStart(i: int, k: int, size: int)
    requires k >= 1
    ensures i + k * size == (i + size) + (k - 1) * size
  {
  }

  /**
   * The upload order: slice `k` starts at row `k * 50000`, below the row count,
   * holds the rows from there to the next multiple or the end, and its progress
   * line reports exactly those bounds; the last slice reaches the end.
   */
  lemma ChunkLayout<T>(rows: seq<T>)
    ensures |ProgressFrom(rows, 0, ChunkSize)| == |Chunks(rows, ChunkSize)|
    ensures forall k :: 0 <= k < |Chunks(rows, ChunkSize)| ==>
              && k * ChunkSize < |rows|
              && Chunks(rows, ChunkSize)[k] == rows[k * ChunkSize..Min(k * ChunkSize + ChunkSize, |rows|)]
              && ProgressFrom(rows, 0, ChunkSize)[k] == (k * ChunkSize, k * ChunkSize + |Chunks(rows, ChunkSize)[k]|)
    ensures |Chunks(rows, ChunkSize)| * ChunkSize >= |rows|
  {
    ChunksFromCount(rows, 0, ChunkSize);
    ChunksFromAt(rows, 0, ChunkSize);
    ProgressFromAt(rows, 0, ChunkSize);
  }

  /** Every slice has between 1 and 50000 rows, and only the last one may have fewer than 50000. */
  lemma ChunkSizes<T>(rows: seq<T>)
    ensures forall k :: 0 <= k < |Chunks(rows, ChunkSize)| ==> 1 <= |Chunks(rows, ChunkSize)[k]| <= ChunkSize
    ensures forall k :: 0 <= k < |Chunks(rows, ChunkSize)| - 1 ==> |Chunks(rows, ChunkSize)[k]| == ChunkSize
  {
    ChunkLayout(rows);
    var cs := Chunks(rows, ChunkSize);
    forall k | 0 <= k < |cs| - 1
      ensures |cs[k]| == ChunkSize
    {
      assert (k + 1) * ChunkSize < |rows|;
    }
  }

  /** An empty table makes no upload call and prints no progress line. */
  lemma EmptyTableUploadsNothing<T>(rows: seq<T>)
    requires |rows| == 0
    ensures Chunks(rows, ChunkSize) == [] && ProgressFrom(rows, 0, ChunkSize) == []
  {
  }

  /** The number of upload calls is the row count divided by 50000, rounded up. */
  lemma ChunkCount<T>(rows: seq<T>)
    ensures |Chunks(rows, ChunkSize)| == (|rows| + ChunkSize - 1) / ChunkSize
  {
    ChunkLayout(rows);
    var n := |Chunks(rows, ChunkSize)|;
    if n > 0 {
      assert (n - 1) * ChunkSize < |rows| <= n * ChunkSize;
    }
  }
}

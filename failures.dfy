/** Failure records kept by Resque's Redis failure backend, and the window of
    that log which `each(offset, limit, order)` yields, as pure functions. */
module Failures {

  /** A job argument as it comes back from the store: the tests use a string
      ("failure 3") and a number (3). */
  datatype Value = Str(s: string) | Int(i: int)

  /** The job descriptor of a failed job: its class and its arguments. */
  datatype Payload = Payload(className: string, args: Value)

  /** The exception that failed the job: its class name and its message. */
  datatype ErrorInfo = ErrorInfo(className: string, message: string)

  /** One stored failure. The worker and the queue are opaque names. */
  datatype FailureRecord = FailureRecord(
    exception: ErrorInfo,
    worker: string,
    queue: string,
    payload: Payload)

  /** The direction `each` walks its window in ('asc' or 'desc'). */
  datatype Order = Asc | Desc

  /** What `each` yields: an ordinal (the record's id) and the record. */
  type Entry = (nat, FailureRecord)

  function Min(a: nat, b: nat): (m: nat)
    ensures m <= a && m <= b && (m == a || m == b)
  {
    if a <= b then a else b
  }

  /** Ordinal `i` lies in the part of `[offset, offset + limit)` that exists
      in a log of `n` records. */
  predicate InWindow(i: int, n: nat, offset: nat, limit: nat) {
    offset <= i < offset + limit && i < n
  }

  /** How many records `each(offset, limit)` yields from a log of `n`: the
      limit is clipped to what is left, and an offset at or past the end
      yields nothing. */
  function PageSize(n: nat, offset: nat, limit: nat): (c: nat)
    ensures c <= limit && (c == 0 || offset + c <= n)
    ensures c < limit ==> c == 0 || offset + c == n
    ensures offset < n && 0 < limit ==> 0 < c
  {
    if offset < n then Min(limit, n - offset) else 0
  }

  /** The half-open range `[lo, hi)` of ordinals that `each` reads: the
      intersection of `[offset, offset + limit)` with `[0, n)`. */
  function Window(n: nat, offset: nat, limit: nat): (w: (nat, nat))
    ensures w.0 <= w.1 <= n
    ensures forall i :: w.0 <= i < w.1 <==> InWindow(i, n, offset, limit)
    ensures w.1 - w.0 == PageSize(n, offset, limit)
    ensures w.0 < w.1 ==> w.0 == offset
  {
    if offset < n then (offset, Min(offset + limit, n)) else (n, n)
  }

  /** Every record of the log tagged with its zero-based insertion ordinal. */
  function Entries(log: seq<FailureRecord>): (es: seq<Entry>)
    ensures |es| == |log|
    ensures forall i :: 0 <= i < |log| ==> es[i] == (i, log[i])
  {
    seq(|log|, i requires 0 <= i < |log| => (i, log[i]))
  }

  /** `s` back to front. */
  function Reverse<T>(s: seq<T>): (r: seq<T>)
    ensures |r| == |s|
    ensures forall k :: 0 <= k < |s| ==> r[k] == s[|s| - 1 - k]
  {
    if s == [] then [] else [s[|s| - 1]] + Reverse(s[..|s| - 1])
  }

  /** The pairs `each(offset, limit, nil, nil, order)` yields, in order: the
      window read in insertion order, reversed for 'desc'. */
  function Each(log: seq<FailureRecord>, offset: nat, limit: nat, order: Order): (r: seq<Entry>)
    ensures |r| == PageSize(|log|, offset, limit)
    ensures forall k :: 0 <= k < |r| ==> r[k].0 < |log| && r[k].1 == log[r[k].0]
  {
    var w := Window(|log|, offset, limit);
    var page := Entries(log)[w.0..w.1];
    if order == Asc then page else Reverse(page)
  }

  /** The ids of a sequence of yielded pairs, as the tests collect them. */
  function Ids(es: seq<Entry>): (ids: seq<nat>)
    ensures |ids| == |es|
    ensures forall k :: 0 <= k < |es| ==> ids[k] == es[k].0
  {
    seq(|es|, k requires 0 <= k < |es| => es[k].0)
  }

  // ---------------------------------------------------------------------
  // Which ordinals `each` yields, and in what order

  /** Ascending: the k-th pair is the record at ordinal `offset + k`. */
  lemma EachAscendingAt(log: seq<FailureRecord>, offset: nat, limit: nat, k: nat)
    requires k < |Each(log, offset, limit, Asc)|
    ensures Each(log, offset, limit, Asc)[k] == (offset + k, log[offset + k])
  {
    var w := Window(|log|, offset, limit);
    assert Each(log, offset, limit, Asc) == Entries(log)[w.0..w.1];
  }

  /** Descending: the k-th pair is the record at ordinal
      `offset + (count - 1 - k)`, so the last one is at `offset`. */
  lemma EachDescendingAt(log: seq<FailureRecord>, offset: nat, limit: nat, k: nat)
    requires k < |Each(log, offset, limit, Desc)|
    ensures var c := |Each(log, offset, limit, Desc)|;
            Each(log, offset, limit, Desc)[k] == (offset + c - 1 - k, log[offset + c - 1 - k])
  {
    var w := Window(|log|, offset, limit);
    var page := Entries(log)[w.0..w.1];
    assert Each(log, offset, limit, Desc) == Reverse(page);
    assert Reverse(page)[k] == page[|page| - 1 - k];
  }

  /** 'desc' yields exactly the pairs 'asc' yields for the same arguments,
      back to front: the offset counts from the oldest record in both. */
  lemma DescendingMirrorsAscending(log: seq<FailureRecord>, offset: nat, limit: nat)
    ensures var a, d := Each(log, offset, limit, Asc), Each(log, offset, limit, Desc);
            |d| == |a| && forall k :: 0 <= k < |a| ==> d[k] == a[|a| - 1 - k]
  {
    var a, d := Each(log, offset, limit, Asc), Each(log, offset, limit, Desc);
    forall k | 0 <= k < |a| ensures d[k] == a[|a| - 1 - k] {
      EachAscendingAt(log, offset, limit, |a| - 1 - k);
      EachDescendingAt(log, offset, limit, k);
    }
  }

  /** An id is yielded, in either order, exactly when it lies in the clipped
      window `[offset, min(offset + limit, N))`. */
  lemma EachYieldsExactlyWindow(log: seq<FailureRecord>, offset: nat, limit: nat, order: Order, id: nat)
    ensures id in Ids(Each(log, offset, limit, order)) <==> InWindow(id, |log|, offset, limit)
  {
    var r := Each(log, offset, limit, order);
    var ids := Ids(r);
    if id in ids {
      var k :| 0 <= k < |ids| && ids[k] == id;
      if order == Asc { EachAscendingAt(log, offset, limit, k); }
      else { EachDescendingAt(log, offset, limit, k); }
    }
    if InWindow(id, |log|, offset, limit) {
      var k: nat := if order == Asc then id - offset else offset + |r| - 1 - id;
      if order == Asc { EachAscendingAt(log, offset, limit, k); }
      else { EachDescendingAt(log, offset, limit, k); }
      assert ids[k] == id;
    }
  }

  /** 'asc' yields strictly increasing ids, 'desc' strictly decreasing ones. */
  lemma EachIdsMonotone(log: seq<FailureRecord>, offset: nat, limit: nat, i: nat, j: nat)
    requires i < j < PageSize(|log|, offset, limit)
    ensures Each(log, offset, limit, Asc)[i].0 < Each(log, offset, limit, Asc)[j].0
    ensures Each(log, offset, limit, Desc)[i].0 > Each(log, offset, limit, Desc)[j].0
  {
    EachAscendingAt(log, offset, limit, i);
    EachAscendingAt(log, offset, limit, j);
    EachDescendingAt(log, offset, limit, i);
    EachDescendingAt(log, offset, limit, j);
  }

  /** A limit of one yields the single record at `offset`, in either order. */
  lemma EachSingle(log: seq<FailureRecord>, offset: nat, order: Order)
    requires offset < |log|
    ensures Each(log, offset, 1, order) == [(offset, log[offset])]
  {
    if order == Asc { EachAscendingAt(log, offset, 1, 0); }
    else { EachDescendingAt(log, offset, 1, 0); }
  }

  /** A limit reaching past the end is clipped: 'desc' then starts with the
      newest record and ends with the one at `offset`. */
  lemma EachDescendingOversize(log: seq<FailureRecord>, offset: nat, limit: nat)
    requires offset < |log| <= offset + limit
    ensures var r := Each(log, offset, limit, Desc);
            |r| == |log| - offset &&
            r[0] == (|log| - 1, log[|log| - 1]) &&
            r[|r| - 1] == (offset, log[offset])
  {
    var r := Each(log, offset, limit, Desc);
    EachDescendingAt(log, offset, limit, 0);
    EachDescendingAt(log, offset, limit, |r| - 1);
  }

  /** An offset at or past the end yields nothing. (The tests do not reach
      this boundary.) */
  lemma EachPastEnd(log: seq<FailureRecord>, offset: nat, limit: nat, order: Order)
    requires |log| <= offset
    ensures Each(log, offset, limit, order) == []
  {
  }

  // ---------------------------------------------------------------------
  // Appending keeps every earlier answer

  /** Saving a record gives it the next ordinal and moves no earlier record. */
  lemma EntriesAppend(log: seq<FailureRecord>, rec: FailureRecord)
    ensures Entries(log + [rec]) == Entries(log) + [(|log|, rec)]
  {
    var lhs, rhs := Entries(log + [rec]), Entries(log) + [(|log|, rec)];
    assert |lhs| == |rhs|;
    forall i | 0 <= i < |lhs| ensures lhs[i] == rhs[i] {
      if i < |log| { assert (log + [rec])[i] == log[i]; }
    }
  }

  /** A window that lies wholly inside the log reads the same pairs after
      another record is saved: ordinals are immutable once assigned. */
  lemma EachStableUnderSave(log: seq<FailureRecord>, rec: FailureRecord, offset: nat, limit: nat, order: Order)
    requires offset + limit <= |log|
    ensures Each(log + [rec], offset, limit, order) == Each(log, offset, limit, order)
  {
    var w := Window(|log|, offset, limit);
    var w' := Window(|log| + 1, offset, limit);
    assert w == w' by {
      if offset < |log| {} else { assert limit == 0; }
    }
    EntriesAppend(log, rec);
    assert Entries(log + [rec])[w.0..w.1] == Entries(log)[w.0..w.1];
  }
}

/** The fixture both `.each` contexts build (five failures whose arguments
    are "failure 0" .. "failure 4") and the answers they expect of it. */
module Scenarios {
  import opened Failures
  import opened FailureStore

  /** The exception every fixture failure carries. */
  const FixtureError := ErrorInfo("StandardError", "error")
  /** The worker, an opaque name. */
  const FixtureWorker := "test"
  /** The queue every fixture failure was taken from. */
  const FixtureQueue := "queue"

  /** The character of one decimal digit. */
  function Digit(d: nat): (c: char)
    requires d < 10
    ensures '0' <= c <= '9' && c as int - '0' as int == d
  {
    "0123456789"[d]
  }

  /** The number a string of decimal digits stands for. */
  function DecimalValue(s: string): nat
    requires forall k :: 0 <= k < |s| ==> '0' <= s[k] <= '9'
  {
    if s == [] then 0
    else 10 * DecimalValue(s[..|s| - 1]) + (s[|s| - 1] as int - '0' as int)
  }

  /** `n` written in decimal, as Ruby's string interpolation writes it: one
      or more digits, one exactly when `n < 10`, that read back as `n`. */
  function Decimal(n: nat): (s: string)
    ensures 1 <= |s|
    ensures n < 10 <==> |s| == 1
    ensures forall k :: 0 <= k < |s| ==> '0' <= s[k] <= '9'
    ensures DecimalValue(s) == n
    decreases n
  {
    if n < 10 then [Digit(n)] else Decimal(n / 10) + [Digit(n % 10)]
  }

  /** The arguments of the n-th fixture failure: "failure #{n}". */
  function FixtureArgs(n: nat): (v: Value)
    ensures v.Str? && |v.s| > |"failure "| && v.s[..|"failure "|] == "failure "
  {
    Str("failure " + Decimal(n))
  }

  /** The arguments of a fixture failure name its ordinal unambiguously. */
  lemma FixtureArgsIdentifyOrdinal(i: nat, j: nat)
    ensures FixtureArgs(i) == FixtureArgs(j) <==> i == j
  {
    if FixtureArgs(i) == FixtureArgs(j) {
      var p := "failure ";
      assert Decimal(i) == (p + Decimal(i))[|p|..] == (p + Decimal(j))[|p|..] == Decimal(j);
      assert i == DecimalValue(Decimal(i)) == DecimalValue(Decimal(j)) == j;
    }
  }

  /** The n-th failure the fixture saves. */
  function FixtureFailure(n: nat): (r: FailureRecord)
    ensures r.payload.args == FixtureArgs(n)
  {
    FailureRecord(FixtureError, FixtureWorker, FixtureQueue, Payload("Object", FixtureArgs(n)))
  }

  /** The list after the fixture saved `count` failures into an empty store. */
  function Fixture(count: nat): (log: seq<FailureRecord>)
    ensures |log| == count
    ensures forall k :: 0 <= k < count ==> log[k].payload.args == FixtureArgs(k)
  {
    seq(count, k requires 0 <= k < count => FixtureFailure(k))
  }

  /** The setup block: flush the store, then save `count` failures numbered
      from 0 in a loop. */
  method SeedFailures(log: FailureLog, count: nat)
    modifies log
    ensures log.items == Fixture(count)
  {
    log.Flush();
    var n := 0;
    while n < count
      invariant 0 <= n <= count
      invariant log.items == Fixture(n)
    {
      log.Save(FixtureFailure(n));
      assert Fixture(n + 1) == Fixture(n) + [FixtureFailure(n)];
      n := n + 1;
    }
  }

  /** Every pair `each` yields from the fixture carries the arguments
      "failure k" of its own id k, in either order. */
  lemma FixturePairsConsistent(count: nat, offset: nat, limit: nat, order: Order, k: nat)
    requires k < |Each(Fixture(count), offset, limit, order)|
    ensures var e := Each(Fixture(count), offset, limit, order)[k];
            e.1.payload.args == FixtureArgs(e.0)
  {
  }

  /** Reading the args of a pair yielded from the fixture tells its id: an
      item whose `['payload']['args']` is "failure j" was yielded with id j.
      This is how the tests' args checks confirm which record came back. */
  lemma FixtureIdFromArgs(count: nat, offset: nat, limit: nat, order: Order, k: nat, j: nat)
    requires k < |Each(Fixture(count), offset, limit, order)|
    ensures var e := Each(Fixture(count), offset, limit, order)[k];
            e.1.payload.args == FixtureArgs(j) <==> e.0 == j
  {
    var e := Each(Fixture(count), offset, limit, order)[k];
    FixturePairsConsistent(count, offset, limit, order, k);
    FixtureArgsIdentifyOrdinal(e.0, j);
  }

  /** The ids yielded by 'asc' are `offset, offset + 1, ...`. */
  lemma AscendingIds(log: seq<FailureRecord>, offset: nat, limit: nat)
    ensures var c := PageSize(|log|, offset, limit);
            Ids(Each(log, offset, limit, Asc)) == seq(c, k requires 0 <= k < c => offset + k)
  {
    var c := PageSize(|log|, offset, limit);
    forall k | 0 <= k < c ensures Ids(Each(log, offset, limit, Asc))[k] == offset + k {
      EachAscendingAt(log, offset, limit, k);
    }
  }

  /** The ids yielded by 'desc' are `..., offset + 1, offset`. */
  lemma DescendingIds(log: seq<FailureRecord>, offset: nat, limit: nat)
    ensures var c := PageSize(|log|, offset, limit);
            Ids(Each(log, offset, limit, Desc)) == seq(c, k requires 0 <= k < c => offset + c - 1 - k)
  {
    var c := PageSize(|log|, offset, limit);
    forall k | 0 <= k < c ensures Ids(Each(log, offset, limit, Desc))[k] == offset + c - 1 - k {
      EachDescendingAt(log, offset, limit, k);
    }
  }

  /** The 'order ASC' context. */
  lemma AscendingContext()
    ensures Ids(Each(Fixture(5), 0, 20, Asc)) == [0, 1, 2, 3, 4]
    ensures Ids(Each(Fixture(5), 0, 3, Asc)) == [0, 1, 2]
    ensures Ids(Each(Fixture(5), 1, 3, Asc)) == [1, 2, 3]
    ensures Ids(Each(Fixture(5), 2, 20, Asc)) == [2, 3, 4]
    ensures Ids(Each(Fixture(5), 0, 1, Asc)) == [0]
    ensures Each(Fixture(5), 0, 1, Asc)[0].1.payload.args == Str("failure 0")
    ensures Ids(Each(Fixture(5), 2, 1, Asc)) == [2]
    ensures Each(Fixture(5), 2, 1, Asc)[0].1.payload.args == Str("failure 2")
  {
    var log := Fixture(5);
    AscendingIds(log, 0, 20);
    AscendingIds(log, 0, 3);
    AscendingIds(log, 1, 3);
    AscendingIds(log, 2, 20);
    EachSingle(log, 0, Asc);
    EachSingle(log, 2, Asc);
  }

  /** The 'order desc' context. */
  lemma DescendingContext()
    ensures Ids(Each(Fixture(5), 0, 20, Desc)) == [4, 3, 2, 1, 0]
    ensures Ids(Each(Fixture(5), 0, 3, Desc)) == [2, 1, 0]
    ensures Ids(Each(Fixture(5), 2, 3, Desc)) == [4, 3, 2]
    ensures Ids(Each(Fixture(5), 2, 20, Desc)) == [4, 3, 2]
    ensures Ids(Each(Fixture(5), 4, 1, Desc)) == [4]
    ensures Each(Fixture(5), 4, 1, Desc)[0].1.payload.args == Str("failure 4")
    ensures Ids(Each(Fixture(5), 2, 1, Desc)) == [2]
    ensures Each(Fixture(5), 2, 1, Desc)[0].1.payload.args == Str("failure 2")
    ensures var r := Each(Fixture(5), 3, 20, Desc);
            Ids(r) == [4, 3] &&
            r[0].1.payload.args == Str("failure 4") &&
            r[|r| - 1].1.payload.args == Str("failure 3")
  {
    var log := Fixture(5);
    DescendingIds(log, 0, 20);
    DescendingIds(log, 0, 3);
    DescendingIds(log, 2, 3);
    DescendingIds(log, 2, 20);
    DescendingIds(log, 3, 20);
    EachSingle(log, 4, Desc);
    EachSingle(log, 2, Desc);
    EachDescendingOversize(log, 3, 20);
  }
}

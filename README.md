# Resque failure log on Redis, modelled in Dafny

Resque records every failed job through `Resque::Failure::Redis`. The backend
keeps the failures in a single list. `save` pushes a failure onto the tail, so
a record's id is its zero-based insertion ordinal. `each(offset, limit, _, _,
order)` yields `(id, item)` pairs for a window of that list.

The window is the ordinals `offset .. min(offset + limit, N) - 1`. A limit
larger than what is left is clipped, never padded, and never an error. With
`'asc'` the window comes out oldest first. With `'desc'` the same window comes
out newest first. The offset always counts from the oldest record: with five
failures, `each(0, 3, 'desc')` gives ids `[2, 1, 0]`, not the three newest.

- `failures.dfy` (module `Failures`): the record values and the window
  arithmetic. `Each` is the pure specification of what `each` yields. The
  lemmas state which ids `each` yields, in what order, and with which
  records.
- `store.dfy` (module `FailureStore`): the list as a class `FailureLog` with
  one `seq` field. `Save` appends to it and `Flush` empties it.
  `FailureLog.Each` does one range read, then walks it in a loop, front to
  back for `'asc'` and back to front for `'desc'`, pairing each item with its
  id. It is proved equal to `Failures.Each`.
  It has no `modifies` clause, so iterating never changes the list.
- `scenarios.dfy` (module `Scenarios`): the test setup, which flushes the
  store and then saves "failure 0" .. "failure 4" in a loop. It also holds
  every concrete expectation of the `'order ASC'` and `'order desc'`
  contexts, proved from the general lemmas. As an aid to the fixture it
  models Ruby's `"failure #{n}"` interpolation: `Decimal` writes `n` in
  decimal digits that read back as `n`. So the args "failure j" identify id
  j, which is what the tests' args checks rely on.

## Model

| member | source | states |
|---|---|---|
| `Failures.Window` | test/resque_failure_redis_test.rb:36-63 | the ordinals read are exactly the intersection of `[offset, offset+limit)` with `[0, N)`; their number is `min(limit, N - offset)` (0 when `offset >= N`, a boundary no test reaches); a non-empty window starts at `offset` |
| `Failures.Entries` | test/resque_failure_redis_test.rb:29-33 | each stored record is paired with its zero-based insertion ordinal |
| `Failures.Each` | test/resque_failure_redis_test.rb:36-156 | `each` yields `min(limit, N - offset)` pairs in either order (0 for an offset at or past the end, which no test reaches); every pair `(k, item)` has `item` equal to the record stored at ordinal `k` |
| `Failures.EachAscendingAt` | test/resque_failure_redis_test.rb:36-63 | in `'asc'` order the k-th pair yielded is `(offset + k, record offset + k)` |
| `Failures.EachDescendingAt` | test/resque_failure_redis_test.rb:98-125 | in `'desc'` order the k-th of `c` pairs is `(offset + c - 1 - k, that record)`, so the offset counts from the oldest record |
| `Failures.DescendingMirrorsAscending` | test/resque_failure_redis_test.rb:105-118 | `'desc'` yields exactly the pairs `'asc'` yields for the same offset and limit, in reverse |
| `Failures.EachYieldsExactlyWindow` | test/resque_failure_redis_test.rb:36-125 | in either order, an id is yielded if and only if `offset <= id < offset + limit` and `id < N` |
| `Failures.EachIdsMonotone` | test/resque_failure_redis_test.rb:36-104 | `'asc'` ids strictly increase and `'desc'` ids strictly decrease |
| `Failures.EachSingle` | test/resque_failure_redis_test.rb:64-145 | a limit of 1 yields exactly `[(offset, record offset)]`, in either order |
| `Failures.EachDescendingOversize` | test/resque_failure_redis_test.rb:146-156 | with `offset < N <= offset + limit`, `'desc'` yields `N - offset` pairs; the first is the newest record and the last is the record at `offset` |
| `Failures.EachPastEnd` | test/resque_failure_redis_test.rb:57-63 | carries the clipping of lines 57-63 on to an offset at or beyond `N`: nothing is yielded, in either order, instead of an error (the model's own choice; see "Left out") |
| `Failures.EntriesAppend` | test/resque_failure_redis_test.rb:29-33 | saving a record gives it ordinal `N` and leaves every earlier ordinal/record pair unchanged |
| `Failures.EachStableUnderSave` | test/resque_failure_redis_test.rb:29-41 | a window wholly inside the list yields the same pairs after a further save |
| `FailureStore.FailureLog.constructor` | test/resque_failure_redis_test.rb:25 | a new store holds no failures |
| `FailureStore.FailureLog.Flush` | test/resque_failure_redis_test.rb:25 | `flushall` leaves the list empty |
| `FailureStore.FailureLog.Save` | test/resque_failure_redis_test.rb:31 | `save` appends the record at the tail: the new list is the old one followed by the record, so the record takes ordinal `N` and earlier records keep theirs |
| `FailureStore.FailureLog.Each` | test/resque_failure_redis_test.rb:38-40 | the pairs the block receives, in order, are exactly `Failures.Each(items, offset, limit, order)`, and the list is not modified |
| `Scenarios.Decimal` | test/resque_failure_redis_test.rb:31 | `#{n}` renders `n` as one or more decimal digits, with a single digit exactly when `n < 10`, whose decimal value is `n` |
| `Scenarios.FixtureArgsIdentifyOrdinal` | test/resque_failure_redis_test.rb:72 | the args "failure i" and "failure j" are equal if and only if `i == j`, so checking an item's args pins down its ordinal |
| `Scenarios.Fixture` | test/resque_failure_redis_test.rb:29-33 | after `count` saves the list has length `count`, and record k has args "failure k" |
| `Scenarios.SeedFailures` | test/resque_failure_redis_test.rb:24-34 | the setup (flush, then save "failure 0" .. "failure count-1" in a loop) leaves the list equal to `Fixture(count)` |
| `Scenarios.FixturePairsConsistent` | test/resque_failure_redis_test.rb:64-83 | in either order, every pair yielded from the fixture carries the args "failure k" of its own id k |
| `Scenarios.FixtureIdFromArgs` | test/resque_failure_redis_test.rb:64-83 | in either order, a pair yielded from the fixture has args "failure j" if and only if its id is j |
| `Scenarios.AscendingIds` | test/resque_failure_redis_test.rb:36-56 | `'asc'` yields the ids `offset, offset+1, …` for `min(limit, N - offset)` steps |
| `Scenarios.DescendingIds` | test/resque_failure_redis_test.rb:98-118 | `'desc'` yields the same ids from `offset + c - 1` down to `offset` |
| `Scenarios.AscendingContext` | test/resque_failure_redis_test.rb:23-84 | every expectation of the `'order ASC'` context on five failures: `[0..4]`, `[0,1,2]`, `[1,2,3]`, `[2,3,4]`, `[0]` with "failure 0", `[2]` with "failure 2" |
| `Scenarios.DescendingContext` | test/resque_failure_redis_test.rb:86-157 | every expectation of the `'order desc'` context: `[4,3,2,1,0]`, `[2,1,0]`, `[4,3,2]` twice, `[4]` with "failure 4", `[2]` with "failure 2", `[4,3]` starting with "failure 4" and ending with "failure 3" |

## Left out

- The Redis client and its wire protocol: the list is an in-memory `seq`. Store errors and concurrent appends from several workers are not modelled.
- Sanitising exception messages and the JSON round trip, with the bad-string test built on them (test/resque_failure_redis_test.rb:5-18). The code that sanitises is not part of this model, and the test only checks that `all` does not raise. Records are therefore stored and returned as given.
- `Resque::Failure::Redis.all`. Only the bad-string test calls it (line 17). No test line asks for a failure count.
- The `failed_at` timestamp and the backtrace of a stored failure. The tests never read them, and the clock is an input this model does not have.
- The third and fourth arguments of `each`. The tests always pass `nil`, so the model has no parameters for them.
- `each`'s default values for offset, limit and order. Every test passes all five arguments, so the model takes all three explicitly and has no defaults.
- `Failures.EachPastEnd`: no test calls `each` with an offset at or past `N`. The empty result there is the model's own choice. `Failures.Window`, `Failures.PageSize` and `Failures.Each` follow the same choice.
- Negative offsets and limits: `offset` and `limit` are `nat`. Redis's own meaning for negative range indices is not part of this model. A limit of 0 gives an empty window.
- The exception, the worker and the job class are opaque collaborators. They are kept as names (strings) in the record.

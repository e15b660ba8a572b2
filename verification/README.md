# Transactional in-memory key-value store

A Dafny model of `InMemoryKeyValueDatabase`. This is a single-writer key-value store with at
most one open, non-nested transaction. The store holds a committed map and an optional pending
map. It is Idle when there is no pending map and InTransaction when there is one. It has five
operations:

- `begin_transaction` opens an empty transaction.
- `put` stages a write in the open transaction.
- `get` reads, with the transaction's own writes shadowing committed values.
- `commit` merges the pending writes into the committed map, with the pending value winning.
- `rollback` discards the pending writes.

`begin_transaction` while a transaction is open raises "already in progress". `put`, `commit`
and `rollback` while Idle raise "no transaction in progress".

Files:

- `wrappers.dfy` (module `Wrappers`): `Option` and `Result`.
- `store.dfy` (module `KeyValueStore`): the `Store` datatype and the five operations as pure
  transitions. A refusable transition returns `Result<Store, Error>`. `Get` returns `Option<V>`.
- `session.dfy` (module `Session`): the store as the object a caller holds. `Apply` performs one
  call. A refused call leaves the object exactly as it was, the way a caught exception does.
  `Final` and `Replies` run a sequence of calls. The lemmas describe whole transactions: begin,
  a batch of puts, then commit or rollback.
- `example.dfy` (module `Example`): the usage script at the end of the source file, as one
  concrete session.

The usage script's comment at `DataProcessing.py:50-51` says a read inside the open transaction
returns nothing before commit. The code does not do that: `get` looks in the transaction first,
so that read returns 5. The model follows the code. `Example.CommittedReplies` and
`Example.ScriptReplies` prove `Value(Some(5))` at that step.

## Model

| member | source | states |
|---|---|---|
| KeyValueStore.Init | DataProcessing.py:2-4 | A new store is Idle, and every key reads as not found. |
| KeyValueStore.Begin | DataProcessing.py:6-9 | Succeeds exactly when Idle; otherwise fails with AlreadyInProgress. On success the store is InTransaction with nothing staged, the committed map is unchanged, and every read answers as before. |
| KeyValueStore.Put | DataProcessing.py:11-14 | Succeeds exactly when InTransaction; otherwise fails with NoTransaction. On success the transaction stays open and the committed map is untouched. The written key reads back as the new value (read-your-own-writes). The staged keys grow by exactly that key, and every other key reads as before. |
| KeyValueStore.Get | DataProcessing.py:16-19 | A key staged in the open transaction reads as its staged value. Any other key reads as its committed value, or not found. The result is not found exactly when the key is in neither map. |
| KeyValueStore.Commit | DataProcessing.py:21-25 | Succeeds exactly when InTransaction; otherwise fails with NoTransaction. On success the store is Idle. The new committed keys are the old keys plus the staged keys. Staged keys take their staged values, unstaged keys keep their committed values, and every read answers as it did just before the commit. |
| KeyValueStore.Rollback | DataProcessing.py:27-30 | Succeeds exactly when InTransaction; otherwise fails with NoTransaction. On success the store is Idle with the committed map unchanged, and every key reads as its committed value. |
| KeyValueStore.GetReadsVisible | DataProcessing.py:16-19 | A read is a lookup in the committed map overridden by the pending map. |
| KeyValueStore.PutLastWriteWins | DataProcessing.py:14 | Two puts to one key leave the same store as the second put alone. |
| KeyValueStore.PutsToDistinctKeysCommute | DataProcessing.py:14 | Puts to different keys can be swapped without changing the store. |
| KeyValueStore.EmptyCommitIsIdentity | DataProcessing.py:6-25 | Beginning (lines 6-9) and then committing (lines 21-25) with no writes gives back the original Idle store. |
| KeyValueStore.IdleStoresEqualByReads | DataProcessing.py:16-19 | Two Idle stores that answer every read alike are equal, so reads fully observe an Idle store. |
| Session.Apply | DataProcessing.py:6-30 | A call raises exactly when the state table refuses it, with the table's error. A raising call leaves the store unchanged, and `get` never raises or changes the store (for the keys the model admits; see Left out). Only a commit changes the committed map. Only a begin leaves Idle. Only a commit or rollback returns to Idle. |
| Session.Final | DataProcessing.py:6-30 | A run of calls without a commit leaves the committed map unchanged. A run from Idle without a begin ends Idle. |
| Session.StagedWrites | DataProcessing.py:11-19 | After a batch of puts inside a transaction, the transaction is still open and the committed map is unchanged. Each key reads as its last write in the batch, or as before when the batch did not write it. |
| Session.TransactionCommits | DataProcessing.py:6-25 | begin; puts; commit from Idle returns to Idle. Each key then reads as its last write in the transaction, or as before the transaction when not written. |
| Session.TransactionRollsBack | DataProcessing.py:6-30 | begin; puts; rollback from Idle gives back exactly the store snapshot taken before begin. |
| Session.TransactionNeverRaises | DataProcessing.py:6-30 | Every call of begin; puts; commit-or-rollback started from Idle succeeds. |
| Session.UnwrittenKeyUnchanged | DataProcessing.py:1-30 | In any session, whatever mix of begins, commits, rollbacks, reads and refused calls it makes, a key that no call puts is never staged and reads at the end as it did at the start. |
| Session.NeverWrittenNotFound | DataProcessing.py:2-19 | On a fresh store, a key that no call of a session puts reads as not found at the end of the session. |
| Session.ReplyFollowsPrefix | DataProcessing.py:1-30 | The i-th reply of a session is the answer of the i-th call on the store the earlier calls left. |
| Example.OutsideReplies | DataProcessing.py:33-42 | On a fresh store, reading A gives not found and a put without a transaction raises NoTransaction. Neither call changes the store. |
| Example.CommittedReplies | DataProcessing.py:44-60 | begin; put A 5; get A; put A 6; commit; get A gives Done, Done, Some(5), Done, Done, Some(6), and leaves A = 6 committed. |
| Example.MisuseReplies | DataProcessing.py:62-75 | commit and rollback with no open transaction both raise NoTransaction and leave the store unchanged, and B reads as not found. |
| Example.RolledBackReplies | DataProcessing.py:77-87 | begin; put B 10; rollback; get B succeeds throughout, B reads as not found, and the store is as before. |
| Example.ScriptFinal | DataProcessing.py:32-87 | The whole script leaves A = 6 committed and no transaction open. |
| Example.ScriptReplies | DataProcessing.py:32-87 | The whole script's replies, call by call, including Some(5) for the read inside the first transaction. |

## Left out

- Console output: the usage script's `print` calls and `try`/`except` blocks are not modelled as I/O. The script becomes the session in `example.dfy`, where a caught exception is a `Raised` reply.
- Exception messages: the two `Exception` strings become the enum values `AlreadyInProgress` and `NoTransaction`.
- `None` as "not found": `get` returns `Option<V>`. In the source, a stored `None` and a missing key both return `None`. The model keeps them distinct.
- Dynamic typing: keys and values are the type parameters `K` and `V`.
- Unhashable keys: in the source, an unhashable key such as a list makes `put` raise `TypeError` at `DataProcessing.py:14`. It also makes `get` raise, at line 17 when a transaction is open and at line 19 when Idle. The model has no such error. Its key type is restricted to values without references (`K(!new)`). This excludes unhashable keys, and it also excludes objects that hash by identity, which are legal keys in the source.
- Object identity and mutation: the store is an immutable value. Each call yields the next value rather than mutating `self`.
- Concurrency: the source has none, and none is modelled.

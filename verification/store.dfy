/** The transactional key-value store: a committed map plus at most one pending transaction.

    The store is Idle when `pending` is `None` and InTransaction when it holds a map of the
    transaction's uncommitted writes. Because the pending slot is a single `Option`, two
    simultaneous transactions cannot be represented at all. Every transition that the store
    may refuse returns a `Result`; a refused call yields no new store, so the caller keeps the
    one it had. */
module KeyValueStore {
  import opened Wrappers

  /** The two ways a call can be refused: both are illegal state transitions. */
  datatype Error = AlreadyInProgress | NoTransaction

  datatype Store<K, V> = Store(committed: map<K, V>, pending: Option<map<K, V>>) {

    predicate Idle() {
      pending.None?
    }

    predicate InTransaction() {
      pending.Some?
    }

    /** True when the open transaction has written `key`. */
    predicate Staged(key: K) {
      pending.Some? && key in pending.value
    }
  }

  /** Dictionary lookup with an explicit "not found". */
  function Lookup<K, V>(m: map<K, V>, key: K): Option<V> {
    if key in m then Some(m[key]) else None
  }

  /** What a reader sees: the committed map overridden by the open transaction's writes. */
  function Visible<K, V>(s: Store<K, V>): map<K, V> {
    match s.pending
    case None => s.committed
    case Some(p) => s.committed + p
  }

  /** A fresh store: no data and no transaction, so every key reads as not found. */
  function Init<K(!new), V>(): (s: Store<K, V>)
    ensures s.Idle()
    ensures forall key :: Get(s, key) == None
  {
    Store(map[], None)
  }

  /** Opens a transaction with no writes; refused while one is already open. */
  function Begin<K(!new), V>(s: Store<K, V>): (r: Result<Store<K, V>, Error>)
    ensures r.Success? <==> s.Idle()
    ensures r.Failure? ==> r.error == AlreadyInProgress
    ensures r.Success? ==> r.value.InTransaction() && r.value.committed == s.committed
    ensures r.Success? ==> forall key :: !r.value.Staged(key)
    ensures r.Success? ==> forall key :: Get(r.value, key) == Get(s, key)
  {
    if s.pending.Some? then Failure(AlreadyInProgress)
    else Success(Store(s.committed, Some(map[])))
  }

  /** Stages `key := value` in the open transaction; refused when no transaction is open. */
  function Put<K(!new), V>(s: Store<K, V>, key: K, value: V): (r: Result<Store<K, V>, Error>)
    ensures r.Success? <==> s.InTransaction()
    ensures r.Failure? ==> r.error == NoTransaction
    ensures r.Success? ==> r.value.InTransaction() && r.value.committed == s.committed
    ensures r.Success? ==> Get(r.value, key) == Some(value)
    ensures r.Success? ==> forall k :: r.value.Staged(k) <==> k == key || s.Staged(k)
    ensures r.Success? ==> forall k :: k != key ==> Get(r.value, k) == Get(s, k)
  {
    match s.pending
    case None => Failure(NoTransaction)
    case Some(p) => Success(Store(s.committed, Some(p[key := value])))
  }

  /** Reads `key`: the transaction's own write shadows the committed value. Never refused. */
  function Get<K, V>(s: Store<K, V>, key: K): (r: Option<V>)
    ensures s.Staged(key) ==> r == Some(s.pending.value[key])
    ensures !s.Staged(key) ==> r == Lookup(s.committed, key)
    ensures r.None? <==> key !in Visible(s)
  {
    if s.pending.Some? && key in s.pending.value then Some(s.pending.value[key])
    else Lookup(s.committed, key)
  }

  /** Merges the open transaction into the committed map (its writes win) and closes it. */
  function Commit<K(!new), V>(s: Store<K, V>): (r: Result<Store<K, V>, Error>)
    ensures r.Success? <==> s.InTransaction()
    ensures r.Failure? ==> r.error == NoTransaction
    ensures r.Success? ==> r.value.Idle()
    ensures r.Success? ==> r.value.committed.Keys == s.committed.Keys + s.pending.value.Keys
    ensures r.Success? ==> forall k :: k in s.pending.value ==> r.value.committed[k] == s.pending.value[k]
    ensures r.Success? ==> forall k :: k in s.committed && k !in s.pending.value ==> r.value.committed[k] == s.committed[k]
    ensures r.Success? ==> forall k :: Get(r.value, k) == Get(s, k)
  {
    match s.pending
    case None => Failure(NoTransaction)
    case Some(p) => Success(Store(s.committed + p, None))
  }

  /** Discards the open transaction without applying it. */
  function Rollback<K(!new), V>(s: Store<K, V>): (r: Result<Store<K, V>, Error>)
    ensures r.Success? <==> s.InTransaction()
    ensures r.Failure? ==> r.error == NoTransaction
    ensures r.Success? ==> r.value.Idle() && r.value.committed == s.committed
    ensures r.Success? ==> forall k :: Get(r.value, k) == Lookup(s.committed, k)
  {
    match s.pending
    case None => Failure(NoTransaction)
    case Some(_) => Success(Store(s.committed, None))
  }

  /** Get answers from the merged view, so a read never needs to know how the view was built. */
  lemma GetReadsVisible<K(!new), V>(s: Store<K, V>, key: K)
    ensures Get(s, key) == Lookup(Visible(s), key)
  {
  }

  /** Two puts to one key leave the same store as the last put alone. */
  lemma PutLastWriteWins<K(!new), V>(s: Store<K, V>, key: K, v1: V, v2: V)
    requires s.InTransaction()
    ensures Put(Put(s, key, v1).value, key, v2) == Put(s, key, v2)
  {
    assert s.pending.value[key := v1][key := v2] == s.pending.value[key := v2];
  }

  /** Puts to distinct keys commute. */
  lemma PutsToDistinctKeysCommute<K(!new), V>(s: Store<K, V>, k1: K, v1: V, k2: K, v2: V)
    requires s.InTransaction() && k1 != k2
    ensures Put(Put(s, k1, v1).value, k2, v2) == Put(Put(s, k2, v2).value, k1, v1)
  {
    assert s.pending.value[k1 := v1][k2 := v2] == s.pending.value[k2 := v2][k1 := v1];
  }

  /** Committing a transaction nobody wrote to leaves the committed map as it was. */
  lemma EmptyCommitIsIdentity<K(!new), V>(s: Store<K, V>)
    requires s.Idle()
    ensures Commit(Begin(s).value) == Success(s)
  {
    assert s.committed + map[] == s.committed;
  }

  /** Idle stores that answer every read alike are the same store. */
  lemma IdleStoresEqualByReads<K(!new), V>(a: Store<K, V>, b: Store<K, V>)
    requires a.Idle() && b.Idle()
    requires forall k :: Get(a, k) == Get(b, k)
    ensures a == b
  {
    forall k
      ensures k in a.committed <==> k in b.committed
    {
      assert Get(a, k) == Get(b, k);
    }
    forall k | k in a.committed
      ensures a.committed[k] == b.committed[k]
    {
      assert Get(a, k) == Get(b, k);
    }
  }
}

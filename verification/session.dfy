/** A client's session with the store: a sequence of calls, each answered in turn.

    This is the store seen as the object a caller holds. A call in the wrong state raises,
    the caller catches it, and the object is exactly as it was before the call; a successful
    call replaces the state. The lemmas here relate whole transactions (a begin, some puts,
    and a commit or rollback) to simple reference descriptions of their effect. */
module Session {
  import opened Wrappers
  import opened KeyValueStore

  /** The five calls a client can make. */
  datatype Op<K, V> = BeginOp | PutOp(key: K, value: V) | GetOp(key: K) | CommitOp | RollbackOp

  /** What a call returns: nothing, the value read, or the error it raised. */
  datatype Reply<V> = Done | Value(found: Option<V>) | Raised(error: Error)

  datatype Transition<K, V> = Transition(store: Store<K, V>, reply: Reply<V>)

  /** The state table of the store: the error a call is refused with in state `s`,
      or `None` when `s` allows the call. */
  function Refusal<K, V>(s: Store<K, V>, op: Op<K, V>): Option<Error> {
    match op
    case BeginOp => if s.InTransaction() then Some(AlreadyInProgress) else None
    case GetOp(_) => None
    case _ => if s.Idle() then Some(NoTransaction) else None
  }

  /** A refusable call as the caller experiences it: a refusal leaves the object untouched. */
  function Settle<K, V>(s: Store<K, V>, r: Result<Store<K, V>, Error>): Transition<K, V> {
    match r
    case Success(t) => Transition(t, Done)
    case Failure(e) => Transition(s, Raised(e))
  }

  /** Performs one call on the store. */
  function Apply<K(!new), V>(s: Store<K, V>, op: Op<K, V>): (t: Transition<K, V>)
    ensures t.reply.Raised? <==> Refusal(s, op).Some?
    ensures t.reply.Raised? ==> t.reply.error == Refusal(s, op).value && t.store == s
    ensures op.GetOp? ==> t.store == s && t.reply == Value(Get(s, op.key))
    ensures !op.GetOp? && !t.reply.Raised? ==> t.reply == Done
    ensures t.store.committed != s.committed ==> op.CommitOp?
    ensures s.Idle() && t.store.InTransaction() ==> op.BeginOp?
    ensures s.InTransaction() && t.store.Idle() ==> op.CommitOp? || op.RollbackOp?
  {
    match op
    case BeginOp => Settle(s, Begin(s))
    case PutOp(k, v) => Settle(s, Put(s, k, v))
    case GetOp(k) => Transition(s, Value(Get(s, k)))
    case CommitOp => Settle(s, Commit(s))
    case RollbackOp => Settle(s, Rollback(s))
  }

  /** The store after performing `ops` in order, starting from `s`. */
  function Final<K(!new), V>(s: Store<K, V>, ops: seq<Op<K, V>>): (t: Store<K, V>)
    ensures (forall i :: 0 <= i < |ops| ==> !ops[i].CommitOp?) ==> t.committed == s.committed
    ensures s.Idle() && (forall i :: 0 <= i < |ops| ==> !ops[i].BeginOp?) ==> t.Idle()
    decreases |ops|
  {
    if |ops| == 0 then s
    else
      assert forall i :: 0 <= i < |ops| - 1 ==> ops[1..][i] == ops[i + 1];
      Final(Apply(s, ops[0]).store, ops[1..])
  }

  /** The replies to `ops`, one per call, in order. */
  function Replies<K(!new), V>(s: Store<K, V>, ops: seq<Op<K, V>>): (r: seq<Reply<V>>)
    ensures |r| == |ops|
    decreases |ops|
  {
    if |ops| == 0 then []
    else
      var t := Apply(s, ops[0]);
      [t.reply] + Replies(t.store, ops[1..])
  }

  /** Running `a` and then `b` is running `a + b`. */
  lemma {:induction false} FinalAppend<K(!new), V>(s: Store<K, V>, a: seq<Op<K, V>>, b: seq<Op<K, V>>)
    ensures Final(s, a + b) == Final(Final(s, a), b)
    decreases |a|
  {
    if |a| == 0 {
      assert a + b == b;
    } else {
      assert (a + b)[1..] == a[1..] + b;
      FinalAppend(Apply(s, a[0]).store, a[1..], b);
    }
  }

  /** The replies to `a + b` are the replies to `a`, then those of `b` on the store `a` leaves. */
  lemma {:induction false} RepliesAppend<K(!new), V>(s: Store<K, V>, a: seq<Op<K, V>>, b: seq<Op<K, V>>)
    ensures Replies(s, a + b) == Replies(s, a) + Replies(Final(s, a), b)
    decreases |a|
  {
    if |a| == 0 {
      assert a + b == b;
    } else {
      assert (a + b)[1..] == a[1..] + b;
      RepliesAppend(Apply(s, a[0]).store, a[1..], b);
    }
  }

  /** Each reply is the answer of its call to the store left by the calls before it. */
  lemma {:induction false} ReplyFollowsPrefix<K(!new), V>(s: Store<K, V>, ops: seq<Op<K, V>>, i: nat)
    requires i < |ops|
    ensures Replies(s, ops)[i] == Apply(Final(s, ops[..i]), ops[i]).reply
    decreases i
  {
    if i > 0 {
      ReplyFollowsPrefix(Apply(s, ops[0]).store, ops[1..], i - 1);
      assert ops[..i][1..] == ops[1..][..i - 1];
    }
  }

  /** The calls that stage `writes`, in order. */
  function PutOps<K, V>(writes: seq<(K, V)>): seq<Op<K, V>> {
    seq(|writes|, i requires 0 <= i < |writes| => PutOp(writes[i].0, writes[i].1))
  }

  /** Reference description of a batch of writes: the value of the last write to `key`, if any. */
  function LastWrite<K(==), V>(writes: seq<(K, V)>, key: K): Option<V>
    decreases |writes|
  {
    if |writes| == 0 then None
    else if writes[|writes| - 1].0 == key then Some(writes[|writes| - 1].1)
    else LastWrite(writes[..|writes| - 1], key)
  }

  /** A read that sees `writes` on top of what `before` already answered. */
  function ReadThrough<V>(last: Option<V>, before: Option<V>): Option<V> {
    if last.Some? then last else before
  }

  /** Staging a batch of writes keeps the transaction open, leaves the committed map alone,
      and makes each key read as its last write (or as before, when it was not written). */
  lemma {:induction false} StagedWrites<K(!new), V>(s: Store<K, V>, writes: seq<(K, V)>)
    requires s.InTransaction()
    ensures Final(s, PutOps(writes)).InTransaction()
    ensures Final(s, PutOps(writes)).committed == s.committed
    ensures forall k :: Get(Final(s, PutOps(writes)), k) == ReadThrough(LastWrite(writes, k), Get(s, k))
    decreases |writes|
  {
    if |writes| > 0 {
      var n := |writes| - 1;
      var init := writes[..n];
      StagedWrites(s, init);
      assert PutOps(writes) == PutOps(init) + [PutOp(writes[n].0, writes[n].1)];
      FinalAppend(s, PutOps(init), [PutOp(writes[n].0, writes[n].1)]);
    }
  }

  /** A transaction: begin, stage `writes`, then finish with `last`. */
  function Transaction<K, V>(writes: seq<(K, V)>, last: Op<K, V>): seq<Op<K, V>> {
    [BeginOp] + PutOps(writes) + [last]
  }

  /** A committed transaction returns to Idle and every key reads as its last write in the
      transaction, or as before the transaction when it was not written. */
  lemma TransactionCommits<K(!new), V>(s: Store<K, V>, writes: seq<(K, V)>)
    requires s.Idle()
    ensures Final(s, Transaction(writes, CommitOp)).Idle()
    ensures forall k :: Get(Final(s, Transaction(writes, CommitOp)), k) == ReadThrough(LastWrite(writes, k), Get(s, k))
  {
    var started := Begin(s).value;
    StagedWrites(started, writes);
    FinalAppend(s, [BeginOp], PutOps(writes));
    FinalAppend(s, [BeginOp] + PutOps(writes), [CommitOp]);
  }

  /** A rolled-back transaction leaves the store exactly as the snapshot taken before begin. */
  lemma TransactionRollsBack<K(!new), V>(s: Store<K, V>, writes: seq<(K, V)>)
    requires s.Idle()
    ensures Final(s, Transaction(writes, RollbackOp)) == s
  {
    var started := Begin(s).value;
    StagedWrites(started, writes);
    FinalAppend(s, [BeginOp], PutOps(writes));
    FinalAppend(s, [BeginOp] + PutOps(writes), [RollbackOp]);
  }

  /** Every call of a transaction started from Idle succeeds. */
  lemma TransactionNeverRaises<K(!new), V>(s: Store<K, V>, writes: seq<(K, V)>, last: Op<K, V>, i: nat)
    requires s.Idle() && (last.CommitOp? || last.RollbackOp?)
    requires i < |Transaction(writes, last)|
    ensures !Replies(s, Transaction(writes, last))[i].Raised?
  {
    var ops := Transaction(writes, last);
    ReplyFollowsPrefix(s, ops, i);
    if i > 0 {
      var started := Begin(s).value;
      StagedWrites(started, writes[..i - 1]);
      assert ops[..i] == [BeginOp] + PutOps(writes[..i - 1]);
      FinalAppend(s, [BeginOp], PutOps(writes[..i - 1]));
    }
  }

  /** True when some call of `ops` puts `key`. */
  predicate Writes<K(==), V>(ops: seq<Op<K, V>>, key: K) {
    exists i :: 0 <= i < |ops| && ops[i].PutOp? && ops[i].key == key
  }

  /** A key that no call of a session puts is never staged and keeps its reading throughout,
      whatever begins, commits, rollbacks, reads and refused calls the session makes. */
  lemma {:induction false} UnwrittenKeyUnchanged<K(!new), V>(s: Store<K, V>, ops: seq<Op<K, V>>, key: K)
    requires !s.Staged(key)
    requires !Writes(ops, key)
    ensures !Final(s, ops).Staged(key)
    ensures Get(Final(s, ops), key) == Get(s, key)
    decreases |ops|
  {
    if |ops| > 0 {
      var t := Apply(s, ops[0]).store;
      assert !(ops[0].PutOp? && ops[0].key == key);
      assert !t.Staged(key) && Get(t, key) == Get(s, key);
      assert !Writes(ops[1..], key) by {
        forall i | 0 <= i < |ops[1..]|
          ensures !(ops[1..][i].PutOp? && ops[1..][i].key == key)
        {
          assert ops[1..][i] == ops[i + 1];
        }
      }
      UnwrittenKeyUnchanged(t, ops[1..], key);
    }
  }

  /** On a fresh store, a key that no call of the session puts reads as not found. */
  lemma NeverWrittenNotFound<K(!new), V>(ops: seq<Op<K, V>>, key: K)
    requires !Writes(ops, key)
    ensures Get(Final(Init(), ops), key) == None
  {
    UnwrittenKeyUnchanged(Init(), ops, key);
  }
}

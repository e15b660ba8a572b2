/** The usage script that accompanies the store, as one concrete session.

    The script's own comment says the read made inside the first transaction, before its
    commit, returns nothing. The store's `get` consults the open transaction first, so that
    read returns the transaction's own write, 5; the session below follows the code. */
module Example {
  import opened Wrappers
  import opened KeyValueStore
  import opened Session

  /** Reads and writes on a fresh store before any transaction. */
  function Outside(): seq<Op<string, int>> {
    [GetOp("A"), PutOp("A", 5)]
  }

  /** The first transaction: writes A twice, reads it back, commits, reads it again. */
  function Committed(): seq<Op<string, int>> {
    [BeginOp, PutOp("A", 5), GetOp("A"), PutOp("A", 6), CommitOp, GetOp("A")]
  }

  /** Finishing a transaction that is not open, then reading a key never written. */
  function Misuse(): seq<Op<string, int>> {
    [CommitOp, RollbackOp, GetOp("B")]
  }

  /** The second transaction: writes B, rolls back, reads B. */
  function RolledBack(): seq<Op<string, int>> {
    [BeginOp, PutOp("B", 10), RollbackOp, GetOp("B")]
  }

  /** The calls of the script, in order. */
  function Script(): seq<Op<string, int>> {
    Outside() + Committed() + Misuse() + RolledBack()
  }

  /** The store the first transaction leaves behind. */
  function AfterCommit(): Store<string, int> {
    Store(map["A" := 6], None)
  }

  /** Before any transaction: A is not found, and a put is refused without effect. */
  lemma OutsideReplies()
    ensures Replies(Init(), Outside()) == [Value(None), Raised(NoTransaction)]
    ensures Final(Init(), Outside()) == Init()
  {
  }

  /** The first transaction reads its own write of A, then commits the last one. */
  lemma CommittedReplies()
    ensures Replies(Init(), Committed()) == [Done, Done, Value(Some(5)), Done, Done, Value(Some(6))]
    ensures Final(Init(), Committed()) == AfterCommit()
  {
    assert map["A" := 5]["A" := 6] == map["A" := 6];
    assert map[] + map["A" := 6] == map["A" := 6];
  }

  /** With no transaction open, commit and rollback are refused without effect. */
  lemma MisuseReplies()
    ensures Replies(AfterCommit(), Misuse()) == [Raised(NoTransaction), Raised(NoTransaction), Value(None)]
    ensures Final(AfterCommit(), Misuse()) == AfterCommit()
  {
  }

  /** A rolled-back write of B is never seen. */
  lemma RolledBackReplies()
    ensures Replies(AfterCommit(), RolledBack()) == [Done, Done, Done, Value(None)]
    ensures Final(AfterCommit(), RolledBack()) == AfterCommit()
  {
  }

  /** The script leaves the store holding A = 6 and no open transaction. */
  lemma ScriptFinal()
    ensures Final(Init(), Script()) == AfterCommit()
  {
    var s0: Store<string, int> := Init();
    var a, b, c, d := Outside(), Committed(), Misuse(), RolledBack();
    OutsideReplies();
    CommittedReplies();
    MisuseReplies();
    RolledBackReplies();
    FinalAppend(s0, a, b);
    FinalAppend(s0, a + b, c);
    FinalAppend(s0, a + b + c, d);
  }

  /** Replies of four consecutive phases, when the first and third leave the store as they found it. */
  lemma {:induction false} RepliesOfPhases<K(!new), V>(s: Store<K, V>, m: Store<K, V>, a: seq<Op<K, V>>, b: seq<Op<K, V>>, c: seq<Op<K, V>>, d: seq<Op<K, V>>)
    requires Final(s, a) == s && Final(s, b) == m && Final(m, c) == m
    ensures Replies(s, a + b + c + d) == Replies(s, a) + Replies(s, b) + Replies(m, c) + Replies(m, d)
  {
    FinalAppend(s, a, b);
    FinalAppend(s, a + b, c);
    RepliesAppend(s, a, b);
    RepliesAppend(s, a + b, c);
    RepliesAppend(s, a + b + c, d);
  }

  /** What the script observes, phase by phase, on a fresh store. The third reply of the first
      transaction is the open transaction reading its own uncommitted write. */
  lemma ScriptReplies()
    ensures Replies(Init(), Script()) ==
      [Value(None), Raised(NoTransaction)]
      + [Done, Done, Value(Some(5)), Done, Done, Value(Some(6))]
      + [Raised(NoTransaction), Raised(NoTransaction), Value(None)]
      + [Done, Done, Done, Value(None)]
  {
    var s0: Store<string, int> := Init();
    var a, b, c, d := Outside(), Committed(), Misuse(), RolledBack();
    assert Script() == a + b + c + d;
    OutsideReplies();
    CommittedReplies();
    MisuseReplies();
    RolledBackReplies();
    RepliesOfPhases(s0, AfterCommit(), a, b, c, d);
  }
}

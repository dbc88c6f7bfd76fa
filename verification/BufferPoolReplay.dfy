/** Requests of clients served by a pool object: the theorems about runs hold of the class. */
module BufferPoolReplay {
  import opened BufferPoolStates
  import opened BufferPoolRuns
  import opened BufferPoolHistory
  import opened BufferPoolLaws
  import opened BufferPoolManager
  import opened AccessLog
  import BufferPoolProofs

  /** The client's part of what enables an operation. */
  predicate Promised(s: Pool, request: Op) {
    match request
    case New(_) => true
    case Fetch(p, _) => 0 <= p < s.nextPageId
    case _ => Enabled(s, request)
  }

  /** The requests keep the promises, whichever victims the pool chooses on the way. */
  ghost predicate KeepsPromises(s: Pool, requests: seq<Op>)
    requires Ok(s)
    decreases |requests|
  {
    requests == []
    || (Promised(s, requests[0])
        && forall op :: Asked(op) == Asked(requests[0]) && Enabled(s, op) ==>
                          (BufferPoolProofs.StepKeepsOk(s, op); KeepsPromises(Apply(s, op), requests[1..])))
  }

  /** Serves one request by calling the method for it. */
  method Serve(pool: BufferPoolManagerInstance, request: Op) returns (ghost op: Op)
    requires pool.Valid() && Promised(pool.Value(), request)
    modifies pool, pool.pages, pool.replacer
    ensures pool.Valid() && Asked(op) == Asked(request)
    ensures Enabled(old(pool.Value()), op) && pool.Value() == Apply(old(pool.Value()), op)
    ensures pool.replacer.log == old(pool.replacer.log) + Logged(old(pool.Value()), op)
    ensures TakesFrame(old(pool.Value()), op) && old(pool.Value()).freeList == [] ==>
              IsVictim(old(pool.replacer.log), pool.replacer.k, op.victim)
  {
    op := request;
    match request {
      case New(_) =>
        var page, id;
        ghost var victim;
        page, id, victim := pool.NewPgImp();
        op := New(victim);
      case Fetch(p, _) =>
        var page;
        ghost var victim;
        page, victim := pool.FetchPgImp(p);
        op := Fetch(p, victim);
      case Unpin(p, isDirty) =>
        var ok := pool.UnpinPgImp(p, isDirty);
      case Flush(p) =>
        var ok := pool.FlushPgImp(p);
      case FlushAll =>
        pool.FlushAllPgsImp();
      case Delete(p) =>
        var ok := pool.DeletePgImp(p);
      case Write(p, data) =>
        pool.WriteData(p, data);
    }
  }

  /** A step of the object takes the victim that LRU-K picks by the history so far. */
  lemma StepFollowsLruK(log: seq<Event>, h: History, s: Pool, op: Op, k: nat)
    requires Ok(s) && Enabled(s, op) && InStep(log, s) && Corresponds(log, h, s)
    requires TakesFrame(s, op) && s.freeList == [] ==> IsVictim(log, k, op.victim)
    ensures TakesFrame(s, op) && s.freeList == [] ==> IsLruK(s, h, k, s.pages[op.victim].pageId)
    ensures Corresponds(log + Logged(s, op), Recorded(h, s, Apply(s, op)), Apply(s, op))
  {
    if TakesFrame(s, op) && s.freeList == [] {
      VictimIsLruK(log, h, s, k, op.victim);
    }
    StepCorresponds(log, h, s, op);
  }

  /**
   * Serves the requests in turn. The pool ends as a run of the state machine ends, and every page evicted on
   * the way is the one that LRU-K picks by the times at which the pool has handed out its pages.
   */
  method Replay(pool: BufferPoolManagerInstance, requests: seq<Op>, ghost h: History) returns (ghost ops: seq<Op>)
    requires pool.Valid() && KeepsPromises(pool.Value(), requests)
    requires Corresponds(pool.replacer.log, h, pool.Value())
    modifies pool, pool.pages, pool.replacer
    ensures pool.Valid() && |ops| == |requests| && forall i :: 0 <= i < |ops| ==> Asked(ops[i]) == Asked(requests[i])
    ensures Possible(old(pool.Value()), ops) && pool.Value() == Run(old(pool.Value()), ops)
    ensures FollowsLruK(old(pool.Value()), ops, h, pool.replacer.k)
    decreases |requests|
  {
    if requests == [] {
      ops := [];
      return;
    }
    ghost var s, log := pool.Value(), pool.replacer.log;
    ghost var op := Serve(pool, requests[0]);
    StepFollowsLruK(log, h, s, op, pool.replacer.k);
    ghost var rest := Replay(pool, requests[1..], Recorded(h, s, pool.Value()));
    ops := [op] + rest;
    assert ops[1..] == rest;
  }

  lemma {:induction false} VictimsDoNotWrite(ops: seq<Op>, requests: seq<Op>, q: int, initial: Bytes)
    requires |ops| == |requests| && forall i :: 0 <= i < |ops| ==> Asked(ops[i]) == Asked(requests[i])
    ensures LastWritten(ops, q, initial) == LastWritten(requests, q, initial)
    ensures Delete(q) in ops <==> Delete(q) in requests
    decreases |ops|
  {
    if ops != [] {
      assert Asked(ops[0]) == Asked(requests[0]);
      VictimsDoNotWrite(ops[1..], requests[1..], q, Effect(ops[0], q, initial));
      assert Delete(q) in ops <==> Delete(q) == ops[0] || Delete(q) in ops[1..];
      assert Delete(q) in requests <==> Delete(q) == requests[0] || Delete(q) in requests[1..];
    }
  }

  lemma NothingLogged(n: nat, log: seq<Event>)
    requires log == []
    ensures Corresponds(log, NO_HISTORY, Start(n))
  {
  }

  /**
   * A new pool object, after any requests: every page that was not deleted is what was last written to it, and
   * the whole run is the one that the requests and LRU-K determine.
   */
  method ReplayFromStart(poolSize: nat, replacerK: nat, requests: seq<Op>)
    returns (pool: BufferPoolManagerInstance, ghost ops: seq<Op>)
    requires replacerK >= 2 && KeepsPromises(Start(poolSize), requests)
    ensures pool.Valid()
    ensures forall q :: Delete(q) !in requests ==> Contents(pool.Value(), q) == LastWritten(requests, q, Zeros())
    ensures |ops| == |requests| && forall i :: 0 <= i < |ops| ==> Asked(ops[i]) == Asked(requests[i])
    ensures Possible(Start(poolSize), ops) && FollowsLruK(Start(poolSize), ops, NO_HISTORY, replacerK)
    ensures pool.Value() == Run(Start(poolSize), ops)
  {
    pool := new BufferPoolManagerInstance(poolSize, replacerK);
    NothingLogged(poolSize, pool.replacer.log);
    ops := Replay(pool, requests, NO_HISTORY);
    forall q | Delete(q) !in requests
      ensures Contents(pool.Value(), q) == LastWritten(requests, q, Zeros())
    {
      VictimsDoNotWrite(ops, requests, q, Zeros());
      PoolIsAPlainStore(poolSize, ops, q);
    }
  }
}

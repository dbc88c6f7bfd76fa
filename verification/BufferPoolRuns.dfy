/** Whole runs of the buffer pool, seen by its clients. */
module BufferPoolRuns {
  import opened BufferPoolStates
  import opened BufferPoolProofs

  // ----- One step -----

  /** The page an operation is about, if it is about one. */
  function PageOf(op: Op): int {
    if op.New? || op.FlushAll? then INVALID_PAGE_ID else op.page
  }

  /** What an operation makes of the logical contents of a page. */
  function Effect(op: Op, q: int, contents: Bytes): Bytes {
    if op.Write? && op.page == q then op.data else contents
  }

  lemma ResidentStepContents(s: Pool, op: Op, q: int)
    requires Ok(s) && Enabled(s, op)
             && (op.Unpin? || op.Write? || op.Flush? || op.FlushAll? || (op.Fetch? && op.page in s.pageTable))
    ensures Contents(Apply(s, op), q) == Effect(op, q, Contents(s, q))
  {
    if PageOf(op) in s.pageTable {
      assert EntryOk(s, PageOf(op));
    }
    if q in s.pageTable {
      assert EntryOk(s, q);
    }
  }

  lemma NewContents(s: Pool, victim: int, q: int)
    requires Ok(s) && Enabled(s, New(victim))
    ensures Contents(NewPage(s, victim), q) == Contents(s, q)
  {
    if SomeUnpinned(s) {
      var t, f := WithFrame(s, victim), FrameFor(s, victim);
      FrameTaken(s, victim);
      FreshIdIsNowhere(s, s.nextPageId);
      TakingFrameKeepsContents(s, victim, q);
      InstallKeepsContents(t, f, s.nextPageId, t.pages[f].data, q);
    }
  }

  lemma FetchContents(s: Pool, p: int, victim: int, q: int)
    requires Ok(s) && Enabled(s, Fetch(p, victim)) && p !in s.pageTable
    ensures Contents(FetchPage(s, p, victim), q) == Contents(s, q)
  {
    if SomeUnpinned(s) {
      FrameTaken(s, victim);
      TakingFrameKeepsContents(s, victim, q);
      InstallKeepsContents(WithFrame(s, victim), FrameFor(s, victim), p, DiskData(WithFrame(s, victim).disk, p), q);
    }
  }

  /** Deleting a page gives up what is only in memory, and touches no other page. */
  lemma DeleteContents(s: Pool, p: int, q: int)
    requires Ok(s)
    ensures Contents(DeletePage(s, p), q) == if p == q && !Pinned(s, p) then DiskData(s.disk, p) else Contents(s, q)
  {
    if p in s.pageTable {
      assert EntryOk(s, p);
    }
    if q in s.pageTable {
      assert EntryOk(s, q);
    }
  }

  /** No operation but a write of the page itself, or its deletion, changes the contents of a page. */
  lemma StepContents(s: Pool, op: Op, q: int)
    requires Ok(s) && Enabled(s, op) && op != Delete(q)
    ensures Contents(Apply(s, op), q) == Effect(op, q, Contents(s, q))
  {
    match op
    case New(victim) => NewContents(s, victim, q);
    case Fetch(p, victim) =>
      if p in s.pageTable {
        ResidentStepContents(s, op, q);
      } else {
        FetchContents(s, p, victim, q);
      }
    case Delete(p) => DeleteContents(s, p, q);
    case _ => ResidentStepContents(s, op, q);
  }

  /** A page that may be lost: its frame differs from the disk, which is so at most if it is dirty or unsaved. */
  lemma DeleteLosesOnlyChanges(s: Pool, p: int)
    requires Ok(s)
    ensures Contents(DeletePage(s, p), p) != Contents(s, p) ==>
              exists f :: Holds(s, p, f) && s.pages[f].isDirty && s.pages[f].pinCount == 0
  {
    DeleteContents(s, p, p);
    if p in s.pageTable {
      assert EntryOk(s, p) && FrameOk(s, s.pageTable[p]);
      assert Holds(s, p, s.pageTable[p]);
    }
  }

  /** A new page: fresh id, zeros, pinned once. It fails, and then changes nothing, exactly if every frame is pinned. */
  lemma NewPageHandsOutZeros(s: Pool, victim: int)
    requires Ok(s) && Enabled(s, New(victim))
    ensures var t, f, p := NewPage(s, victim), FrameFor(s, victim), s.nextPageId;
            if SomeUnpinned(s) then Holds(t, p, f) && t.pages[f] == Page(Zeros(), p, 1, false) && p !in s.pageTable
            else t == s
  {
    if SomeUnpinned(s) {
      FrameTaken(s, victim);
      FreshIdIsNowhere(s, s.nextPageId);
    }
  }

  /** A fetched page's frame holds the logical contents. It fails exactly if not resident with every frame pinned. */
  lemma FetchHandsOutContents(s: Pool, p: int, victim: int)
    requires Ok(s) && Enabled(s, Fetch(p, victim))
    ensures var t := FetchPage(s, p, victim);
            if p in s.pageTable || SomeUnpinned(s)
            then p in t.pageTable && Holds(t, p, t.pageTable[p]) && t.pages[t.pageTable[p]].data == Contents(s, p)
            else t == s
  {
    if p in s.pageTable {
      assert EntryOk(s, p);
    } else if SomeUnpinned(s) {
      FrameTaken(s, victim);
      TakingFrameKeepsContents(s, victim, p);
    }
  }

  // ----- Pin counts -----

  /** One more for each page handed out, one less for each unpin that succeeds. */
  function PinDelta(s: Pool, op: Op, p: int): int {
    match op
    case New(_) => if SomeUnpinned(s) && s.nextPageId == p then 1 else 0
    case Fetch(q, _) => if q == p && (p in s.pageTable || SomeUnpinned(s)) then 1 else 0
    case Unpin(q, _) => if q == p && Pinned(s, p) then -1 else 0
    case _ => 0
  }

  lemma TakenFramePins(s: Pool, victim: int, q: int)
    requires Ok(s) && SomeUnpinned(s) && (NeedsVictim(s) ==> Candidate(s, victim))
    ensures PinCount(WithFrame(s, victim), q) == PinCount(s, q)
  {
    if s.freeList == [] {
      assert FrameOk(s, victim);
      if q in s.pageTable {
        assert EntryOk(s, q);
      }
    }
  }

  lemma InstalledPins(s: Pool, f: int, p: int, data: Bytes, q: int)
    requires OkBut(s, f) && p !in s.pageTable
    ensures PinCount(Install(s, f, p, data), q) == if q == p then 1 else PinCount(s, q)
  {
    if q in s.pageTable {
      assert EntryOk(s, q);
    }
  }

  lemma ResidentStepPins(s: Pool, op: Op, q: int)
    requires Ok(s) && Enabled(s, op) && !op.New? && (op.Fetch? ==> op.page in s.pageTable)
    ensures PinCount(Apply(s, op), q) == PinCount(s, q) + PinDelta(s, op, q)
  {
    if PageOf(op) in s.pageTable {
      assert EntryOk(s, PageOf(op)) && FrameOk(s, s.pageTable[PageOf(op)]);
    }
    if q in s.pageTable {
      assert EntryOk(s, q) && FrameOk(s, s.pageTable[q]);
    }
  }

  lemma StepPins(s: Pool, op: Op, q: int)
    requires Ok(s) && Enabled(s, op)
    ensures PinCount(Apply(s, op), q) == PinCount(s, q) + PinDelta(s, op, q)
  {
    if op.New? {
      if SomeUnpinned(s) {
        var t, f := WithFrame(s, op.victim), FrameFor(s, op.victim);
        FrameTaken(s, op.victim);
        FreshIdIsNowhere(s, s.nextPageId);
        TakenFramePins(s, op.victim, q);
        InstalledPins(t, f, s.nextPageId, t.pages[f].data, q);
      }
    } else if op.Fetch? && op.page !in s.pageTable {
      if SomeUnpinned(s) {
        var t, f := WithFrame(s, op.victim), FrameFor(s, op.victim);
        FrameTaken(s, op.victim);
        TakenFramePins(s, op.victim, q);
        InstalledPins(t, f, op.page, DiskData(t.disk, op.page), q);
      }
    } else {
      ResidentStepPins(s, op, q);
    }
  }

  /** A pinned page stays in its frame whatever happens to other pages. */
  lemma PinnedStaysInFrame(s: Pool, op: Op, p: int)
    requires Ok(s) && Enabled(s, op) && Pinned(s, p)
    ensures Holds(Apply(s, op), p, s.pageTable[p])
  {
    assert EntryOk(s, p) && FrameOk(s, s.pageTable[p]);
    if (op.New? || (op.Fetch? && op.page !in s.pageTable)) && SomeUnpinned(s) {
      FrameTaken(s, op.victim);
      FreshIdIsNowhere(s, s.nextPageId);
      if s.freeList == [] {
        assert FrameOk(s, op.victim);
      }
    } else if PageOf(op) in s.pageTable {
      assert EntryOk(s, PageOf(op));
    }
  }

  // ----- Runs -----

  predicate Possible(s: Pool, ops: seq<Op>)
    requires Ok(s)
    decreases |ops|
  {
    ops == [] || (Enabled(s, ops[0]) && (StepKeepsOk(s, ops[0]); Possible(Apply(s, ops[0]), ops[1..])))
  }

  function Run(s: Pool, ops: seq<Op>): (t: Pool)
    requires Ok(s) && Possible(s, ops)
    ensures Ok(t)
    decreases |ops|
  {
    if ops == [] then s
    else
      StepKeepsOk(s, ops[0]);
      Run(Apply(s, ops[0]), ops[1..])
  }

  /** The plain map from page ids to bytes that the pool must look like: the last write counts. */
  function LastWritten(ops: seq<Op>, q: int, initial: Bytes): Bytes
    decreases |ops|
  {
    if ops == [] then initial else LastWritten(ops[1..], q, Effect(ops[0], q, initial))
  }

  /** After every run each page that was not deleted holds what was last written to it. */
  lemma {:induction false} RunKeepsContents(s: Pool, ops: seq<Op>, q: int)
    requires Ok(s) && Possible(s, ops) && Delete(q) !in ops
    ensures Contents(Run(s, ops), q) == LastWritten(ops, q, Contents(s, q))
    decreases |ops|
  {
    if ops != [] {
      StepKeepsOk(s, ops[0]);
      StepContents(s, ops[0], q);
      RunKeepsContents(Apply(s, ops[0]), ops[1..], q);
    }
  }

  function PinBalance(s: Pool, ops: seq<Op>, p: int): int
    requires Ok(s) && Possible(s, ops)
    decreases |ops|
  {
    if ops == [] then 0
    else
      StepKeepsOk(s, ops[0]);
      PinDelta(s, ops[0], p) + PinBalance(Apply(s, ops[0]), ops[1..], p)
  }

  /** A pin count is the number of times the page was handed out minus the number of successful unpins. */
  lemma {:induction false} RunBalancesPins(s: Pool, ops: seq<Op>, p: int)
    requires Ok(s) && Possible(s, ops)
    ensures PinCount(Run(s, ops), p) == PinCount(s, p) + PinBalance(s, ops, p)
    decreases |ops|
  {
    if ops != [] {
      StepKeepsOk(s, ops[0]);
      StepPins(s, ops[0], p);
      RunBalancesPins(Apply(s, ops[0]), ops[1..], p);
    }
  }

  /** Counting only fetches and unpins of the page, it is never released. */
  predicate NeverReleased(ops: seq<Op>, p: int, pins: int)
    decreases |ops|
  {
    pins > 0 && (ops == [] || NeverReleased(ops[1..], p, pins + Change(ops[0], p)))
  }

  function Change(op: Op, p: int): int {
    if op.Fetch? && op.page == p then 1 else if op.Unpin? && op.page == p then -1 else 0
  }

  /** While it is not released a page stays in its frame, and its bytes change only by writes of the page itself. */
  lemma {:induction false} PinnedPageIsStable(s: Pool, ops: seq<Op>, p: int)
    requires Ok(s) && Possible(s, ops) && Pinned(s, p) && NeverReleased(ops, p, PinCount(s, p))
    ensures var f, t := s.pageTable[p], Run(s, ops);
            Holds(t, p, f) && t.pages[f].data == LastWritten(ops, p, s.pages[f].data)
    decreases |ops|
  {
    if ops != [] {
      var op := ops[0];
      StepKeepsOk(s, op);
      PinnedStaysInFrame(s, op, p);
      StepPins(s, op, p);
      ResidentIds(s, p);
      assert op != Delete(p) ==> Contents(Apply(s, op), p) == Effect(op, p, Contents(s, p)) by {
        if op != Delete(p) {
          StepContents(s, op, p);
        }
      }
      DeleteContents(s, p, p);
      PinnedPageIsStable(Apply(s, op), ops[1..], p);
    }
  }

  // ----- Start, flush and restart -----

  function Range(n: nat): (list: seq<int>)
    ensures |list| == n && forall i :: 0 <= i < n ==> list[i] == i
  {
    seq(n, i => i)
  }

  /** A pool with nothing in memory. */
  function Started(n: nat, disk: map<int, Bytes>, nextPageId: int): Pool {
    Pool(seq(n, _ => FreePage()), map[], Range(n), disk, nextPageId, {})
  }

  lemma StartedIsOk(n: nat, disk: map<int, Bytes>, nextPageId: int)
    requires nextPageId >= 0 && forall p :: p in disk ==> 0 <= p < nextPageId
    ensures Ok(Started(n, disk, nextPageId))
  {
    var s := Started(n, disk, nextPageId);
    forall f | 0 <= f < n
      ensures FrameOk(s, f)
    {
      assert s.freeList[f] == f;
    }
  }

  function Start(n: nat): (s: Pool)
    ensures Ok(s)
  {
    StartedIsOk(n, map[], 0);
    Started(n, map[], 0)
  }

  /** From the start on, every page that was not deleted is what was last written to it, or zeros. */
  lemma PoolIsAPlainStore(n: nat, ops: seq<Op>, q: int)
    requires Possible(Start(n), ops) && Delete(q) !in ops
    ensures Contents(Run(Start(n), ops), q) == LastWritten(ops, q, Zeros())
  {
    RunKeepsContents(Start(n), ops, q);
  }

  /** After flushing everything the disk agrees with memory, and a pool started from that disk shows the same pages. */
  lemma FlushAllSavesEverything(s: Pool, n: nat, q: int)
    requires Ok(s)
    ensures DiskData(FlushAllPages(s).disk, q) == Contents(FlushAllPages(s), q) == Contents(s, q)
    ensures Ok(Started(n, FlushAllPages(s).disk, s.nextPageId))
    ensures Contents(Started(n, FlushAllPages(s).disk, s.nextPageId), q) == Contents(s, q)
  {
    FlushedDisk(s, q);
    StepContents(s, FlushAll, q);
    FlushAllKeepsOk(s);
    StartedIsOk(n, FlushAllPages(s).disk, s.nextPageId);
  }
}

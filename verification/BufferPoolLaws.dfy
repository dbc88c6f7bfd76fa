/** What each operation does to residence, ids, dirty flags and disk, and that it does nothing else. */
module BufferPoolLaws {
  import opened BufferPoolStates
  import opened BufferPoolProofs

  // ----- Residence -----

  /** The operation takes a frame for a page that is not resident. */
  predicate TakesFrame(s: Pool, op: Op) {
    SomeUnpinned(s) && (op.New? || (op.Fetch? && op.page !in s.pageTable))
  }

  /** The page that such an operation makes resident. */
  function EnteringPage(s: Pool, op: Op): int
    requires op.New? || op.Fetch?
  {
    if op.New? then s.nextPageId else op.page
  }

  /** All pages but one stay, in the frames they are in. */
  ghost predicate OthersStay(s: Pool, t: Pool, p: int) {
    forall q :: q != p ==> (q in t.pageTable <==> q in s.pageTable)
                           && (q in s.pageTable ==> t.pageTable[q] == s.pageTable[q])
  }

  /**
   * A new or newly fetched page enters, into the first free frame if there is one; else into the victim's,
   * whose page leaves. No other page enters, leaves or moves.
   */
  lemma FrameTakenResidence(s: Pool, op: Op)
    requires Ok(s) && Enabled(s, op) && TakesFrame(s, op)
    ensures var t, p := Apply(s, op), EnteringPage(s, op);
            && p !in s.pageTable && p in t.pageTable
            && if s.freeList != [] then
                 t.pageTable[p] == s.freeList[0] && t.freeList == s.freeList[1..] && OthersStay(s, t, p)
               else
                 && t.pageTable[p] == op.victim && t.freeList == [] && s.pages[op.victim].pageId in s.pageTable
                 && s.pages[op.victim].pageId !in t.pageTable
                 && forall q :: q != p && q != s.pages[op.victim].pageId ==>
                                  (q in t.pageTable <==> q in s.pageTable)
                                  && (q in s.pageTable ==> t.pageTable[q] == s.pageTable[q])
  {
    var p := EnteringPage(s, op);
    FrameTaken(s, op.victim);
    if op.New? {
      FreshIdIsNowhere(s, p);
    }
    if s.freeList == [] {
      assert FrameOk(s, op.victim);
    }
  }

  /** A deleted page is gone, its frame is blank and last on the free list; a pinned page cannot be deleted. */
  lemma DeletedResidence(s: Pool, p: int)
    requires Ok(s)
    ensures var t := DeletePage(s, p);
            if p in s.pageTable && !Pinned(s, p) then
              && p !in t.pageTable && OthersStay(s, t, p)
              && 0 <= s.pageTable[p] < |t.pages| == |s.pages|
              && t.freeList == s.freeList + [s.pageTable[p]]
              && t.pages[s.pageTable[p]] == Page(Zeros(), INVALID_PAGE_ID, 0, false)
              && forall f :: 0 <= f < |s.pages| && f != s.pageTable[p] ==> t.pages[f] == s.pages[f]
            else t == s
  {
    if p in s.pageTable {
      assert EntryOk(s, p);
    }
  }

  /** No other operation makes a page resident or lets one go. */
  lemma ResidenceUnchanged(s: Pool, op: Op)
    requires Ok(s) && Enabled(s, op) && !TakesFrame(s, op) && !op.Delete?
    ensures Apply(s, op).pageTable == s.pageTable && Apply(s, op).freeList == s.freeList
  {
  }

  /** Ids are given out one after the other, by New and only when it succeeds. */
  lemma NextIds(s: Pool, op: Op)
    requires Ok(s) && Enabled(s, op)
    ensures Apply(s, op).nextPageId == if op.New? && SomeUnpinned(s) then s.nextPageId + 1 else s.nextPageId
  {
    if TakesFrame(s, op) {
      FrameTaken(s, op.victim);
    }
  }

  // ----- Dirty flags and disk -----

  predicate Dirty(s: Pool, q: int) {
    q in s.pageTable && 0 <= s.pageTable[q] < |s.pages| && s.pages[s.pageTable[q]].isDirty
  }

  lemma FrameTakenDirty(s: Pool, op: Op, q: int)
    requires Ok(s) && Enabled(s, op) && TakesFrame(s, op) && q in Apply(s, op).pageTable
    ensures Dirty(Apply(s, op), q) <==> q != EnteringPage(s, op) && Dirty(s, q)
  {
    FrameTakenResidence(s, op);
    FrameTaken(s, op.victim);
    if q in s.pageTable {
      assert EntryOk(s, q);
    }
    if s.freeList == [] {
      assert FrameOk(s, op.victim);
    } else {
      assert s.freeList[0] in s.freeList;
    }
  }

  /** A page becomes dirty by an unpin that says so, and stays it until it leaves: flushing does not change that. */
  lemma StepDirty(s: Pool, op: Op, q: int)
    requires Ok(s) && Enabled(s, op) && q in Apply(s, op).pageTable
    ensures Dirty(Apply(s, op), q) <==>
              (q in s.pageTable && Dirty(s, q)) || (op == Unpin(q, true) && Pinned(s, q))
  {
    if TakesFrame(s, op) {
      FrameTakenDirty(s, op, q);
      FrameTakenResidence(s, op);
    } else {
      if op.Unpin? || op.Delete? || op.Fetch? || op.Write? {
        if op.page in s.pageTable {
          assert EntryOk(s, op.page) && FrameOk(s, s.pageTable[op.page]);
        }
      }
      if q in s.pageTable {
        assert EntryOk(s, q) && FrameOk(s, s.pageTable[q]);
      }
    }
  }

  /** The pages an operation writes to disk: a dirty victim's, or what is flushed. */
  predicate Writes(s: Pool, op: Op, q: int) {
    || (TakesFrame(s, op) && s.freeList == [] && Dirty(s, q) && s.pageTable[q] == op.victim)
    || (q in s.pageTable && (op == Flush(q) || op == FlushAll))
  }

  /** The disk changes by these pages alone, and gets the bytes they have in memory. */
  lemma StepDisk(s: Pool, op: Op, q: int)
    requires Ok(s) && Enabled(s, op)
    ensures q in Apply(s, op).disk <==> q in s.disk || Writes(s, op, q)
    ensures q in Apply(s, op).disk ==> Apply(s, op).disk[q] == if Writes(s, op, q) then Contents(s, q) else s.disk[q]
  {
    if q in s.pageTable {
      assert EntryOk(s, q);
    }
    if TakesFrame(s, op) && s.freeList == [] {
      assert FrameOk(s, op.victim);
    }
  }
}

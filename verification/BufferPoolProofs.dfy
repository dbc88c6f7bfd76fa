/** What every operation of the buffer pool keeps, and what whole runs keep. */
module BufferPoolProofs {
  import opened BufferPoolStates

  // ----- Free frames and eviction -----

  /** With no free frame and some unpinned one, there is a candidate: an eviction, when reached, succeeds. */
  lemma UnpinnedIsCandidate(s: Pool, f: int)
    requires Ok(s) && s.freeList == [] && Unpinned(s, f)
    ensures Candidate(s, f)
  {
  }

  /** The pool without one frame: that frame is blank, in neither the free list nor the page table. */
  ghost predicate OkBut(s: Pool, f: int) {
    && 0 <= f < |s.pages| && f !in s.freeList
    && s.pages[f].data == Zeros() && s.pages[f].pinCount == 0 && !s.pages[f].isDirty
    && (forall g :: 0 <= g < |s.pages| && g != f ==> FrameOk(s, g))
    && TableOk(s) && (forall p :: p in s.pageTable ==> s.pageTable[p] != f)
    && FreeListOk(s) && DiskOk(s) && UnsavedOk(s)
  }

  lemma TailDistinct(list: seq<int>)
    requires Distinct(list) && list != []
    ensures Distinct(list[1..]) && list[0] !in list[1..] && forall g :: g in list <==> g == list[0] || g in list[1..]
  {
    assert list == [list[0]] + list[1..];
    forall i | 0 <= i < |list| - 1
      ensures list[1..][i] == list[i + 1] != list[0]
    {
    }
  }

  lemma PopFreeFrame(s: Pool)
    requires Ok(s) && s.freeList != []
    ensures OkBut(s.(freeList := s.freeList[1..]), s.freeList[0])
  {
    var t, f := s.(freeList := s.freeList[1..]), s.freeList[0];
    assert s.freeList == [f] + t.freeList && f in s.freeList;
    assert FrameOk(s, f);
    TailDistinct(s.freeList);
    forall g | 0 <= g < |t.pages| && g != f
      ensures FrameOk(t, g)
    {
      assert FrameOk(s, g);
    }
    forall p | p in t.pageTable
      ensures EntryOk(t, p) && t.pageTable[p] != f
    {
      assert EntryOk(s, p);
    }
  }

  lemma EvictFrame(s: Pool, victim: int)
    requires Ok(s) && Candidate(s, victim)
    ensures OkBut(Evicted(s, victim), victim)
  {
    var t := Evicted(s, victim);
    assert FrameOk(s, victim);
    forall g | 0 <= g < |t.pages| && g != victim
      ensures FrameOk(t, g)
    {
      assert FrameOk(s, g);
    }
    forall p | p in t.pageTable
      ensures EntryOk(t, p) && t.pageTable[p] != victim
    {
      assert EntryOk(s, p);
    }
  }

  /** Writing back what is dirty keeps the logical contents of every page. */
  lemma EvictionKeepsContents(s: Pool, victim: int, q: int)
    requires Ok(s) && Candidate(s, victim)
    ensures Contents(Evicted(s, victim), q) == Contents(s, q)
  {
    assert FrameOk(s, victim);
    if q in s.pageTable {
      assert EntryOk(s, q);
    }
  }

  lemma FrameTaken(s: Pool, victim: int)
    requires Ok(s) && SomeUnpinned(s) && (NeedsVictim(s) ==> Candidate(s, victim))
    ensures OkBut(WithFrame(s, victim), FrameFor(s, victim))
    ensures WithFrame(s, victim).nextPageId == s.nextPageId && WithFrame(s, victim).unsaved == s.unsaved
    ensures forall p :: p in WithFrame(s, victim).pageTable ==> p in s.pageTable
  {
    if s.freeList != [] {
      PopFreeFrame(s);
    } else {
      EvictFrame(s, victim);
    }
  }

  lemma TakingFrameKeepsContents(s: Pool, victim: int, q: int)
    requires Ok(s) && SomeUnpinned(s) && (NeedsVictim(s) ==> Candidate(s, victim))
    ensures Contents(WithFrame(s, victim), q) == Contents(s, q)
  {
    if s.freeList == [] {
      EvictionKeepsContents(s, victim, q);
    }
  }

  lemma InstallOk(s: Pool, f: int, p: int, next: int, data: Bytes)
    requires OkBut(s, f) && p !in s.pageTable && 0 <= p < next && s.nextPageId <= next && data == DiskData(s.disk, p)
    ensures Ok(Install(s, f, p, data).(nextPageId := next))
  {
    var t := Install(s, f, p, data).(nextPageId := next);
    forall g | 0 <= g < |t.pages|
      ensures FrameOk(t, g)
    {
      if g != f {
        assert FrameOk(s, g);
      }
    }
    forall q | q in t.pageTable
      ensures EntryOk(t, q)
    {
      if q != p {
        assert EntryOk(s, q);
      }
    }
  }

  lemma InstallKeepsContents(s: Pool, f: int, p: int, data: Bytes, q: int)
    requires OkBut(s, f) && p !in s.pageTable && data == DiskData(s.disk, p)
    ensures Contents(Install(s, f, p, data), q) == Contents(s, q)
  {
    if q in s.pageTable {
      assert EntryOk(s, q);
    }
  }

  // ----- Every operation keeps the invariant -----

  /** An id that was never given out is nowhere. */
  lemma FreshIdIsNowhere(s: Pool, p: int)
    requires Ok(s) && p >= s.nextPageId
    ensures p !in s.pageTable && p !in s.disk && Contents(s, p) == Zeros()
  {
    ResidentIds(s, p);
  }

  lemma ResidentIds(s: Pool, p: int)
    requires Ok(s)
    ensures p in s.pageTable ==> 0 <= p < s.nextPageId
  {
    assert p in s.pageTable ==> EntryOk(s, p) && FrameOk(s, s.pageTable[p]);
  }

  lemma NewKeepsOk(s: Pool, victim: int)
    requires Ok(s) && (NeedsVictim(s) ==> Candidate(s, victim))
    ensures Ok(NewPage(s, victim))
  {
    if SomeUnpinned(s) {
      var t, f := WithFrame(s, victim), FrameFor(s, victim);
      FrameTaken(s, victim);
      FreshIdIsNowhere(s, s.nextPageId);
      assert s.nextPageId !in t.disk;
      InstallOk(t, f, s.nextPageId, s.nextPageId + 1, t.pages[f].data);
    }
  }

  lemma FetchKeepsOk(s: Pool, p: int, victim: int)
    requires Ok(s) && 0 <= p < s.nextPageId && (NeedsVictim(s) && p !in s.pageTable ==> Candidate(s, victim))
    ensures Ok(FetchPage(s, p, victim))
  {
    if p in s.pageTable {
      assert EntryOk(s, p) && FrameOk(s, s.pageTable[p]);
      PageUpdateKeepsOk(s, FetchPage(s, p, victim), s.pageTable[p]);
    } else if SomeUnpinned(s) {
      var t, f := WithFrame(s, victim), FrameFor(s, victim);
      FrameTaken(s, victim);
      InstallOk(t, f, p, s.nextPageId, DiskData(t.disk, p));
    }
  }

  /** Changing one resident frame and the unsaved flag of its page concerns nothing else. */
  lemma PageUpdateKeepsOk(s: Pool, t: Pool, f: int)
    requires Ok(s) && Resident(s, f) && |t.pages| == |s.pages|
    requires forall g :: 0 <= g < |s.pages| && g != f ==> t.pages[g] == s.pages[g]
    requires t.pages[f].pageId == s.pages[f].pageId && FrameOk(t, f)
    requires t.pageTable == s.pageTable && t.freeList == s.freeList && t.disk == s.disk && t.nextPageId == s.nextPageId
    requires t.unsaved - {s.pages[f].pageId} == s.unsaved - {s.pages[f].pageId}
    ensures Ok(t)
  {
    assert FrameOk(s, f);
    forall g | 0 <= g < |t.pages|
      ensures FrameOk(t, g)
    {
      if g != f {
        assert FrameOk(s, g);
        assert g !in s.freeList ==> s.pages[g].pageId != s.pages[f].pageId;
        assert g !in s.freeList ==>
               (s.pages[g].pageId in t.unsaved <==> s.pages[g].pageId in t.unsaved - {s.pages[f].pageId});
        assert g !in s.freeList ==>
               (s.pages[g].pageId in s.unsaved <==> s.pages[g].pageId in s.unsaved - {s.pages[f].pageId});
      }
    }
    forall p | p in t.pageTable
      ensures EntryOk(t, p)
    {
      assert EntryOk(s, p);
    }
    forall p | p in t.unsaved
      ensures p in t.pageTable
    {
      assert p == s.pages[f].pageId || p in t.unsaved - {s.pages[f].pageId};
    }
  }

  lemma UnpinKeepsOk(s: Pool, p: int, isDirty: bool)
    requires Ok(s) && (PinCount(s, p) == 1 && p in s.unsaved ==> isDirty)
    ensures Ok(UnpinPage(s, p, isDirty))
  {
    if Pinned(s, p) {
      assert EntryOk(s, p) && FrameOk(s, s.pageTable[p]);
      PageUpdateKeepsOk(s, UnpinPage(s, p, isDirty), s.pageTable[p]);
    }
  }

  lemma WriteKeepsOk(s: Pool, p: int, data: Bytes)
    requires Ok(s) && Pinned(s, p)
    ensures Ok(WriteBytes(s, p, data))
  {
    assert EntryOk(s, p) && FrameOk(s, s.pageTable[p]);
    PageUpdateKeepsOk(s, WriteBytes(s, p, data), s.pageTable[p]);
  }

  /** Writing resident pages to disk keeps the invariant: what is on disk becomes what is in memory. */
  lemma DiskUpdateKeepsOk(s: Pool, disk: map<int, Bytes>)
    requires Ok(s) && forall p :: p in disk ==> 0 <= p < s.nextPageId
    requires forall p :: p in s.pageTable ==>
                           DiskData(disk, p) == DiskData(s.disk, p) || DiskData(disk, p) == Contents(s, p)
    ensures Ok(s.(disk := disk))
  {
    var t := s.(disk := disk);
    forall g | 0 <= g < |t.pages|
      ensures FrameOk(t, g)
    {
      assert FrameOk(s, g);
    }
    forall p | p in t.pageTable
      ensures EntryOk(t, p)
    {
      assert EntryOk(s, p);
    }
  }

  lemma FlushKeepsOk(s: Pool, p: int)
    requires Ok(s)
    ensures Ok(FlushPage(s, p))
  {
    if p in s.pageTable {
      assert EntryOk(s, p) && FrameOk(s, s.pageTable[p]);
      DiskUpdateKeepsOk(s, s.disk[p := s.pages[s.pageTable[p]].data]);
    }
  }

  lemma FlushedDisk(s: Pool, p: int)
    requires Ok(s)
    ensures DiskData(FlushAllPages(s).disk, p) == Contents(s, p)
  {
    if p in s.pageTable {
      assert EntryOk(s, p);
    }
  }

  /** The disk once the first `n` frames have been flushed. */
  function FlushedUpTo(s: Pool, n: int): map<int, Bytes>
    requires TableOk(s)
  {
    s.disk + map p | p in s.pageTable && s.pageTable[p] < n :: assert EntryOk(s, p); s.pages[s.pageTable[p]].data
  }

  lemma FlushedUpToStart(s: Pool)
    requires Ok(s)
    ensures FlushedUpTo(s, 0) == s.disk
  {
    forall p | p in s.pageTable
      ensures 0 <= s.pageTable[p] < |s.pages|
    {
      assert EntryOk(s, p);
    }
  }

  lemma FlushedUpToEnd(s: Pool)
    requires Ok(s)
    ensures s.(disk := FlushedUpTo(s, |s.pages|)) == FlushAllPages(s)
  {
    forall p | p in s.pageTable
      ensures 0 <= s.pageTable[p] < |s.pages|
    {
      assert EntryOk(s, p);
    }
  }

  /** Flushing the page of the next frame, which is no page at all if the frame is free. */
  lemma FlushNext(s: Pool, n: nat)
    requires Ok(s) && n < |s.pages|
    ensures FlushPage(s.(disk := FlushedUpTo(s, n)), s.pages[n].pageId) == s.(disk := FlushedUpTo(s, n + 1))
  {
    var p := s.pages[n].pageId;
    assert FrameOk(s, n);
    ResidentIds(s, p);
    forall q | q in s.pageTable && s.pageTable[q] == n
      ensures q == p && n !in s.freeList
    {
      assert EntryOk(s, q);
    }
    if n in s.freeList {
      assert FlushedUpTo(s, n + 1) == FlushedUpTo(s, n);
    } else {
      assert FlushedUpTo(s, n + 1) == FlushedUpTo(s, n)[p := s.pages[n].data];
    }
  }

  lemma FlushAllKeepsOk(s: Pool)
    requires Ok(s)
    ensures Ok(FlushAllPages(s))
  {
    forall p | p in FlushAllPages(s).disk
      ensures 0 <= p < s.nextPageId
    {
      if p in s.pageTable {
        assert EntryOk(s, p) && FrameOk(s, s.pageTable[p]);
      }
    }
    forall p | p in s.pageTable
      ensures DiskData(FlushAllPages(s).disk, p) == Contents(s, p)
    {
      FlushedDisk(s, p);
    }
    DiskUpdateKeepsOk(s, FlushAllPages(s).disk);
  }

  lemma DeleteKeepsOk(s: Pool, p: int)
    requires Ok(s)
    ensures Ok(DeletePage(s, p))
  {
    if p in s.pageTable && !Pinned(s, p) {
      var t, f := DeletePage(s, p), s.pageTable[p];
      assert EntryOk(s, p) && FrameOk(s, f);
      forall g | 0 <= g < |t.pages|
        ensures FrameOk(t, g)
      {
        assert FrameOk(s, g);
      }
      forall q | q in t.pageTable
        ensures EntryOk(t, q)
      {
        assert EntryOk(s, q);
      }
    }
  }

  /** The joint invariant holds after every operation. */
  lemma StepKeepsOk(s: Pool, op: Op)
    requires Ok(s) && Enabled(s, op)
    ensures Ok(Apply(s, op))
  {
    match op
    case New(victim) => NewKeepsOk(s, victim);
    case Fetch(p, victim) => FetchKeepsOk(s, p, victim);
    case Unpin(p, isDirty) => UnpinKeepsOk(s, p, isDirty);
    case Flush(p) => FlushKeepsOk(s, p);
    case FlushAll => FlushAllKeepsOk(s);
    case Delete(p) => DeleteKeepsOk(s, p);
    case Write(p, data) => WriteKeepsOk(s, p, data);
  }
}

/** The buffer pool manager: frames, page table, free list, disk and replacer, updated in place. */
module BufferPoolManager {
  import opened Types
  import opened AccessLog
  import opened LruKReplacer
  import opened BufferPoolStates
  import opened BufferPoolProofs
  import opened BufferPoolRuns
  import opened BufferPoolHistory

  /** In step but for one frame. */
  ghost predicate InStepBut(log: seq<Event>, s: Pool, f: int) {
    forall g :: g != f ==> (Tracked(log, g) <==> Resident(s, g)) && (Evictable(log, g) <==> Candidate(s, g))
  }

  /** RecordAccess and SetEvictable bring a frame that was made resident, or pinned once more, in step. */
  lemma PinInStep(log: seq<Event>, t: Pool, f: int)
    requires InStepBut(log, t, f) && Resident(t, f) && !Unpinned(t, f)
    ensures InStep(log + [Access(f)] + [SetEvictable(f, false)], t)
  {
    forall g
      ensures Tracked(log + [Access(f)] + [SetEvictable(f, false)], g) <==> Resident(t, g)
      ensures Evictable(log + [Access(f)] + [SetEvictable(f, false)], g) <==> Candidate(t, g)
    {
      Appended(log, Access(f), g);
      Appended(log + [Access(f)], SetEvictable(f, false), g);
    }
  }

  /** Making a page resident in the frame that was taken concerns no other frame. */
  lemma InstalledInStep(log: seq<Event>, t: Pool, f: int, p: int, data: Bytes, next: int)
    requires InStepBut(log, t, f) && Resident(t, f)
    ensures var u := Install(t, f, p, data).(nextPageId := next);
            InStepBut(log, u, f) && Resident(u, f) && !Unpinned(u, f)
  {
    var u := Install(t, f, p, data).(nextPageId := next);
    forall g | g != f
      ensures (Resident(u, g) <==> Resident(t, g)) && (Candidate(u, g) <==> Candidate(t, g))
    {
    }
  }

  /** Popping the free list leaves the popped frame untracked. */
  lemma FreeFrameTaken(log: seq<Event>, s: Pool)
    requires Ok(s) && InStep(log, s) && s.freeList != []
    ensures InStepBut(log, s.(freeList := s.freeList[1..]), s.freeList[0])
  {
    var t := s.(freeList := s.freeList[1..]);
    TailDistinct(s.freeList);
    forall g | g != s.freeList[0]
      ensures (Resident(t, g) <==> Resident(s, g)) && (Candidate(t, g) <==> Candidate(s, g))
    {
    }
  }

  lemma VictimTaken(log: seq<Event>, s: Pool, victim: int)
    requires InStep(log, s) && 0 <= victim < |s.pages|
    ensures InStepBut(log + [Drop(victim)], Evicted(s, victim), victim)
  {
    forall g | g != victim
      ensures (Tracked(log + [Drop(victim)], g) <==> Resident(Evicted(s, victim), g))
      ensures (Evictable(log + [Drop(victim)], g) <==> Candidate(Evicted(s, victim), g))
    {
      Appended(log, Drop(victim), g);
    }
  }

  /** Allocating an id early changes nothing else. */
  lemma NextIdGrows(log: seq<Event>, s: Pool)
    requires Ok(s) && InStep(log, s)
    ensures var t := s.(nextPageId := s.nextPageId + 1);
            Ok(t) && InStep(log, t) && (SomeUnpinned(s) <==> SomeUnpinned(t))
  {
    var t := s.(nextPageId := s.nextPageId + 1);
    assert forall f :: Unpinned(t, f) <==> Unpinned(s, f);
    forall f | 0 <= f < |t.pages|
      ensures FrameOk(t, f)
    {
      assert FrameOk(s, f);
    }
    forall p | p in t.pageTable
      ensures EntryOk(t, p)
    {
      assert EntryOk(s, p);
    }
    forall f
      ensures (Resident(t, f) <==> Resident(s, f)) && (Candidate(t, f) <==> Candidate(s, f))
    {
    }
  }

  lemma UnpinInStep(log: seq<Event>, s: Pool, t: Pool, f: int)
    requires InStep(log, s) && Resident(s, f) && Candidate(t, f)
    requires forall g :: g != f ==> (Resident(t, g) <==> Resident(s, g)) && (Candidate(t, g) <==> Candidate(s, g))
    ensures InStep(log + [SetEvictable(f, true)], t)
  {
    forall g
      ensures Tracked(log + [SetEvictable(f, true)], g) <==> Resident(t, g)
      ensures Evictable(log + [SetEvictable(f, true)], g) <==> Candidate(t, g)
    {
      Appended(log, SetEvictable(f, true), g);
    }
  }

  lemma DropInStep(log: seq<Event>, s: Pool, t: Pool, f: int)
    requires InStep(log, s) && !Resident(t, f)
    requires forall g :: g != f ==> (Resident(t, g) <==> Resident(s, g)) && (Candidate(t, g) <==> Candidate(s, g))
    ensures InStep(log + [Drop(f)], t)
  {
    forall g
      ensures Tracked(log + [Drop(f)], g) <==> Resident(t, g)
      ensures Evictable(log + [Drop(f)], g) <==> Candidate(t, g)
    {
      Appended(log, Drop(f), g);
    }
  }

  class BufferPoolManagerInstance {
    const poolSize: nat
    const pages: array<Page>
    const replacer: LRUKReplacer
    var pageTable: map<int, int>
    var freeList: seq<int>
    var disk: map<int, Bytes>
    var nextPageId: int
    ghost var unsaved: set<int>

    constructor (poolSize: nat, replacerK: nat)
      requires replacerK >= 2
      ensures Valid() && fresh(pages) && fresh(replacer) && Value() == Start(poolSize)
      ensures replacer.k == replacerK && replacer.log == []
    {
      this.poolSize := poolSize;
      pages := new Page[poolSize](i => FreePage());
      replacer := new LRUKReplacer(poolSize, replacerK);
      pageTable, disk, nextPageId, unsaved := map[], map[], 0, {};
      freeList := Range(poolSize);
      new;
      assert pages[..] == Start(poolSize).pages;
      assert InStep(replacer.log, Value()) by {
        forall f
          ensures !Resident(Value(), f)
        {
          assert 0 <= f < poolSize ==> freeList[f] == f;
        }
      }
    }

    ghost function Value(): Pool
      reads this, pages
    {
      Pool(pages[..], pageTable, freeList, disk, nextPageId, unsaved)
    }

    ghost predicate Valid()
      reads this, pages, replacer
    {
      pages.Length == poolSize && replacer.replacerSize == poolSize && replacer.Valid()
      && Ok(Value()) && InStep(replacer.log, Value())
    }

    /** The scan with which NewPgImp and FetchPgImp begin. */
    method HasFreePage() returns (isFreePage: bool)
      requires pages.Length == poolSize
      ensures isFreePage == SomeUnpinned(Value())
    {
      isFreePage := false;
      var i := 0;
      while i < poolSize
        invariant 0 <= i <= poolSize && !isFreePage
        invariant forall j :: 0 <= j < i ==> !Unpinned(Value(), j)
      {
        if pages[i].pinCount == 0 {
          assert Unpinned(Value(), i);
          return true;
        }
        i := i + 1;
      }
    }

    /** Takes a frame for a new resident: the first free one, else the replacer's victim, written back if dirty. */
    method TakeFrame() returns (frame: int, ghost victim: int)
      requires Valid() && SomeUnpinned(Value())
      modifies this, pages, replacer
      ensures pages.Length == poolSize && replacer.Valid()
      ensures NeedsVictim(old(Value())) ==>
                Candidate(old(Value()), victim) && IsVictim(old(replacer.log), replacer.k, victim)
      ensures Value() == WithFrame(old(Value()), victim) && frame == FrameFor(old(Value()), victim)
      ensures InStepBut(replacer.log, Value(), frame)
      ensures replacer.log == old(replacer.log) + Taking(old(Value()), victim)
    {
      ghost var s := Value();
      if freeList != [] {
        FreeFrameTaken(replacer.log, s);
        frame, victim := freeList[0], -1;
        freeList := freeList[1..];
        return;
      }
      ghost var log := replacer.log;
      ghost var unpinned :| Unpinned(s, unpinned);
      UnpinnedIsCandidate(s, unpinned);
      var evicted := replacer.Evict();
      assert Evictable(log, unpinned);
      frame := evicted.value;
      victim := frame;
      assert Candidate(s, victim);
      VictimTaken(log, s, victim);
      var page := pages[frame];
      if page.isDirty {
        disk := disk[page.pageId := page.data];
        page := page.(isDirty := false);
      }
      pages[frame] := page.(data := Zeros());
      pageTable := pageTable - {page.pageId};
      assert pages[..] == Evicted(s, victim).pages;
    }

    /** The last lines of NewPgImp and FetchPgImp. */
    method RecordPin(frame: int)
      requires pages.Length == poolSize == replacer.replacerSize && replacer.Valid()
               && InStepBut(replacer.log, Value(), frame)
      requires Resident(Value(), frame) && !Unpinned(Value(), frame)
      modifies replacer
      ensures replacer.Valid() && InStep(replacer.log, Value())
      ensures replacer.log == old(replacer.log) + Pinning(frame)
    {
      PinInStep(replacer.log, Value(), frame);
      var recorded := replacer.RecordAccess(frame);
      var marked := replacer.SetEvictable(frame, false);
      assert recorded && marked;
    }

    /** Returns the frame of a new page, or None if every frame is pinned. */
    method NewPgImp() returns (page: Option<int>, pageId: int, ghost victim: int)
      requires Valid()
      modifies this, pages, replacer
      ensures Valid()
      ensures Enabled(old(Value()), New(victim)) && Value() == NewPage(old(Value()), victim)
      ensures NeedsVictim(old(Value())) ==> IsVictim(old(replacer.log), replacer.k, victim)
      ensures page == if SomeUnpinned(old(Value())) then Some(FrameFor(old(Value()), victim)) else None
      ensures page.Some? ==> pageId == old(nextPageId)
      ensures replacer.log == old(replacer.log) + Logged(old(Value()), New(victim))
    {
      ghost var s, log := Value(), replacer.log;
      page, pageId, victim := None, INVALID_PAGE_ID, -1;
      var isFreePage := HasFreePage();
      if !isFreePage {
        return;
      }
      NextIdGrows(replacer.log, s);
      pageId := nextPageId;
      nextPageId := nextPageId + 1;
      var frame;
      frame, victim := TakeFrame();
      assert Candidate(s.(nextPageId := pageId + 1), victim) ==> Candidate(s, victim);
      NewFromFrame(frame, pageId, s, victim);
      TakingThenPinning(log, s, New(victim));
      page := Some(frame);
    }

    /** NewPgImp from the insertion into the page table on. */
    method NewFromFrame(frame: int, pageId: int, ghost s: Pool, ghost victim: int)
      requires pages.Length == poolSize == replacer.replacerSize && replacer.Valid()
      requires Ok(s) && SomeUnpinned(s) && Enabled(s, New(victim)) && pageId == s.nextPageId
      requires Value() == WithFrame(s, victim).(nextPageId := pageId + 1) && frame == FrameFor(s, victim)
      requires InStepBut(replacer.log, Value(), frame)
      modifies this, pages, replacer
      ensures Valid() && Value() == NewPage(s, victim)
      ensures replacer.log == old(replacer.log) + Pinning(frame)
    {
      ghost var t := Value();
      FrameTaken(s, victim);
      NewKeepsOk(s, victim);
      InstalledInStep(replacer.log, t, frame, pageId, t.pages[frame].data, pageId + 1);
      pageTable := pageTable[pageId := frame];
      pages[frame] := pages[frame].(pageId := pageId, pinCount := 1);
      assert Value() == Install(t, frame, pageId, t.pages[frame].data).(nextPageId := pageId + 1) == NewPage(s, victim);
      RecordPin(frame);
    }

    /** Returns the frame of the page, or None if it is not resident and every frame is pinned. */
    method FetchPgImp(pageId: int) returns (page: Option<int>, ghost victim: int)
      requires Valid() && 0 <= pageId < nextPageId
      modifies this, pages, replacer
      ensures Valid()
      ensures Enabled(old(Value()), Fetch(pageId, victim)) && Value() == FetchPage(old(Value()), pageId, victim)
      ensures NeedsVictim(old(Value())) && pageId !in old(pageTable) ==> IsVictim(old(replacer.log), replacer.k, victim)
      ensures page == if pageId in old(pageTable) then Some(old(pageTable)[pageId])
                      else if SomeUnpinned(old(Value())) then Some(FrameFor(old(Value()), victim)) else None
      ensures replacer.log == old(replacer.log) + Logged(old(Value()), Fetch(pageId, victim))
    {
      ghost var s, log := Value(), replacer.log;
      page, victim := None, -1;
      if pageId in pageTable {
        var frame := pageTable[pageId];
        PinResident(pageId);
        return Some(frame), victim;
      }
      var isFreePage := HasFreePage();
      if !isFreePage {
        return;
      }
      var frame;
      frame, victim := TakeFrame();
      FetchIntoFrame(frame, pageId, s, victim);
      TakingThenPinning(log, s, Fetch(pageId, victim));
      page := Some(frame);
    }

    /** FetchPgImp for a page that is resident. */
    method PinResident(pageId: int)
      requires Valid() && pageId in pageTable && 0 <= pageId < nextPageId
      modifies pages, replacer
      ensures Valid() && Value() == FetchPage(old(Value()), pageId, -1)
      ensures replacer.log == old(replacer.log) + Pinning(pageTable[pageId])
    {
      ghost var s := Value();
      var frame := pageTable[pageId];
      assert EntryOk(s, pageId) && FrameOk(s, frame);
      FetchKeepsOk(s, pageId, -1);
      pages[frame] := pages[frame].(pinCount := pages[frame].pinCount + 1);
      ghost var t := Value();
      assert t == FetchPage(s, pageId, -1);
      assert InStepBut(replacer.log, t, frame) by {
        forall g | g != frame
          ensures (Resident(t, g) <==> Resident(s, g)) && (Candidate(t, g) <==> Candidate(s, g))
        {
        }
      }
      RecordPin(frame);
    }

    /** FetchPgImp from the insertion into the page table on. */
    method FetchIntoFrame(frame: int, pageId: int, ghost s: Pool, ghost victim: int)
      requires pages.Length == poolSize == replacer.replacerSize && replacer.Valid()
      requires Ok(s) && SomeUnpinned(s) && Enabled(s, Fetch(pageId, victim)) && pageId !in s.pageTable
      requires NeedsVictim(s) ==> Candidate(s, victim)
      requires Value() == WithFrame(s, victim) && frame == FrameFor(s, victim)
      requires InStepBut(replacer.log, Value(), frame)
      modifies this, pages, replacer
      ensures Valid() && Value() == FetchPage(s, pageId, victim)
      ensures replacer.log == old(replacer.log) + Pinning(frame)
    {
      ghost var t := Value();
      FrameTaken(s, victim);
      FetchKeepsOk(s, pageId, victim);
      ghost var data := if pageId in t.disk then t.disk[pageId] else t.pages[frame].data;
      InstalledInStep(replacer.log, t, frame, pageId, data, t.nextPageId);
      pageTable := pageTable[pageId := frame];
      pages[frame] := pages[frame].(pageId := pageId, pinCount := 1);
      if pageId in disk {
        pages[frame] := pages[frame].(data := disk[pageId]);
      }
      assert Value() == Install(t, frame, pageId, data) == FetchPage(s, pageId, victim);
      RecordPin(frame);
    }

    method UnpinPgImp(pageId: int, isDirty: bool) returns (ok: bool)
      requires Valid() && Enabled(Value(), Unpin(pageId, isDirty))
      modifies this, pages, replacer
      ensures Valid() && Value() == UnpinPage(old(Value()), pageId, isDirty) && ok == Pinned(old(Value()), pageId)
      ensures replacer.log == old(replacer.log) + Logged(old(Value()), Unpin(pageId, isDirty))
    {
      if pageId !in pageTable {
        return false;
      }
      var frame := pageTable[pageId];
      assert EntryOk(Value(), pageId);
      if pages[frame].pinCount <= 0 {
        return false;
      }
      UnpinResident(frame, pageId, isDirty);
      return true;
    }

    /** UnpinPgImp for a page that is pinned. */
    method UnpinResident(frame: int, pageId: int, isDirty: bool)
      requires Valid() && Pinned(Value(), pageId) && frame == pageTable[pageId]
               && Enabled(Value(), Unpin(pageId, isDirty))
      modifies this, pages, replacer
      ensures Valid() && Value() == UnpinPage(old(Value()), pageId, isDirty)
      ensures replacer.log == old(replacer.log) + Logged(old(Value()), Unpin(pageId, isDirty))
    {
      ghost var s := Value();
      assert EntryOk(s, pageId) && FrameOk(s, frame);
      UnpinKeepsOk(s, pageId, isDirty);
      if isDirty {
        pages[frame] := pages[frame].(isDirty := isDirty);
        unsaved := unsaved - {pageId};
      }
      pages[frame] := pages[frame].(pinCount := pages[frame].pinCount - 1);
      ghost var t := Value();
      assert t == UnpinPage(s, pageId, isDirty);
      OneFrameChanged(s, t, frame);
      if pages[frame].pinCount == 0 {
        UnpinInStep(replacer.log, s, t, frame);
        var marked := replacer.SetEvictable(frame, true);
        assert marked;
      }
    }

    /** Writes the page to disk if it is resident. The dirty flag stays set. */
    method FlushPgImp(pageId: int) returns (ok: bool)
      requires Valid()
      modifies `disk
      ensures Valid() && Value() == FlushPage(old(Value()), pageId) && ok == (pageId in pageTable)
    {
      ghost var s := Value();
      FlushKeepsOk(s, pageId);
      ResidentIds(s, pageId);
      if pageId == INVALID_PAGE_ID {
        return false;
      }
      if pageId !in pageTable {
        return false;
      }
      assert EntryOk(s, pageId);
      disk := disk[pageId := pages[pageTable[pageId]].data];
      SameFrames(replacer.log, s, Value());
      return true;
    }

    method FlushAllPgsImp()
      requires Valid()
      modifies `disk
      ensures Valid() && Value() == FlushAllPages(old(Value()))
    {
      ghost var s := Value();
      FlushedUpToStart(s);
      var frame := 0;
      while frame < poolSize
        invariant 0 <= frame <= poolSize && Valid() && Value() == s.(disk := FlushedUpTo(s, frame))
      {
        FlushNext(s, frame);
        var ok := FlushPgImp(pages[frame].pageId);
        frame := frame + 1;
      }
      FlushedUpToEnd(s);
    }

    /** Returns false if the page is pinned. */
    method DeletePgImp(pageId: int) returns (ok: bool)
      requires Valid()
      modifies this, pages, replacer
      ensures Valid() && Value() == DeletePage(old(Value()), pageId) && ok == !Pinned(old(Value()), pageId)
      ensures replacer.log == old(replacer.log) + Logged(old(Value()), Delete(pageId))
    {
      ghost var s := Value();
      if pageId !in pageTable {
        return true;
      }
      var frame := pageTable[pageId];
      assert EntryOk(s, pageId) && FrameOk(s, frame);
      if pages[frame].pinCount > 0 {
        return false;
      }
      DeleteKeepsOk(s, pageId);
      ghost var log := replacer.log;
      var removed := replacer.Remove(frame);
      assert removed;
      pages[frame] := FreePage();
      pageTable := pageTable - {pageId};
      freeList := freeList + [frame];
      assert Value() == DeletePage(s, pageId);
      DropInStep(log, s, Value(), frame);
      return true;
    }

    /** A client changes the bytes of a page it has pinned. */
    method WriteData(pageId: int, data: Bytes)
      requires Valid() && Pinned(Value(), pageId)
      modifies this, pages
      ensures Valid() && Value() == WriteBytes(old(Value()), pageId, data)
    {
      ghost var s := Value();
      WriteKeepsOk(s, pageId, data);
      var frame := pageTable[pageId];
      pages[frame] := pages[frame].(data := data);
      unsaved := unsaved + {pageId};
      assert Value() == WriteBytes(s, pageId, data);
      SameFrames(replacer.log, s, Value());
    }
  }

  /** Neither residence nor pins changed. */
  lemma SameFrames(log: seq<Event>, s: Pool, t: Pool)
    requires InStep(log, s) && t.freeList == s.freeList && |t.pages| == |s.pages|
    requires forall f :: 0 <= f < |s.pages| ==> t.pages[f].pinCount == s.pages[f].pinCount
    ensures InStep(log, t)
  {
    forall f
      ensures (Resident(t, f) <==> Resident(s, f)) && (Candidate(t, f) <==> Candidate(s, f))
    {
    }
  }

  lemma OneFrameChanged(s: Pool, t: Pool, f: int)
    requires t.freeList == s.freeList && |t.pages| == |s.pages|
    requires forall g :: 0 <= g < |s.pages| && g != f ==> t.pages[g] == s.pages[g]
    ensures forall g :: g != f ==> (Resident(t, g) <==> Resident(s, g)) && (Candidate(t, g) <==> Candidate(s, g))
    ensures Resident(t, f) <==> Resident(s, f)
  {
  }
}

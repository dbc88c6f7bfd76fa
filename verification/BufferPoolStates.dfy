/** The buffer pool as a state machine over values: frames, page table, free list and disk. */
module BufferPoolStates {

  type Bytes = seq<bv8>

  const PAGE_SIZE := 4096
  const INVALID_PAGE_ID := -1

  function Zeros(): Bytes {
    seq(PAGE_SIZE, _ => 0)
  }

  datatype Page = Page(data: Bytes, pageId: int, pinCount: int, isDirty: bool)

  function FreePage(): Page {
    Page(Zeros(), INVALID_PAGE_ID, 0, false)
  }

  /** `unsaved` holds the pages a client has written without having passed the dirty flag since. */
  datatype Pool = Pool(pages: seq<Page>, pageTable: map<int, int>, freeList: seq<int>, disk: map<int, Bytes>,
                       nextPageId: int, unsaved: set<int>)

  /** A page that was never written to disk reads as zeros. */
  function DiskData(disk: map<int, Bytes>, p: int): Bytes {
    if p in disk then disk[p] else Zeros()
  }

  // ----- The joint invariant -----

  predicate FrameOk(s: Pool, f: int)
    requires 0 <= f < |s.pages|
  {
    var page := s.pages[f];
    if f in s.freeList then page == FreePage()
    else
      && page.pageId in s.pageTable && s.pageTable[page.pageId] == f
      && 0 <= page.pageId < s.nextPageId && page.pinCount >= 0
      && (page.pageId in s.unsaved ==> page.pinCount > 0)
      && (page.pageId in s.unsaved || page.isDirty || page.data == DiskData(s.disk, page.pageId))
  }

  predicate EntryOk(s: Pool, p: int)
    requires p in s.pageTable
  {
    var f := s.pageTable[p];
    0 <= f < |s.pages| && f !in s.freeList && s.pages[f].pageId == p
  }

  predicate Distinct(list: seq<int>) {
    forall i, j :: 0 <= i < j < |list| ==> list[i] != list[j]
  }

  predicate FramesOk(s: Pool) {
    forall f :: 0 <= f < |s.pages| ==> FrameOk(s, f)
  }

  predicate TableOk(s: Pool) {
    forall p :: p in s.pageTable ==> EntryOk(s, p)
  }

  predicate FreeListOk(s: Pool) {
    Distinct(s.freeList) && forall f :: f in s.freeList ==> 0 <= f < |s.pages|
  }

  predicate DiskOk(s: Pool) {
    s.nextPageId >= 0 && forall p :: p in s.disk ==> 0 <= p < s.nextPageId
  }

  predicate UnsavedOk(s: Pool) {
    s.unsaved <= s.pageTable.Keys
  }

  /**
   * Every frame is either on the free list and blank, or holds the one page that the page table maps to
   * it. A page that may be evicted is on disk as it is in memory, unless its dirty flag is set.
   */
  predicate Ok(s: Pool) {
    FramesOk(s) && TableOk(s) && FreeListOk(s) && DiskOk(s) && UnsavedOk(s)
  }

  predicate Resident(s: Pool, f: int) {
    0 <= f < |s.pages| && f !in s.freeList
  }

  predicate Unpinned(s: Pool, f: int) {
    0 <= f < |s.pages| && s.pages[f].pinCount == 0
  }

  predicate SomeUnpinned(s: Pool) {
    exists f :: 0 <= f < |s.pages| && Unpinned(s, f)
  }

  /** A frame that may be evicted. */
  predicate Candidate(s: Pool, f: int) {
    Resident(s, f) && Unpinned(s, f)
  }

  /** The frame a page occupies, if the page is resident. */
  predicate Holds(s: Pool, p: int, f: int) {
    p in s.pageTable && s.pageTable[p] == f && 0 <= f < |s.pages|
  }

  predicate Pinned(s: Pool, p: int) {
    p in s.pageTable && 0 <= s.pageTable[p] < |s.pages| && s.pages[s.pageTable[p]].pinCount > 0
  }

  function PinCount(s: Pool, p: int): int {
    if p in s.pageTable && 0 <= s.pageTable[p] < |s.pages| then s.pages[s.pageTable[p]].pinCount else 0
  }

  /** The logical contents of a page: what its frame holds, else what is on disk, else zeros. */
  function Contents(s: Pool, p: int): Bytes {
    if p in s.pageTable && 0 <= s.pageTable[p] < |s.pages| then s.pages[s.pageTable[p]].data else DiskData(s.disk, p)
  }

  // ----- The operations -----

  predicate NeedsVictim(s: Pool) {
    s.freeList == [] && SomeUnpinned(s)
  }

  /** Evicting a frame: written back if dirty, blanked, and taken out of the page table. */
  function Evicted(s: Pool, victim: int): Pool
    requires 0 <= victim < |s.pages|
  {
    var page := s.pages[victim];
    s.(disk := if page.isDirty then s.disk[page.pageId := page.data] else s.disk,
       pages := s.pages[victim := page.(data := Zeros(), isDirty := false)],
       pageTable := s.pageTable - {page.pageId})
  }

  /** The frame for a new resident: the first free one, else the victim. */
  function FrameFor(s: Pool, victim: int): int {
    if s.freeList != [] then s.freeList[0] else victim
  }

  function WithFrame(s: Pool, victim: int): Pool
    requires s.freeList == [] ==> 0 <= victim < |s.pages|
  {
    if s.freeList != [] then s.(freeList := s.freeList[1..]) else Evicted(s, victim)
  }

  /** Makes a page resident in a frame, pinned once. */
  function Install(s: Pool, f: int, p: int, data: Bytes): Pool
    requires 0 <= f < |s.pages|
  {
    s.(pageTable := s.pageTable[p := f], pages := s.pages[f := s.pages[f].(pageId := p, pinCount := 1, data := data)])
  }

  lemma FrameInRange(s: Pool, victim: int)
    requires FreeListOk(s) && (s.freeList == [] ==> 0 <= victim < |s.pages|)
    ensures 0 <= FrameFor(s, victim) < |s.pages|
  {
    if s.freeList != [] {
      assert s.freeList[0] in s.freeList;
    }
  }

  function NewPage(s: Pool, victim: int): Pool
    requires Ok(s) && (NeedsVictim(s) ==> Candidate(s, victim))
  {
    if !SomeUnpinned(s) then s
    else
      FrameInRange(s, victim);
      var t, f := WithFrame(s, victim), FrameFor(s, victim);
      Install(t, f, s.nextPageId, t.pages[f].data).(nextPageId := s.nextPageId + 1)
  }

  function FetchPage(s: Pool, p: int, victim: int): Pool
    requires Ok(s) && (NeedsVictim(s) && p !in s.pageTable ==> Candidate(s, victim))
  {
    if p in s.pageTable then
      assert EntryOk(s, p);
      var f := s.pageTable[p];
      s.(pages := s.pages[f := s.pages[f].(pinCount := s.pages[f].pinCount + 1)])
    else if !SomeUnpinned(s) then s
    else
      FrameInRange(s, victim);
      var t, f := WithFrame(s, victim), FrameFor(s, victim);
      Install(t, f, p, if p in t.disk then t.disk[p] else t.pages[f].data)
  }

  function UnpinPage(s: Pool, p: int, isDirty: bool): Pool {
    if !Pinned(s, p) then s
    else
      var f := s.pageTable[p];
      s.(pages := s.pages[f := s.pages[f].(pinCount := s.pages[f].pinCount - 1,
                                           isDirty := s.pages[f].isDirty || isDirty)],
         unsaved := if isDirty then s.unsaved - {p} else s.unsaved)
  }

  /** Writes a resident page to disk. Its dirty flag stays as it is. */
  function FlushPage(s: Pool, p: int): Pool {
    if p in s.pageTable && 0 <= s.pageTable[p] < |s.pages|
    then s.(disk := s.disk[p := s.pages[s.pageTable[p]].data])
    else s
  }

  function FlushAllPages(s: Pool): Pool
    requires TableOk(s)
  {
    s.(disk := s.disk + map p | p in s.pageTable :: assert EntryOk(s, p); s.pages[s.pageTable[p]].data)
  }

  function DeletePage(s: Pool, p: int): Pool {
    if p in s.pageTable && 0 <= s.pageTable[p] < |s.pages| && !Pinned(s, p) then
      var f := s.pageTable[p];
      s.(pages := s.pages[f := FreePage()], pageTable := s.pageTable - {p}, freeList := s.freeList + [f])
    else s
  }

  /** A client that has the page pinned changes its bytes in memory. */
  function WriteBytes(s: Pool, p: int, data: Bytes): Pool
    requires Pinned(s, p)
  {
    var f := s.pageTable[p];
    s.(pages := s.pages[f := s.pages[f].(data := data)], unsaved := s.unsaved + {p})
  }

  // ----- Runs -----

  datatype Op =
    | New(victim: int)
    | Fetch(page: int, victim: int)
    | Unpin(page: int, isDirty: bool)
    | Flush(page: int)
    | FlushAll
    | Delete(page: int)
    | Write(page: int, data: Bytes)

  /**
   * What callers promise: only ids that were given out are fetched, only pinned pages are written, and
   * whoever drops the last pin of a page with changes not yet declared passes the dirty flag.
   */
  predicate Enabled(s: Pool, op: Op) {
    match op
    case New(victim) => NeedsVictim(s) ==> Candidate(s, victim)
    case Fetch(p, victim) => 0 <= p < s.nextPageId && (NeedsVictim(s) && p !in s.pageTable ==> Candidate(s, victim))
    case Unpin(p, isDirty) => PinCount(s, p) == 1 && p in s.unsaved ==> isDirty
    case Write(p, _) => Pinned(s, p)
    case _ => true
  }

  function Apply(s: Pool, op: Op): Pool
    requires Ok(s) && Enabled(s, op)
  {
    match op
    case New(victim) => NewPage(s, victim)
    case Fetch(p, victim) => FetchPage(s, p, victim)
    case Unpin(p, isDirty) => UnpinPage(s, p, isDirty)
    case Flush(p) => FlushPage(s, p)
    case FlushAll => FlushAllPages(s)
    case Delete(p) => DeletePage(s, p)
    case Write(p, data) => WriteBytes(s, p, data)
  }
}

/**
 * The policy in terms of the pool alone. What the replacer logs is what the pool hands out, so that the
 * page evicted is the one that LRU-K picks by the times at which each page was handed out.
 */
module BufferPoolHistory {
  import opened AccessLog
  import opened BufferPoolStates
  import opened BufferPoolProofs
  import opened BufferPoolRuns
  import opened BufferPoolLaws

  // ----- What the operations log -----

  function Pinning(f: int): seq<Event> {
    [Access(f), SetEvictable(f, false)]
  }

  function Taking(s: Pool, victim: int): seq<Event> {
    if s.freeList == [] then [Drop(victim)] else []
  }

  /** What an operation appends to the replacer's log. */
  function Logged(s: Pool, op: Op): seq<Event>
    requires Ok(s) && Enabled(s, op)
  {
    match op
    case New(victim) => if SomeUnpinned(s) then Taking(s, victim) + Pinning(FrameFor(s, victim)) else []
    case Fetch(p, victim) =>
      if p in s.pageTable then Pinning(s.pageTable[p])
      else if SomeUnpinned(s) then Taking(s, victim) + Pinning(FrameFor(s, victim))
      else []
    case Unpin(p, _) => if PinCount(s, p) == 1 then [SetEvictable(s.pageTable[p], true)] else []
    case Delete(p) => if p in s.pageTable && PinCount(s, p) == 0 then [Drop(s.pageTable[p])] else []
    case _ => []
  }

  lemma TakingThenPinning(log: seq<Event>, s: Pool, op: Op)
    requires Ok(s) && Enabled(s, op) && TakesFrame(s, op)
    ensures log + Taking(s, op.victim) + Pinning(FrameFor(s, op.victim)) == log + Logged(s, op)
  {
  }

  /** The replacer tracks exactly the resident frames; evictable are those of them that nobody has pinned. */
  ghost predicate InStep(log: seq<Event>, s: Pool) {
    forall f :: (Tracked(log, f) <==> Resident(s, f)) && (Evictable(log, f) <==> Candidate(s, f))
  }

  // ----- When pages were handed out -----

  /** For each resident page the times at which it was handed out since it became resident. */
  datatype History = History(uses: map<int, seq<int>>, clock: int)

  const NO_HISTORY := History(map[], 0)

  /** A page is handed out when its pin count grows. */
  predicate HandedOut(s: Pool, t: Pool, p: int) {
    PinCount(t, p) > PinCount(s, p)
  }

  function UsesOf(h: History, p: int): seq<int> {
    if p in h.uses then h.uses[p] else []
  }

  /** The history after a step from one pool to the next, as an observer of the pools sees it. */
  function Recorded(h: History, s: Pool, t: Pool): History {
    History(map p | p in t.pageTable :: UsesOf(h, p) + (if HandedOut(s, t, p) then [h.clock] else []), h.clock + 1)
  }

  /** The times are in the past and no two pages share one. */
  predicate HistoryOk(h: History, s: Pool) {
    && h.uses.Keys == s.pageTable.Keys
    && (forall p :: p in h.uses ==> h.uses[p] != [])
    && (forall p, t :: p in h.uses && t in h.uses[p] ==> t < h.clock)
    && (forall p, q, t :: p in h.uses && q in h.uses && t in h.uses[p] && t in h.uses[q] ==> p == q)
  }

  function Latest(h: History, p: int): int
    requires p in h.uses && h.uses[p] != []
  {
    h.uses[p][|h.uses[p]| - 1]
  }

  predicate IsUnpinnedPage(s: Pool, p: int) {
    p in s.pageTable && PinCount(s, p) == 0
  }

  predicate FewUses(h: History, k: nat, p: int) {
    |UsesOf(h, p)| < k
  }

  /**
   * The page to evict: the unpinned page with fewer than k uses whose first use is oldest, if there is one;
   * else the unpinned page whose latest use is oldest.
   */
  ghost predicate IsLruK(s: Pool, h: History, k: nat, p: int)
    requires HistoryOk(h, s)
  {
    && IsUnpinnedPage(s, p)
    && if exists q :: IsUnpinnedPage(s, q) && FewUses(h, k, q)
       then FewUses(h, k, p)
            && forall q :: IsUnpinnedPage(s, q) && FewUses(h, k, q) ==> h.uses[p][0] <= h.uses[q][0]
       else forall q :: IsUnpinnedPage(s, q) ==> Latest(h, p) <= Latest(h, q)
  }

  lemma LruKIsUnique(s: Pool, h: History, k: nat, p: int, q: int)
    requires HistoryOk(h, s) && IsLruK(s, h, k, p) && IsLruK(s, h, k, q)
    ensures p == q
  {
    if FewUses(h, k, p) {
      assert h.uses[p][0] in h.uses[p] && h.uses[q][0] in h.uses[q];
    } else {
      assert Latest(h, p) in h.uses[p] && Latest(h, q) in h.uses[q];
    }
  }

  // ----- Log and history agree -----

  predicate SameOrder(x: int, y: int, u: int, v: int) {
    x <= y <==> u <= v
  }

  predicate PageLogged(log: seq<Event>, h: History, s: Pool, p: int)
    requires p in s.pageTable
  {
    |Times(log, s.pageTable[p])| == |UsesOf(h, p)| > 0
  }

  predicate PairLogged(log: seq<Event>, h: History, s: Pool, p: int, q: int)
    requires HistoryOk(h, s) && p in s.pageTable && q in s.pageTable
  {
    && SameOrder(First(log, s.pageTable[p]), First(log, s.pageTable[q]), h.uses[p][0], h.uses[q][0])
    && SameOrder(Last(log, s.pageTable[p]), Last(log, s.pageTable[q]), Latest(h, p), Latest(h, q))
  }

  /** The log has as many accesses of each page's frame as the page had uses, and in the same order. */
  ghost predicate Corresponds(log: seq<Event>, h: History, s: Pool) {
    && HistoryOk(h, s)
    && (forall p :: p in s.pageTable ==> PageLogged(log, h, s, p))
    && (forall p, q :: p in s.pageTable && q in s.pageTable ==> PairLogged(log, h, s, p, q))
  }

  /** The page in the frame the replacer picks is the page to evict. */
  lemma VictimIsLruK(log: seq<Event>, h: History, s: Pool, k: nat, f: int)
    requires Ok(s) && InStep(log, s) && Corresponds(log, h, s) && IsVictim(log, k, f)
    ensures Resident(s, f) && s.pages[f].pageId in s.pageTable && s.pageTable[s.pages[f].pageId] == f
    ensures IsLruK(s, h, k, s.pages[f].pageId)
  {
    assert FrameOk(s, f);
    var p := s.pages[f].pageId;
    forall q | IsUnpinnedPage(s, q)
      ensures Evictable(log, s.pageTable[q]) && (Young(log, k, s.pageTable[q]) <==> FewUses(h, k, q))
    {
      assert EntryOk(s, q) && PageLogged(log, h, s, q);
    }
    forall g | Evictable(log, g)
      ensures 0 <= g < |s.pages| && IsUnpinnedPage(s, s.pages[g].pageId) && s.pageTable[s.pages[g].pageId] == g
    {
      assert FrameOk(s, g);
    }
    forall q | IsUnpinnedPage(s, q)
      ensures PairLogged(log, h, s, p, q)
    {
    }
  }

  // ----- Every step keeps them in agreement -----

  /** Only one page is handed out at a time, and a page that enters is. */
  ghost predicate OneHandedOut(s: Pool, t: Pool) {
    && (forall p, q :: HandedOut(s, t, p) && HandedOut(s, t, q) ==> p == q)
    && (forall p :: p in t.pageTable && p !in s.pageTable ==> HandedOut(s, t, p))
  }

  lemma RecordedOk(h: History, s: Pool, t: Pool)
    requires HistoryOk(h, s) && OneHandedOut(s, t)
    ensures HistoryOk(Recorded(h, s, t), t)
  {
  }

  function OldTimes(log: seq<Event>, s: Pool, p: int): seq<nat> {
    if p in s.pageTable then Times(log, s.pageTable[p]) else []
  }

  /** The accesses of a page's frame after the step: as before, and one more at time `n` if it was handed out. */
  predicate PageStep(log: seq<Event>, after: seq<Event>, s: Pool, t: Pool, n: nat, p: int)
    requires p in t.pageTable
  {
    Times(after, t.pageTable[p]) == OldTimes(log, s, p) + (if HandedOut(s, t, p) then [n] else [])
  }

  lemma PageStaysLogged(log: seq<Event>, after: seq<Event>, h: History, s: Pool, t: Pool, n: nat, p: int)
    requires Corresponds(log, h, s) && OneHandedOut(s, t) && p in t.pageTable && PageStep(log, after, s, t, n, p)
    ensures PageLogged(after, Recorded(h, s, t), t, p)
    ensures var f := t.pageTable[p];
            && First(after, f) == (if p in s.pageTable then First(log, s.pageTable[p]) else n)
            && Last(after, f) == (if HandedOut(s, t, p) then n else Last(log, s.pageTable[p]))
  {
    if p in s.pageTable {
      assert PageLogged(log, h, s, p);
    }
  }

  /** The first and latest use after the step. */
  lemma UsesAfter(h: History, s: Pool, t: Pool, p: int)
    requires HistoryOk(h, s) && OneHandedOut(s, t) && p in t.pageTable
    ensures HistoryOk(Recorded(h, s, t), t)
    ensures var u := Recorded(h, s, t);
            && u.uses[p][0] == (if p in s.pageTable then h.uses[p][0] else h.clock)
            && Latest(u, p) == (if HandedOut(s, t, p) then h.clock else Latest(h, p))
  {
    RecordedOk(h, s, t);
  }

  lemma TimesBounded(log: seq<Event>, h: History, s: Pool, p: int)
    requires Corresponds(log, h, s) && p in s.pageTable
    ensures First(log, s.pageTable[p]) < |log| && Last(log, s.pageTable[p]) < |log|
    ensures h.uses[p][0] < h.clock && Latest(h, p) < h.clock
  {
    assert PageLogged(log, h, s, p);
    var times := Times(log, s.pageTable[p]);
    TimesArePast(log, s.pageTable[p]);
    assert times[0] in times && times[|times| - 1] in times;
    assert h.uses[p][0] in h.uses[p] && Latest(h, p) in h.uses[p];
  }

  lemma PairStaysLogged(log: seq<Event>, after: seq<Event>, h: History, s: Pool, t: Pool, n: nat, p: int, q: int)
    requires Corresponds(log, h, s) && OneHandedOut(s, t) && n >= |log|
    requires p in t.pageTable && PageStep(log, after, s, t, n, p)
    requires q in t.pageTable && PageStep(log, after, s, t, n, q)
    ensures HistoryOk(Recorded(h, s, t), t) && PairLogged(after, Recorded(h, s, t), t, p, q)
  {
    RecordedOk(h, s, t);
    PageStaysLogged(log, after, h, s, t, n, p);
    PageStaysLogged(log, after, h, s, t, n, q);
    UsesAfter(h, s, t, p);
    UsesAfter(h, s, t, q);
    if p in s.pageTable {
      TimesBounded(log, h, s, p);
    }
    if q in s.pageTable {
      TimesBounded(log, h, s, q);
    }
    if p in s.pageTable && q in s.pageTable {
      assert PairLogged(log, h, s, p, q);
    }
  }

  lemma StepKeepsAgreement(log: seq<Event>, after: seq<Event>, h: History, s: Pool, t: Pool, n: nat)
    requires Corresponds(log, h, s) && OneHandedOut(s, t) && n >= |log|
    requires forall p :: p in t.pageTable ==> PageStep(log, after, s, t, n, p)
    ensures Corresponds(after, Recorded(h, s, t), t)
  {
    RecordedOk(h, s, t);
    forall p | p in t.pageTable
      ensures PageLogged(after, Recorded(h, s, t), t, p)
    {
      PageStaysLogged(log, after, h, s, t, n, p);
    }
    forall p, q | p in t.pageTable && q in t.pageTable
      ensures PairLogged(after, Recorded(h, s, t), t, p, q)
    {
      PairStaysLogged(log, after, h, s, t, n, p, q);
    }
  }

  /** What a pinning does to the accesses of any frame. */
  lemma PinningTimes(log: seq<Event>, f: int, g: int)
    ensures Times(log + Pinning(f), g) == if g == f then Times(log, g) + [|log|] else Times(log, g)
  {
    Appended(log, Access(f), g);
    Appended(log + [Access(f)], SetEvictable(f, false), g);
    assert log + Pinning(f) == log + [Access(f)] + [SetEvictable(f, false)];
  }

  lemma TakingTimes(log: seq<Event>, s: Pool, victim: int, g: int)
    ensures Times(log + Taking(s, victim), g) == if s.freeList == [] && g == victim then [] else Times(log, g)
  {
    if s.freeList == [] {
      Appended(log, Drop(victim), g);
    } else {
      assert log + [] == log;
    }
  }

  /** The page an operation hands out, if it hands one out. */
  predicate HandsOut(s: Pool, op: Op, p: int) {
    (TakesFrame(s, op) && p == EnteringPage(s, op)) || (op.Fetch? && op.page in s.pageTable && p == op.page)
  }

  /** The pin count grows of exactly that page. */
  lemma HandedOutIff(s: Pool, op: Op, p: int)
    requires Ok(s) && Enabled(s, op)
    ensures HandedOut(s, Apply(s, op), p) <==> HandsOut(s, op, p)
  {
    StepPins(s, op, p);
  }

  lemma EnteringIsHandedOut(s: Pool, op: Op)
    requires Ok(s) && Enabled(s, op)
    ensures OneHandedOut(s, Apply(s, op))
  {
    var t := Apply(s, op);
    forall p
      ensures HandedOut(s, t, p) <==> HandsOut(s, op, p)
    {
      HandedOutIff(s, op, p);
    }
    if TakesFrame(s, op) {
      FrameTakenResidence(s, op);
    } else if op.Delete? {
      DeletedResidence(s, op.page);
    } else {
      ResidenceUnchanged(s, op);
    }
  }

  lemma FrameTakenLogged(log: seq<Event>, h: History, s: Pool, op: Op, p: int)
    requires Ok(s) && Enabled(s, op) && TakesFrame(s, op) && InStep(log, s) && p in Apply(s, op).pageTable
    ensures PageStep(log, log + Logged(s, op), s, Apply(s, op), |log + Taking(s, op.victim)|, p)
  {
    var f, t := FrameFor(s, op.victim), Apply(s, op);
    var taken := log + Taking(s, op.victim);
    FrameTakenResidence(s, op);
    HandedOutIff(s, op, p);
    assert log + Logged(s, op) == taken + Pinning(f);
    PinningTimes(taken, f, t.pageTable[p]);
    TakingTimes(log, s, op.victim, t.pageTable[p]);
    if s.freeList != [] {
      assert f in s.freeList && !Tracked(log, f);
    }
    if p != EnteringPage(s, op) {
      assert EntryOk(s, p);
      if s.freeList == [] {
        assert FrameOk(s, op.victim);
      }
    }
  }

  lemma OtherStepLogged(log: seq<Event>, s: Pool, op: Op, p: int)
    requires Ok(s) && Enabled(s, op) && !TakesFrame(s, op) && p in Apply(s, op).pageTable
    ensures PageStep(log, log + Logged(s, op), s, Apply(s, op), |log|, p)
  {
    HandedOutIff(s, op, p);
    match op
    case Fetch(q, _) =>
      ResidenceUnchanged(s, op);
      if q in s.pageTable {
        assert EntryOk(s, p) && EntryOk(s, q);
        PinningTimes(log, s.pageTable[q], s.pageTable[p]);
      } else {
        assert log + [] == log;
      }
    case Unpin(q, _) =>
      ResidenceUnchanged(s, op);
      if PinCount(s, q) == 1 {
        Appended(log, SetEvictable(s.pageTable[q], true), s.pageTable[p]);
      } else {
        assert log + [] == log;
      }
    case Delete(q) =>
      DeletedResidence(s, q);
      if q in s.pageTable && PinCount(s, q) == 0 {
        assert EntryOk(s, p) && EntryOk(s, q);
        Appended(log, Drop(s.pageTable[q]), s.pageTable[p]);
      } else {
        assert log + [] == log;
      }
    case _ =>
      ResidenceUnchanged(s, op);
      assert log + [] == log;
  }

  /** What each operation logs keeps log and history in agreement. */
  lemma StepCorresponds(log: seq<Event>, h: History, s: Pool, op: Op)
    requires Ok(s) && Enabled(s, op) && InStep(log, s) && Corresponds(log, h, s)
    ensures Corresponds(log + Logged(s, op), Recorded(h, s, Apply(s, op)), Apply(s, op))
  {
    var t := Apply(s, op);
    var n := if TakesFrame(s, op) then |log + Taking(s, op.victim)| else |log|;
    EnteringIsHandedOut(s, op);
    forall p | p in t.pageTable
      ensures PageStep(log, log + Logged(s, op), s, t, n, p)
    {
      if TakesFrame(s, op) {
        FrameTakenLogged(log, h, s, op, p);
      } else {
        OtherStepLogged(log, s, op, p);
      }
    }
    StepKeepsAgreement(log, log + Logged(s, op), h, s, t, n);
  }

  // ----- Runs -----

  /** At every step that evicts, the page evicted is the one that LRU-K picks by the history of the run. */
  ghost predicate FollowsLruK(s: Pool, ops: seq<Op>, h: History, k: nat)
    requires Ok(s) && Possible(s, ops)
    decreases |ops|
  {
    ops == []
    || (StepKeepsOk(s, ops[0]);
        && HistoryOk(h, s)
        && (TakesFrame(s, ops[0]) && s.freeList == [] ==> IsLruK(s, h, k, s.pages[ops[0].victim].pageId))
        && FollowsLruK(Apply(s, ops[0]), ops[1..], Recorded(h, s, Apply(s, ops[0])), k))
  }

  /** What a client asks for: an operation whose victim, if it has one, is not the client's to choose. */
  function Asked(op: Op): Op {
    match op
    case New(_) => New(-1)
    case Fetch(p, _) => Fetch(p, -1)
    case _ => op
  }

  lemma StepIsDetermined(s: Pool, a: Op, b: Op, h: History, k: nat)
    requires Ok(s) && Enabled(s, a) && Enabled(s, b) && Asked(a) == Asked(b) && HistoryOk(h, s)
    requires TakesFrame(s, a) && s.freeList == [] ==> IsLruK(s, h, k, s.pages[a.victim].pageId)
    requires TakesFrame(s, b) && s.freeList == [] ==> IsLruK(s, h, k, s.pages[b.victim].pageId)
    ensures Apply(s, a) == Apply(s, b)
  {
    if TakesFrame(s, a) && s.freeList == [] {
      LruKIsUnique(s, h, k, s.pages[a.victim].pageId, s.pages[b.victim].pageId);
      assert FrameOk(s, a.victim) && FrameOk(s, b.victim);
    }
  }

  /** The policy leaves no choice: what the clients ask for determines the whole run. */
  lemma {:induction false} RunIsDetermined(s: Pool, a: seq<Op>, b: seq<Op>, h: History, k: nat)
    requires Ok(s) && Possible(s, a) && Possible(s, b) && FollowsLruK(s, a, h, k) && FollowsLruK(s, b, h, k)
    requires |a| == |b| && forall i :: 0 <= i < |a| ==> Asked(a[i]) == Asked(b[i])
    ensures Run(s, a) == Run(s, b)
    decreases |a|
  {
    if a != [] {
      StepKeepsOk(s, a[0]);
      assert Asked(a[0]) == Asked(b[0]);
      StepIsDetermined(s, a[0], b[0], h, k);
      RunIsDetermined(Apply(s, a[0]), a[1..], b[1..], Recorded(h, s, Apply(s, a[0])), k);
    }
  }
}

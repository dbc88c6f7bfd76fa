/** The replacer's two lists and its counters, kept in step with the log of what happened to it. */
module LruKReplacer {
  import opened Types
  import opened AccessLog

  // ----- Lists ordered by a time, newest first -----

  datatype Order = ByFirst | ByLast

  /** The time by which a list is ordered. */
  function Stamp(log: seq<Event>, order: Order, f: int): int {
    if order == ByFirst then First(log, f) else Last(log, f)
  }

  ghost predicate NewestFirst(log: seq<Event>, order: Order, list: seq<int>) {
    forall i, j :: 0 <= i < j < |list| ==> Stamp(log, order, list[i]) > Stamp(log, order, list[j])
  }

  /** Erasing the list node of a frame. */
  function Erase(list: seq<int>, f: int): (out: seq<int>)
    ensures |out| <= |list|
  {
    if list == [] then []
    else if list[0] == f then list[1..]
    else [list[0]] + Erase(list[1..], f)
  }

  lemma {:induction false} EraseMembers(log: seq<Event>, order: Order, list: seq<int>, f: int)
    requires NewestFirst(log, order, list)
    ensures forall g :: g in Erase(list, f) <==> g in list && g != f
  {
    if list != [] {
      assert list == [list[0]] + list[1..];
      EraseMembers(log, order, list[1..], f);
    }
  }

  lemma HeadIsNewest(log: seq<Event>, order: Order, list: seq<int>, g: int)
    requires NewestFirst(log, order, list) && list != [] && g in list[1..]
    ensures Stamp(log, order, list[0]) > Stamp(log, order, g)
  {
    var i :| 0 <= i < |list| - 1 && list[1..][i] == g;
    assert list[i + 1] == g;
  }

  lemma {:induction false} EraseKeepsOrder(log: seq<Event>, order: Order, list: seq<int>, f: int)
    requires NewestFirst(log, order, list)
    ensures NewestFirst(log, order, Erase(list, f))
  {
    if list != [] && list[0] != f {
      EraseKeepsOrder(log, order, list[1..], f);
      EraseMembers(log, order, list[1..], f);
      forall g | g in Erase(list[1..], f)
        ensures Stamp(log, order, list[0]) > Stamp(log, order, g)
      {
        HeadIsNewest(log, order, list, g);
      }
      PushFront(log, order, Erase(list[1..], f), list[0]);
    }
  }

  lemma PushFront(log: seq<Event>, order: Order, list: seq<int>, f: int)
    requires NewestFirst(log, order, list) && forall g :: g in list ==> Stamp(log, order, f) > Stamp(log, order, g)
    ensures NewestFirst(log, order, [f] + list)
  {
    var now := [f] + list;
    forall i, j | 0 <= i < j < |now|
      ensures Stamp(log, order, now[i]) > Stamp(log, order, now[j])
    {
      assert now[j] == list[j - 1] && list[j - 1] in list;
    }
  }

  lemma SameStamps(log: seq<Event>, now: seq<Event>, order: Order, list: seq<int>)
    requires NewestFirst(log, order, list) && forall g :: g in list ==> Stamp(log, order, g) == Stamp(now, order, g)
    ensures NewestFirst(now, order, list)
  {
    forall i, j | 0 <= i < j < |list|
      ensures Stamp(now, order, list[i]) > Stamp(now, order, list[j])
    {
      assert list[i] in list && list[j] in list;
    }
  }

  // ----- The lists and the log -----

  /** The history list holds the frames with fewer than k accesses, newest first access first. */
  ghost predicate HistoryOk(log: seq<Event>, k: nat, list: seq<int>) {
    (forall f :: f in list <==> 0 < |Times(log, f)| < k) && NewestFirst(log, ByFirst, list)
  }

  /** The cache list holds the frames with at least k accesses, newest latest access first. */
  ghost predicate CacheOk(log: seq<Event>, k: nat, list: seq<int>) {
    (forall f :: f in list <==> |Times(log, f)| >= k) && NewestFirst(log, ByLast, list)
  }

  /** Between the two logs at most the frame's history changed. */
  ghost predicate OnlyChanges(log: seq<Event>, now: seq<Event>, f: int) {
    forall g :: g != f ==> Times(now, g) == Times(log, g)
  }

  lemma AppendOnlyChanges(log: seq<Event>, e: Event)
    ensures OnlyChanges(log, log + [e], e.frame)
  {
    forall g | g != e.frame
      ensures Times(log + [e], g) == Times(log, g)
    {
      Appended(log, e, g);
    }
  }

  lemma StampsKept(log: seq<Event>, now: seq<Event>, order: Order, list: seq<int>, f: int)
    requires OnlyChanges(log, now, f) && NewestFirst(log, order, list) && f !in list
    ensures NewestFirst(now, order, list)
  {
    forall g | g in list
      ensures Stamp(log, order, g) == Stamp(now, order, g)
    {
      assert Times(now, g) == Times(log, g);
    }
    SameStamps(log, now, order, list);
  }

  lemma ErasedOrder(log: seq<Event>, now: seq<Event>, order: Order, list: seq<int>, f: int)
    requires OnlyChanges(log, now, f) && NewestFirst(log, order, list)
    ensures NewestFirst(now, order, Erase(list, f))
  {
    EraseMembers(log, order, list, f);
    EraseKeepsOrder(log, order, list, f);
    StampsKept(log, now, order, Erase(list, f), f);
  }

  /** The history list loses a frame that is dropped or reaches k accesses. */
  lemma LeaveHistory(log: seq<Event>, now: seq<Event>, k: nat, list: seq<int>, f: int)
    requires HistoryOk(log, k, list) && OnlyChanges(log, now, f) && !(0 < |Times(now, f)| < k)
    ensures HistoryOk(now, k, Erase(list, f))
  {
    EraseMembers(log, ByFirst, list, f);
    ErasedOrder(log, now, ByFirst, list, f);
  }

  /** The cache list loses a frame that is dropped. */
  lemma LeaveCache(log: seq<Event>, now: seq<Event>, k: nat, list: seq<int>, f: int)
    requires CacheOk(log, k, list) && OnlyChanges(log, now, f) && |Times(now, f)| < k
    ensures CacheOk(now, k, Erase(list, f))
  {
    EraseMembers(log, ByLast, list, f);
    ErasedOrder(log, now, ByLast, list, f);
  }

  /** Erasing a frame that is not there changes nothing. */
  lemma {:induction false} EraseAbsent(list: seq<int>, f: int)
    requires f !in list
    ensures Erase(list, f) == list
  {
    if list != [] {
      EraseAbsent(list[1..], f);
    }
  }

  lemma StampsArePast(log: seq<Event>, order: Order, g: int)
    ensures Stamp(log, order, g) < |log|
  {
    TimesArePast(log, g);
    if Tracked(log, g) {
      assert First(log, g) in Times(log, g) && Last(log, g) in Times(log, g);
    }
  }

  /** The frame that was just accessed goes to the front. */
  lemma NewestToFront(log: seq<Event>, now: seq<Event>, order: Order, list: seq<int>, f: int)
    requires OnlyChanges(log, now, f) && NewestFirst(log, order, list)
    requires Stamp(now, order, f) == |log| && f !in list
    ensures NewestFirst(now, order, [f] + list)
  {
    StampsKept(log, now, order, list, f);
    forall g | g in list
      ensures Stamp(now, order, f) > Stamp(now, order, g)
    {
      assert Times(now, g) == Times(log, g);
      StampsArePast(log, order, g);
    }
    PushFront(now, order, list, f);
  }

  /** The first access puts a frame at the front of the history list. */
  lemma EnterHistory(log: seq<Event>, now: seq<Event>, k: nat, list: seq<int>, f: int)
    requires k >= 2 && HistoryOk(log, k, list) && OnlyChanges(log, now, f) && f !in list
    requires Times(now, f) == [|log|]
    ensures HistoryOk(now, k, [f] + list)
  {
    NewestToFront(log, now, ByFirst, list, f);
  }

  /** Further accesses below k leave it where it is. */
  lemma StayInHistory(log: seq<Event>, now: seq<Event>, k: nat, list: seq<int>, f: int)
    requires HistoryOk(log, k, list) && OnlyChanges(log, now, f) && f in list
    requires Times(now, f) == Times(log, f) + [|log|] && |Times(now, f)| < k
    ensures HistoryOk(now, k, list)
  {
    forall g | g in list
      ensures Stamp(log, ByFirst, g) == Stamp(now, ByFirst, g)
    {
      assert g != f ==> Times(now, g) == Times(log, g);
    }
    SameStamps(log, now, ByFirst, list);
  }

  /** From the k-th access on, every access puts the frame at the front of the cache list. */
  lemma EnterCache(log: seq<Event>, now: seq<Event>, k: nat, list: seq<int>, f: int)
    requires CacheOk(log, k, list) && OnlyChanges(log, now, f)
    requires Times(now, f) == Times(log, f) + [|log|] && |Times(now, f)| >= k
    ensures CacheOk(now, k, [f] + Erase(list, f))
  {
    EraseMembers(log, ByLast, list, f);
    EraseKeepsOrder(log, ByLast, list, f);
    NewestToFront(log, now, ByLast, Erase(list, f), f);
  }

  lemma ListsIgnoreFlags(log: seq<Event>, k: nat, history: seq<int>, cache: seq<int>, f: int, on: bool)
    requires HistoryOk(log, k, history) && CacheOk(log, k, cache)
    ensures HistoryOk(log + [SetEvictable(f, on)], k, history) && CacheOk(log + [SetEvictable(f, on)], k, cache)
  {
    var now := log + [SetEvictable(f, on)];
    forall g
      ensures Times(now, g) == Times(log, g)
    {
      Appended(log, SetEvictable(f, on), g);
    }
    SameStamps(log, now, ByFirst, history);
    SameStamps(log, now, ByLast, cache);
  }

  // ----- What one operation does to both lists -----

  /** Dropping a frame takes it out of the list it is in. */
  lemma DropFromLists(log: seq<Event>, k: nat, history: seq<int>, cache: seq<int>, f: int)
    requires k > 0 && HistoryOk(log, k, history) && CacheOk(log, k, cache)
    ensures HistoryOk(log + [Drop(f)], k, if |Times(log, f)| < k then Erase(history, f) else history)
    ensures CacheOk(log + [Drop(f)], k, if |Times(log, f)| < k then cache else Erase(cache, f))
  {
    var now := log + [Drop(f)];
    AppendOnlyChanges(log, Drop(f));
    Appended(log, Drop(f), f);
    LeaveHistory(log, now, k, history, f);
    LeaveCache(log, now, k, cache, f);
    if |Times(log, f)| < k {
      EraseAbsent(cache, f);
    } else {
      EraseAbsent(history, f);
    }
  }

  function HistoryAfter(history: seq<int>, count: nat, k: nat, f: int): seq<int> {
    if count == k then Erase(history, f) else if count < k && f !in history then [f] + history else history
  }

  function CacheAfter(cache: seq<int>, count: nat, k: nat, f: int): seq<int> {
    if count >= k then [f] + Erase(cache, f) else cache
  }

  lemma HistoryAccess(log: seq<Event>, k: nat, history: seq<int>, f: int)
    requires k >= 2 && HistoryOk(log, k, history)
    ensures HistoryOk(log + [Access(f)], k, HistoryAfter(history, |Times(log, f)| + 1, k, f))
  {
    var now := log + [Access(f)];
    AppendOnlyChanges(log, Access(f));
    Appended(log, Access(f), f);
    if |Times(log, f)| + 1 >= k {
      LeaveHistory(log, now, k, history, f);
      if |Times(log, f)| + 1 > k {
        EraseAbsent(history, f);
      }
    } else if f in history {
      StayInHistory(log, now, k, history, f);
    } else {
      EnterHistory(log, now, k, history, f);
    }
  }

  lemma CacheAccess(log: seq<Event>, k: nat, cache: seq<int>, f: int)
    requires k >= 2 && CacheOk(log, k, cache)
    ensures CacheOk(log + [Access(f)], k, CacheAfter(cache, |Times(log, f)| + 1, k, f))
  {
    var now := log + [Access(f)];
    AppendOnlyChanges(log, Access(f));
    Appended(log, Access(f), f);
    if |Times(log, f)| + 1 >= k {
      EnterCache(log, now, k, cache, f);
    } else {
      LeaveCache(log, now, k, cache, f);
      EraseAbsent(cache, f);
    }
  }

  /** The map from frames to list nodes has exactly the frames of the list. */
  ghost predicate MapsTo(frames: set<int>, list: seq<int>) {
    forall f :: f in frames <==> f in list
  }

  lemma MapAfterErase(log: seq<Event>, order: Order, frames: set<int>, list: seq<int>, f: int)
    requires MapsTo(frames, list) && NewestFirst(log, order, list)
    ensures MapsTo(frames - {f}, Erase(list, f)) && MapsTo(frames + {f}, [f] + Erase(list, f))
  {
    EraseMembers(log, order, list, f);
  }

  // ----- Counters and flags -----

  /** Reading a counter or flag that was never set yields zero or false. */
  function CountOf(counts: map<int, nat>, f: int): nat {
    if f in counts then counts[f] else 0
  }

  predicate FlagOf(flags: map<int, bool>, f: int) {
    f in flags && flags[f]
  }

  function Flagged(flags: map<int, bool>): set<int> {
    set f | f in flags && flags[f]
  }

  ghost predicate CountsOk(log: seq<Event>, counts: map<int, nat>) {
    forall f :: CountOf(counts, f) == |Times(log, f)|
  }

  ghost predicate FlagsOk(log: seq<Event>, flags: map<int, bool>, size: nat) {
    (forall f :: FlagOf(flags, f) <==> Evictable(log, f)) && size == |Flagged(flags)|
  }

  lemma CountsAfter(log: seq<Event>, counts: map<int, nat>, e: Event)
    requires CountsOk(log, counts)
    ensures CountsOk(log + [e], match e
                                case Access(f) => counts[f := CountOf(counts, f) + 1]
                                case Drop(f) => counts[f := 0]
                                case SetEvictable(_, _) => counts)
  {
    forall f
      ensures |Times(log + [e], f)|
           == if e == Access(f) then |Times(log, f)| + 1 else if e == Drop(f) then 0 else |Times(log, f)|
    {
      Appended(log, e, f);
    }
  }

  lemma FlaggedAfter(flags: map<int, bool>, f: int, on: bool)
    ensures |Flagged(flags[f := on])| == |Flagged(flags)| + (if on then 1 else 0) - (if FlagOf(flags, f) then 1 else 0)
  {
    var rest := Flagged(flags) - {f};
    assert Flagged(flags) == if FlagOf(flags, f) then rest + {f} else rest;
    assert Flagged(flags[f := on]) == if on then rest + {f} else rest;
  }

  /** The size counts the evictable frames: it changes exactly when a flag changes, and never drops below zero. */
  lemma FlagsAfter(log: seq<Event>, flags: map<int, bool>, size: nat, e: Event, on: bool)
    requires FlagsOk(log, flags, size) && on == Evictable(log + [e], e.frame)
    ensures FlagOf(flags, e.frame) ==> size > 0
    ensures FlagsOk(log + [e], flags[e.frame := on],
                    size + (if on then 1 else 0) - (if FlagOf(flags, e.frame) then 1 else 0))
  {
    FlaggedAfter(flags, e.frame, on);
    if FlagOf(flags, e.frame) {
      assert e.frame in Flagged(flags);
    }
    forall g | g != e.frame
      ensures Evictable(log + [e], g) <==> FlagOf(flags, g)
    {
      Appended(log, e, g);
    }
  }

  /** The last evictable frame of a list is the oldest. */
  lemma LastIsOldest(log: seq<Event>, order: Order, list: seq<int>, i: nat, g: int, flags: map<int, bool>)
    requires NewestFirst(log, order, list) && i < |list| && g in list && FlagOf(flags, g)
    requires forall j :: i < j < |list| ==> !FlagOf(flags, list[j])
    ensures Stamp(log, order, list[i]) <= Stamp(log, order, g)
  {
  }

  // ----- The whole state -----

  /** The fields of the replacer. The maps from frames to list nodes are modelled as the sets of their keys. */
  datatype State = State(counts: map<int, nat>, history: seq<int>, historyMap: set<int>, cache: seq<int>,
                         cacheMap: set<int>, flags: map<int, bool>, size: nat)

  /** Every list, counter and flag is what the log says. */
  ghost predicate StateOk(log: seq<Event>, k: nat, s: State) {
    && k >= 2
    && CountsOk(log, s.counts) && FlagsOk(log, s.flags, s.size)
    && HistoryOk(log, k, s.history) && CacheOk(log, k, s.cache)
    && MapsTo(s.historyMap, s.history) && MapsTo(s.cacheMap, s.cache)
  }

  /** Forgetting an evictable frame. */
  function Dropped(s: State, k: nat, f: int): State
    requires s.size > 0
  {
    var young := CountOf(s.counts, f) < k;
    State(s.counts[f := 0],
          if young then Erase(s.history, f) else s.history, if young then s.historyMap - {f} else s.historyMap,
          if young then s.cache else Erase(s.cache, f), if young then s.cacheMap else s.cacheMap - {f},
          s.flags[f := false], s.size - 1)
  }

  lemma DroppedOk(log: seq<Event>, k: nat, s: State, f: int)
    requires StateOk(log, k, s) && Evictable(log, f)
    ensures s.size > 0 && StateOk(log + [Drop(f)], k, Dropped(s, k, f))
  {
    Appended(log, Drop(f), f);
    CountsAfter(log, s.counts, Drop(f));
    FlagsAfter(log, s.flags, s.size, Drop(f), false);
    DropFromLists(log, k, s.history, s.cache, f);
    MapAfterErase(log, ByFirst, s.historyMap, s.history, f);
    MapAfterErase(log, ByLast, s.cacheMap, s.cache, f);
  }

  function Accessed(s: State, k: nat, f: int): State {
    var count := CountOf(s.counts, f) + 1;
    State(s.counts[f := count],
          HistoryAfter(s.history, count, k, f), MapAfter(s.historyMap, count < k, count == k, f),
          CacheAfter(s.cache, count, k, f), MapAfter(s.cacheMap, count >= k, false, f),
          s.flags, s.size)
  }

  function MapAfter(frames: set<int>, enters: bool, leaves: bool, f: int): set<int> {
    if enters then frames + {f} else if leaves then frames - {f} else frames
  }

  lemma AccessedOk(log: seq<Event>, k: nat, s: State, f: int)
    requires StateOk(log, k, s)
    ensures StateOk(log + [Access(f)], k, Accessed(s, k, f))
  {
    Appended(log, Access(f), f);
    CountsAfter(log, s.counts, Access(f));
    FlagsUntouched(log, s.flags, s.size, f);
    HistoryAccess(log, k, s.history, f);
    CacheAccess(log, k, s.cache, f);
    MapAfterErase(log, ByFirst, s.historyMap, s.history, f);
    MapAfterErase(log, ByLast, s.cacheMap, s.cache, f);
  }

  function Requested(s: State, f: int, on: bool): State
    requires FlagOf(s.flags, f) ==> s.size > 0
  {
    if CountOf(s.counts, f) == 0 then s
    else s.(flags := s.flags[f := on], size := s.size + (if on then 1 else 0) - (if FlagOf(s.flags, f) then 1 else 0))
  }

  lemma RequestedOk(log: seq<Event>, k: nat, s: State, f: int, on: bool)
    requires StateOk(log, k, s)
    ensures FlagOf(s.flags, f) ==> s.size > 0
    ensures StateOk(log + [Event.SetEvictable(f, on)], k, Requested(s, f, on))
  {
    var e := Event.SetEvictable(f, on);
    Appended(log, e, f);
    CountsAfter(log, s.counts, e);
    ListsIgnoreFlags(log, k, s.history, s.cache, f, on);
    SizeCoversFlag(s.flags, f);
    if CountOf(s.counts, f) == 0 {
      IgnoredRequest(log, s.flags, s.size, f, on);
    } else {
      FlagsAfter(log, s.flags, s.size, e, on);
    }
  }

  lemma NoFlags(flags: map<int, bool>)
    requires |Flagged(flags)| == 0
    ensures forall f :: !FlagOf(flags, f)
  {
    forall f
      ensures !FlagOf(flags, f)
    {
      assert f !in Flagged(flags);
    }
  }

  lemma FlagsUntouched(log: seq<Event>, flags: map<int, bool>, size: nat, f: int)
    requires FlagsOk(log, flags, size)
    ensures FlagsOk(log + [Access(f)], flags, size)
  {
    forall g
      ensures Evictable(log + [Access(f)], g) <==> Evictable(log, g)
    {
      Appended(log, Access(f), g);
    }
  }

  lemma IgnoredRequest(log: seq<Event>, flags: map<int, bool>, size: nat, f: int, on: bool)
    requires FlagsOk(log, flags, size) && !Tracked(log, f)
    ensures FlagsOk(log + [Event.SetEvictable(f, on)], flags, size)
  {
    if Evictable(log, f) {
      EvictableIsTracked(log, f);
    }
    forall g
      ensures Evictable(log + [Event.SetEvictable(f, on)], g) <==> Evictable(log, g)
    {
      Appended(log, Event.SetEvictable(f, on), g);
    }
  }

  lemma YoungVictim(log: seq<Event>, k: nat, s: State, i: nat)
    requires StateOk(log, k, s) && i < |s.history| && FlagOf(s.flags, s.history[i])
    requires forall j :: i < j < |s.history| ==> !FlagOf(s.flags, s.history[j])
    ensures IsVictim(log, k, s.history[i])
  {
    var f := s.history[i];
    assert f in s.history;
    forall g | Evictable(log, g) && Young(log, k, g)
      ensures First(log, f) <= First(log, g)
    {
      EvictableIsTracked(log, g);
      LastIsOldest(log, ByFirst, s.history, i, g, s.flags);
    }
  }

  lemma OldVictim(log: seq<Event>, k: nat, s: State, i: nat)
    requires StateOk(log, k, s) && forall j :: 0 <= j < |s.history| ==> !FlagOf(s.flags, s.history[j])
    requires i < |s.cache| && FlagOf(s.flags, s.cache[i])
    requires forall j :: i < j < |s.cache| ==> !FlagOf(s.flags, s.cache[j])
    ensures IsVictim(log, k, s.cache[i])
  {
    forall g | Evictable(log, g)
      ensures !Young(log, k, g) && Last(log, s.cache[i]) <= Last(log, g)
    {
      EvictableIsTracked(log, g);
      assert g !in s.history;
      LastIsOldest(log, ByLast, s.cache, i, g, s.flags);
    }
  }

  lemma NobodyFlagged(log: seq<Event>, k: nat, s: State)
    requires StateOk(log, k, s)
    requires forall j :: 0 <= j < |s.history| ==> !FlagOf(s.flags, s.history[j])
    requires forall j :: 0 <= j < |s.cache| ==> !FlagOf(s.flags, s.cache[j])
    ensures forall f :: !Evictable(log, f)
  {
    forall f
      ensures !Evictable(log, f)
    {
      if Evictable(log, f) {
        EvictableIsTracked(log, f);
      }
    }
  }

  lemma NotCachedYet(log: seq<Event>, k: nat, s: State, f: int)
    requires StateOk(log, k, s)
    ensures CountOf(s.counts, f) < k ==> f !in s.cache
  {
  }

  lemma FieldsTell(log: seq<Event>, k: nat, s: State, f: int)
    requires StateOk(log, k, s)
    ensures CountOf(s.counts, f) != 0 <==> Tracked(log, f)
    ensures FlagOf(s.flags, f) <==> Evictable(log, f)
  {
  }

  lemma SizeCoversFlag(flags: map<int, bool>, f: int)
    ensures FlagOf(flags, f) ==> |Flagged(flags)| > 0
  {
    assert FlagOf(flags, f) ==> f in Flagged(flags);
  }

  class LRUKReplacer {
    const replacerSize: nat
    const k: nat
    var accessCount: map<int, nat>
    var historyList: seq<int>
    var historyMap: set<int>
    var cacheList: seq<int>
    var cacheMap: set<int>
    var isEvictable: map<int, bool>
    var currSize: nat
    ghost var log: seq<Event>

    constructor (numFrames: nat, k: nat)
      requires k >= 2
      ensures Valid() && log == [] && replacerSize == numFrames && this.k == k
    {
      this.replacerSize, this.k := numFrames, k;
      accessCount, isEvictable, currSize := map[], map[], 0;
      historyList, historyMap, cacheList, cacheMap := [], {}, [], {};
      log := [];
    }

    ghost function Fields(): State
      reads this
    {
      State(accessCount, historyList, historyMap, cacheList, cacheMap, isEvictable, currSize)
    }

    ghost predicate Valid()
      reads this
    {
      StateOk(log, k, Fields())
    }

    /** The position of the last evictable frame of a list, or -1. */
    method FindFromBack(list: seq<int>) returns (i: int)
      ensures -1 <= i < |list| && (i >= 0 ==> FlagOf(isEvictable, list[i]))
      ensures forall j :: i < j < |list| ==> !FlagOf(isEvictable, list[j])
    {
      i := |list| - 1;
      while i >= 0 && !FlagOf(isEvictable, list[i])
        invariant -1 <= i < |list|
        invariant forall j :: i < j < |list| ==> !FlagOf(isEvictable, list[j])
      {
        i := i - 1;
      }
    }

    /** Evicts the victim the log determines, if there is any evictable frame. */
    method Evict() returns (frame: Option<int>)
      requires Valid()
      modifies this
      ensures Valid()
      ensures frame.None? ==> log == old(log) && forall f :: !Evictable(log, f)
      ensures frame.Some? ==> IsVictim(old(log), k, frame.value) && log == old(log) + [Drop(frame.value)]
    {
      if currSize == 0 {
        NoFlags(isEvictable);
        return None;
      }
      var i := FindFromBack(historyList);
      if i >= 0 {
        var f := historyList[i];
        YoungVictim(log, k, Fields(), i);
        Forget(f);
        return Some(f);
      }
      i := FindFromBack(cacheList);
      if i >= 0 {
        var f := cacheList[i];
        OldVictim(log, k, Fields(), i);
        Forget(f);
        return Some(f);
      }
      NobodyFlagged(log, k, Fields());
      return None;
    }

    /** The bookkeeping with which Evict and Remove end. */
    method Forget(f: int)
      requires Valid() && Evictable(log, f)
      modifies this
      ensures Valid() && log == old(log) + [Drop(f)]
    {
      DroppedOk(log, k, Fields(), f);
      Unlink(f);
      log := log + [Drop(f)];
    }

    method Unlink(f: int)
      requires currSize > 0
      modifies `historyList, `historyMap, `cacheList, `cacheMap, `accessCount, `currSize, `isEvictable
      ensures Fields() == old(Dropped(Fields(), k, f))
    {
      if CountOf(accessCount, f) < k {
        historyList := Erase(historyList, f);
        historyMap := historyMap - {f};
      } else {
        cacheList := Erase(cacheList, f);
        cacheMap := cacheMap - {f};
      }
      accessCount := accessCount[f := 0];
      currSize := currSize - 1;
      isEvictable := isEvictable[f := false];
    }

    /** Returns false where it throws; the size itself is accepted as a frame id. */
    method RecordAccess(f: int) returns (ok: bool)
      requires Valid()
      modifies this
      ensures Valid() && ok == (f <= replacerSize)
      ensures log == if ok then old(log) + [Access(f)] else old(log)
    {
      if f > replacerSize {
        return false;
      }
      ghost var before := Fields();
      AccessedOk(log, k, before, f);
      NotCachedYet(log, k, before, f);
      CountAndMove(f);
      log := log + [Access(f)];
      assert Fields() == Accessed(before, k, f);
      return true;
    }

    /** What RecordAccess does to the counter and the lists. */
    method CountAndMove(f: int)
      requires MapsTo(historyMap, historyList) && MapsTo(cacheMap, cacheList)
      requires CountOf(accessCount, f) < k ==> f !in cacheList
      requires CountOf(accessCount, f) + 1 < k ==> (f in historyMap <==> f in historyList)
      modifies this
      ensures Fields() == old(Accessed(Fields(), k, f)) && log == old(log)
    {
      if f !in cacheMap {
        EraseAbsent(cacheList, f);
      }
      accessCount := accessCount[f := CountOf(accessCount, f) + 1];
      if CountOf(accessCount, f) == k {
        historyList := Erase(historyList, f);
        historyMap := historyMap - {f};
        cacheList := [f] + cacheList;
        cacheMap := cacheMap + {f};
      } else if CountOf(accessCount, f) > k {
        if f in cacheMap {
          cacheList := Erase(cacheList, f);
        }
        cacheList := [f] + cacheList;
        cacheMap := cacheMap + {f};
      } else {
        if f !in historyMap {
          historyList := [f] + historyList;
          historyMap := historyMap + {f};
        } else {
          assert historyMap + {f} == historyMap;
        }
      }
    }

    /** Returns false where it throws. A frame without a history is left alone. */
    method SetEvictable(f: int, on: bool) returns (ok: bool)
      requires Valid()
      modifies this
      ensures Valid() && ok == (f <= replacerSize)
      ensures log == if ok then old(log) + [Event.SetEvictable(f, on)] else old(log)
    {
      if f > replacerSize {
        return false;
      }
      ghost var before := Fields();
      RequestedOk(log, k, before, f, on);
      log := log + [Event.SetEvictable(f, on)];
      ok := true;
      if CountOf(accessCount, f) != 0 {
        if !FlagOf(isEvictable, f) && on {
          currSize := currSize + 1;
        }
        if FlagOf(isEvictable, f) && !on {
          currSize := currSize - 1;
        }
        isEvictable := isEvictable[f := on];
      }
      assert Fields() == Requested(before, f, on);
    }

    /** Returns false where it throws: for a frame that has a history and is not evictable. */
    method Remove(f: int) returns (ok: bool)
      requires Valid()
      modifies this
      ensures Valid() && ok == (f <= replacerSize && (Tracked(old(log), f) ==> Evictable(old(log), f)))
      ensures log == if ok && Tracked(old(log), f) then old(log) + [Drop(f)] else old(log)
    {
      FieldsTell(log, k, Fields(), f);
      if f > replacerSize {
        return false;
      }
      if CountOf(accessCount, f) == 0 {
        return true;
      }
      if !FlagOf(isEvictable, f) {
        return false;
      }
      Forget(f);
      return true;
    }

    /** The number of evictable frames. */
    method Size() returns (size: nat)
      requires Valid()
      ensures exists evictable: set<int> :: size == |evictable| && forall f :: f in evictable <==> Evictable(log, f)
    {
      assert forall f :: f in Flagged(isEvictable) <==> FlagOf(isEvictable, f);
      size := currSize;
    }
  }
}

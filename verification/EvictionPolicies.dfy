/** The policies that the replacer's header describes, and when the code keeps them. */
module EvictionPolicies {
  import opened AccessLog

  // ----- The orders the header describes -----

  /** The comment on the class and the comment on Evict disagree about frames with fewer than k accesses. */
  datatype Policy = ClassComment | EvictComment

  /** The time of the k-th previous access. */
  function KthPrevious(log: seq<Event>, k: nat, f: int): int
    requires 0 < k <= |Times(log, f)|
  {
    Times(log, f)[|Times(log, f)| - k]
  }

  /**
   * Largest backward k-distance, which is infinite for fewer than k accesses. Among those, the class
   * promises classical LRU, that is the oldest latest access, and Evict the earliest access overall.
   */
  ghost predicate IsHeaderVictim(policy: Policy, log: seq<Event>, k: nat, f: int)
    requires k > 0
  {
    && Evictable(log, f)
    && if exists g :: Evictable(log, g) && Young(log, k, g)
       then Young(log, k, f) && forall g :: Evictable(log, g) && Young(log, k, g) ==>
              if policy == ClassComment then Last(log, f) <= Last(log, g) else First(log, f) <= First(log, g)
       else !Young(log, k, f)
            && forall g :: Evictable(log, g) && !Young(log, k, g) ==> KthPrevious(log, k, f) <= KthPrevious(log, k, g)
  }

  /** When the last k accesses of a frame began; with fewer accesses, when the first one was. */
  function WindowStart(log: seq<Event>, k: nat, f: int): int
    requires k > 0
  {
    if Young(log, k, f) then First(log, f) else KthPrevious(log, k, f)
  }

  /** The last k accesses of `inner` all lie between the first and the last of those of `outer`. */
  predicate Nested(log: seq<Event>, k: nat, inner: int, outer: int)
    requires k > 0
  {
    WindowStart(log, k, outer) < WindowStart(log, k, inner) && Last(log, inner) < Last(log, outer)
  }

  /** Two frames with a history that the policy orders by its own rule and not by the code's. */
  predicate Ordered(policy: Policy, log: seq<Event>, k: nat, f: int, g: int) {
    && Tracked(log, f) && Tracked(log, g) && (Young(log, k, f) <==> Young(log, k, g))
    && (policy == EvictComment ==> !Young(log, k, f))
  }

  predicate OnlyRequests(flags: seq<Event>) {
    forall e :: e in flags ==> e.SetEvictable?
  }

  /** Whichever frames are made evictable, the victim is the one the header describes. */
  ghost predicate KeepsPolicy(policy: Policy, log: seq<Event>, k: nat)
    requires k > 0
  {
    forall flags, f :: OnlyRequests(flags) && IsVictim(log + flags, k, f) ==> IsHeaderVictim(policy, log + flags, k, f)
  }

  lemma {:induction false} RequestsKeepTimes(log: seq<Event>, flags: seq<Event>, f: int)
    requires OnlyRequests(flags)
    ensures Times(log + flags, f) == Times(log, f)
  {
    if flags == [] {
      assert log + flags == log;
    } else {
      var front, last := flags[..|flags| - 1], flags[|flags| - 1];
      assert flags == front + [last] && last in flags;
      RequestsKeepTimes(log, front, f);
      Appended(log + front, last, f);
      assert log + flags == log + front + [last];
    }
  }

  /** Different frames are never accessed at the same time. */
  lemma TimesDiffer(log: seq<Event>, k: nat, f: int, g: int)
    requires k > 0 && Tracked(log, f) && Tracked(log, g) && f != g
    ensures WindowStart(log, k, f) != WindowStart(log, k, g) && Last(log, f) != Last(log, g)
  {
    TimesAreAccesses(log, f, WindowStart(log, k, f));
    TimesAreAccesses(log, g, WindowStart(log, k, g));
    TimesAreAccesses(log, f, Last(log, f));
    TimesAreAccesses(log, g, Last(log, g));
  }

  /** Without nested windows the victim's window starts and ends before those of the other candidates. */
  lemma VictimFollowsPolicy(policy: Policy, log: seq<Event>, k: nat, f: int)
    requires k > 0 && IsVictim(log, k, f)
    requires forall g, h :: Ordered(policy, log, k, g, h) ==> !Nested(log, k, g, h)
    ensures IsHeaderVictim(policy, log, k, f)
  {
    EvictableIsTracked(log, f);
    forall g | Evictable(log, g) && (Young(log, k, g) <==> Young(log, k, f))
               && (policy == EvictComment ==> !Young(log, k, f))
      ensures Last(log, f) <= Last(log, g) && WindowStart(log, k, f) <= WindowStart(log, k, g)
    {
      EvictableIsTracked(log, g);
      if f != g {
        TimesDiffer(log, k, f, g);
        assert !Nested(log, k, f, g) && !Nested(log, k, g, f);
      }
    }
  }

  predicate Mentions(log: seq<Event>, f: int) {
    exists e :: e in log && e.frame == f
  }

  /** One request for every event, that its frame be held back. */
  function Held(events: seq<Event>): seq<Event> {
    if events == [] then [] else Held(events[..|events| - 1]) + [SetEvictable(events[|events| - 1].frame, false)]
  }

  lemma {:induction false} HeldFrames(log: seq<Event>, events: seq<Event>, f: int)
    ensures OnlyRequests(Held(events))
    ensures Evictable(log + Held(events), f) <==> Evictable(log, f) && !Mentions(events, f)
  {
    if events == [] {
      assert log + Held(events) == log;
    } else {
      var front, last := events[..|events| - 1], events[|events| - 1];
      HeldFrames(log, front, f);
      Appended(log + Held(front), SetEvictable(last.frame, false), f);
      assert log + Held(events) == log + Held(front) + [SetEvictable(last.frame, false)];
      assert events == front + [last];
    }
  }

  lemma {:induction false} EvictableIsMentioned(log: seq<Event>, f: int)
    requires Evictable(log, f)
    ensures Mentions(log, f)
  {
    var front, last := log[..|log| - 1], log[|log| - 1];
    assert log == front + [last];
    if last.frame != f {
      EvictableIsMentioned(front, f);
    } else {
      assert last in log;
    }
  }

  /** Requests after which exactly two frames are evictable. */
  function OnlyTwo(log: seq<Event>, f: int, g: int): seq<Event> {
    Held(log) + [SetEvictable(f, true)] + [SetEvictable(g, true)]
  }

  lemma OnlyTwoEvictable(log: seq<Event>, f: int, g: int, h: int)
    requires Tracked(log, f) && Tracked(log, g)
    ensures OnlyRequests(OnlyTwo(log, f, g)) && (Evictable(log + OnlyTwo(log, f, g), h) <==> h == f || h == g)
  {
    HeldFrames(log, log, h);
    if Evictable(log, h) {
      EvictableIsMentioned(log, h);
    }
    var held := log + Held(log);
    RequestsKeepTimes(log, Held(log), h);
    Appended(held, SetEvictable(f, true), h);
    Appended(held + [SetEvictable(f, true)], SetEvictable(g, true), h);
    assert log + OnlyTwo(log, f, g) == held + [SetEvictable(f, true)] + [SetEvictable(g, true)];
  }

  /** With one window nested in the other and no other candidate, the code and the header part. */
  lemma NestedWindowsPart(policy: Policy, log: seq<Event>, k: nat, inner: int, outer: int)
    requires k > 0 && Ordered(policy, log, k, inner, outer) && Nested(log, k, inner, outer)
    requires forall h :: Evictable(log, h) <==> h == inner || h == outer
    ensures var victim := if Young(log, k, inner) then outer else inner;
            IsVictim(log, k, victim) && !IsHeaderVictim(policy, log, k, victim)
  {
    assert Evictable(log, inner) && Evictable(log, outer);
  }

  /**
   * The order of the header is kept, whichever frames are made evictable, exactly if no two windows are
   * nested: of frames with k accesses for Evict's comment, and also of frames with fewer for the class's.
   */
  lemma PolicyKeptIff(policy: Policy, log: seq<Event>, k: nat)
    requires k > 0
    ensures KeepsPolicy(policy, log, k) <==> forall f, g :: Ordered(policy, log, k, f, g) ==> !Nested(log, k, f, g)
  {
    if forall f, g :: Ordered(policy, log, k, f, g) ==> !Nested(log, k, f, g) {
      forall flags, f | OnlyRequests(flags) && IsVictim(log + flags, k, f)
        ensures IsHeaderVictim(policy, log + flags, k, f)
      {
        forall g
          ensures Times(log + flags, g) == Times(log, g)
        {
          RequestsKeepTimes(log, flags, g);
        }
        forall g, h | Ordered(policy, log + flags, k, g, h)
          ensures !Nested(log + flags, k, g, h)
        {
          assert Ordered(policy, log, k, g, h);
        }
        VictimFollowsPolicy(policy, log + flags, k, f);
      }
    } else {
      var inner, outer :| Ordered(policy, log, k, inner, outer) && Nested(log, k, inner, outer);
      PolicyBroken(policy, log, k, inner, outer);
    }
  }

  lemma PolicyBroken(policy: Policy, log: seq<Event>, k: nat, inner: int, outer: int)
    requires k > 0 && Ordered(policy, log, k, inner, outer) && Nested(log, k, inner, outer)
    ensures !KeepsPolicy(policy, log, k)
  {
    var flags := OnlyTwo(log, inner, outer);
    OnlyTwoEvictable(log, inner, outer, inner);
    forall h
      ensures Evictable(log + flags, h) <==> h == inner || h == outer
    {
      OnlyTwoEvictable(log, inner, outer, h);
    }
    RequestsKeepTimes(log, flags, inner);
    RequestsKeepTimes(log, flags, outer);
    NestedWindowsPart(policy, log + flags, k, inner, outer);
  }

  /** Two frames with two accesses each, those of one between those of the other. */
  const INTERLEAVED := [Access(1), Access(2), Access(2), Access(1), SetEvictable(1, true), SetEvictable(2, true)]

  /** Frame 1 was used first, and also last. */
  const FIRST_AND_LAST := [Access(1), Access(2), Access(1), SetEvictable(1, true), SetEvictable(2, true)]

  lemma InterleavedTimes(f: int)
    ensures Times(INTERLEAVED, f) == if f == 1 then [0, 3] else if f == 2 then [1, 2] else []
    ensures Evictable(INTERLEAVED, f) <==> f == 1 || f == 2
  {
    var l: seq<Event> := [];
    Appended(l, Access(1), f);
    l := l + [Access(1)];
    Appended(l, Access(2), f);
    l := l + [Access(2)];
    Appended(l, Access(2), f);
    l := l + [Access(2)];
    Appended(l, Access(1), f);
    l := l + [Access(1)];
    Appended(l, SetEvictable(1, true), f);
    l := l + [SetEvictable(1, true)];
    Appended(l, SetEvictable(2, true), f);
    assert l + [SetEvictable(2, true)] == INTERLEAVED;
  }

  /** With two accesses each and k = 2, frame 2 is evicted; by either comment it should be frame 1. */
  lemma HeaderOrderIsNotKept(policy: Policy)
    ensures IsVictim(INTERLEAVED, 2, 2) && !IsHeaderVictim(policy, INTERLEAVED, 2, 2)
    ensures IsHeaderVictim(policy, INTERLEAVED, 2, 1)
  {
    InterleavedTimes(1);
    InterleavedTimes(2);
    forall f | Evictable(INTERLEAVED, f)
      ensures f == 1 || f == 2
    {
      InterleavedTimes(f);
    }
    assert KthPrevious(INTERLEAVED, 2, 1) == 0 && KthPrevious(INTERLEAVED, 2, 2) == 1;
  }

  lemma FirstAndLastTimes(f: int)
    ensures Times(FIRST_AND_LAST, f) == if f == 1 then [0, 2] else if f == 2 then [1] else []
    ensures Evictable(FIRST_AND_LAST, f) <==> f == 1 || f == 2
  {
    var l: seq<Event> := [];
    Appended(l, Access(1), f);
    l := l + [Access(1)];
    Appended(l, Access(2), f);
    l := l + [Access(2)];
    Appended(l, Access(1), f);
    l := l + [Access(1)];
    Appended(l, SetEvictable(1, true), f);
    l := l + [SetEvictable(1, true)];
    Appended(l, SetEvictable(2, true), f);
    assert l + [SetEvictable(2, true)] == FIRST_AND_LAST;
  }

  /** With fewer than k accesses frame 1 is evicted, as the comment on Evict says; classical LRU evicts frame 2. */
  lemma ClassicalLruIsNotKept()
    ensures IsVictim(FIRST_AND_LAST, 3, 1) && IsHeaderVictim(EvictComment, FIRST_AND_LAST, 3, 1)
    ensures !IsHeaderVictim(ClassComment, FIRST_AND_LAST, 3, 1) && IsHeaderVictim(ClassComment, FIRST_AND_LAST, 3, 2)
  {
    FirstAndLastTimes(1);
    FirstAndLastTimes(2);
    forall f | Evictable(FIRST_AND_LAST, f)
      ensures f == 1 || f == 2
    {
      FirstAndLastTimes(f);
    }
  }
}

/** What the LRU-K policy means, as functions of the log of everything that happened to the replacer. */
module AccessLog {

  /** Drop is an eviction or a removal; both forget the frame's history. */
  datatype Event = Access(frame: int) | SetEvictable(frame: int, on: bool) | Drop(frame: int)

  /** When the frame was accessed since it was last dropped, oldest first. Time is the position in the log. */
  function Times(log: seq<Event>, f: int): seq<nat> {
    if log == [] then []
    else
      var front, last := log[..|log| - 1], log[|log| - 1];
      if last == Access(f) then Times(front, f) + [|front|]
      else if last == Drop(f) then []
      else Times(front, f)
  }

  /** The last request for a frame with a history counts; requests for other frames are ignored. */
  predicate Evictable(log: seq<Event>, f: int) {
    if log == [] then false
    else
      var front, last := log[..|log| - 1], log[|log| - 1];
      if last == Drop(f) then false
      else if last.SetEvictable? && last.frame == f then last.on && Times(front, f) != []
      else Evictable(front, f)
  }

  predicate Tracked(log: seq<Event>, f: int) {
    Times(log, f) != []
  }

  predicate Young(log: seq<Event>, k: nat, f: int) {
    |Times(log, f)| < k
  }

  function First(log: seq<Event>, f: int): int {
    if Tracked(log, f) then Times(log, f)[0] else -1
  }

  function Last(log: seq<Event>, f: int): int {
    if Tracked(log, f) then Times(log, f)[|Times(log, f)| - 1] else -1
  }

  /**
   * The frame the replacer must evict: the evictable frame with fewer than k accesses whose first access is
   * oldest, if there is one; else the evictable frame whose latest access is oldest.
   */
  ghost predicate IsVictim(log: seq<Event>, k: nat, f: int) {
    && Evictable(log, f)
    && if exists g :: Evictable(log, g) && Young(log, k, g)
       then Young(log, k, f) && forall g :: Evictable(log, g) && Young(log, k, g) ==> First(log, f) <= First(log, g)
       else forall g :: Evictable(log, g) ==> Last(log, f) <= Last(log, g)
  }

  // ----- Facts about logs -----

  lemma Appended(log: seq<Event>, e: Event, f: int)
    ensures Times(log + [e], f) ==
            if e == Access(f) then Times(log, f) + [|log|] else if e == Drop(f) then [] else Times(log, f)
    ensures Evictable(log + [e], f) <==>
            if e == Drop(f) then false
            else if e.SetEvictable? && e.frame == f then e.on && Tracked(log, f)
            else Evictable(log, f)
  {
    assert (log + [e])[..|log|] == log;
  }

  lemma {:induction false} TimesArePast(log: seq<Event>, f: int)
    ensures forall t :: t in Times(log, f) ==> t < |log|
    ensures forall i, j :: 0 <= i < j < |Times(log, f)| ==> Times(log, f)[i] < Times(log, f)[j]
  {
    if log != [] {
      var front := log[..|log| - 1];
      TimesArePast(front, f);
      forall i | 0 <= i < |Times(front, f)|
        ensures Times(front, f)[i] < |front|
      {
        assert Times(front, f)[i] in Times(front, f);
      }
    }
  }

  lemma {:induction false} TimesAreAccesses(log: seq<Event>, f: int, t: nat)
    requires t in Times(log, f)
    ensures t < |log| && log[t] == Access(f)
  {
    TimesArePast(log, f);
    var front := log[..|log| - 1];
    if t in Times(front, f) {
      TimesAreAccesses(front, f, t);
    }
  }

  lemma {:induction false} EvictableIsTracked(log: seq<Event>, f: int)
    requires Evictable(log, f)
    ensures Tracked(log, f)
  {
    var front, last := log[..|log| - 1], log[|log| - 1];
    if !(last.SetEvictable? && last.frame == f) {
      EvictableIsTracked(front, f);
    }
  }

  /** The policy leaves no choice. */
  lemma VictimIsUnique(log: seq<Event>, k: nat, f: int, g: int)
    requires IsVictim(log, k, f) && IsVictim(log, k, g)
    ensures f == g
  {
    EvictableIsTracked(log, f);
    EvictableIsTracked(log, g);
    if Young(log, k, f) {
      TimesAreAccesses(log, f, First(log, f));
      TimesAreAccesses(log, g, First(log, g));
    } else {
      TimesAreAccesses(log, f, Last(log, f));
      TimesAreAccesses(log, g, Last(log, g));
    }
  }
}

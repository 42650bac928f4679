/** The tenant check of the request middleware: a five-minute cache in front of the business table. */
module Suspension {
  import opened Utils

  const CACHE_TTL_MS := 300_000

  datatype Mark = Active | Suspended

  datatype Entry = Entry(mark: Mark, expires: int)

  datatype Verdict = Admitted | TenantNotFound | TenantSuspended

  // ---- Requests handled one at a time ------------------------------------------------------------

  datatype World = World(businesses: map<string, bool>, cache: map<string, Entry>, now: int)

  datatype Event =
    | Request(id: string)
    | Suspend(id: string)
    | Unsuspend(id: string)
    | Delete(id: string)
    | Evict(id: string)
    | Wait(ms: nat)

  predicate Cached(w: World, id: string) {
    id in w.cache && w.now < w.cache[id].expires
  }

  /** The decision without any cache. */
  function Direct(businesses: map<string, bool>, id: string): Verdict {
    if id !in businesses then TenantNotFound else if businesses[id] then Admitted else TenantSuspended
  }

  function Check(w: World, id: string): Verdict {
    if Cached(w, id) then (if w.cache[id].mark == Suspended then TenantSuspended else Admitted)
    else Direct(w.businesses, id)
  }

  /** An administrator's command on a business that does not exist throws before the cache is touched. */
  function Apply(w: World, e: Event): World {
    match e
    case Request(id) =>
      if !Cached(w, id) && Direct(w.businesses, id) == Admitted
      then w.(cache := w.cache[id := Entry(Active, w.now + CACHE_TTL_MS)])
      else w
    case Suspend(id) =>
      if id !in w.businesses then w
      else w.(businesses := w.businesses[id := false], cache := w.cache[id := Entry(Suspended, w.now + CACHE_TTL_MS)])
    case Unsuspend(id) =>
      if id !in w.businesses then w else w.(businesses := w.businesses[id := true], cache := w.cache - {id})
    case Delete(id) =>
      if id !in w.businesses then w else w.(businesses := w.businesses - {id}, cache := w.cache - {id})
    case Evict(id) => w.(cache := w.cache - {id})
    case Wait(ms) => w.(now := w.now + ms)
  }

  function Run(w: World, events: seq<Event>): World {
    if events == [] then w else Apply(Run(w, events[..|events| - 1]), events[|events| - 1])
  }

  class TenantScope {
    var businesses: map<string, bool>
    var cache: map<string, Entry>
    var now: int

    ghost function Snapshot(): World
      reads this
    {
      World(businesses, cache, now)
    }

    method CheckTenant(id: string) returns (verdict: Verdict)
      modifies `cache
      ensures verdict == old(Check(Snapshot(), id))
      ensures Snapshot() == Apply(old(Snapshot()), Request(id))
    {
      if id !in cache || cache[id].expires <= now {
        if id !in businesses {
          return TenantNotFound;
        }
        if !businesses[id] {
          return TenantSuspended;
        }
        cache := cache[id := Entry(Active, now + CACHE_TTL_MS)];
      } else if cache[id].mark == Suspended {
        return TenantSuspended;
      }
      return Admitted;
    }

    method SuspendTenant(id: string) returns (ok: bool)
      modifies this
      ensures ok == (id in old(businesses)) && Snapshot() == Apply(old(Snapshot()), Suspend(id))
    {
      if id !in businesses {
        return false;
      }
      businesses := businesses[id := false];
      cache := cache[id := Entry(Suspended, now + CACHE_TTL_MS)];
      return true;
    }

    method UnsuspendTenant(id: string) returns (ok: bool)
      modifies this
      ensures ok == (id in old(businesses)) && Snapshot() == Apply(old(Snapshot()), Unsuspend(id))
    {
      if id !in businesses {
        return false;
      }
      businesses := businesses[id := true];
      cache := cache - {id};
      return true;
    }

    method DeleteTenant(id: string) returns (ok: bool)
      modifies this
      ensures ok == (id in old(businesses)) && Snapshot() == Apply(old(Snapshot()), Delete(id))
    {
      if id !in businesses {
        return false;
      }
      businesses := businesses - {id};
      cache := cache - {id};
      return true;
    }
  }

  /** Every cached mark, expired or not, is what the table says. */
  ghost predicate Coherent(w: World) {
    forall id :: id in w.cache ==>
      id in w.businesses && w.cache[id].mark == (if w.businesses[id] then Active else Suspended)
  }

  /** Over any run of whole requests and commands, the cache never changes a decision. */
  lemma {:induction false} CacheIsInvisible(w: World, events: seq<Event>)
    requires Coherent(w)
    ensures Coherent(Run(w, events))
    ensures forall id :: Check(Run(w, events), id) == Direct(Run(w, events).businesses, id)
  {
    if events != [] {
      CacheIsInvisible(w, events[..|events| - 1]);
    }
  }

  /** What a request is told is what the table says of the business. */
  lemma VerdictIff(w: World, id: string)
    requires Coherent(w)
    ensures Check(w, id) == Admitted <==> id in w.businesses && w.businesses[id]
    ensures Check(w, id) == TenantSuspended <==> id in w.businesses && !w.businesses[id]
    ensures Check(w, id) == TenantNotFound <==> id !in w.businesses
  {
  }

  /** Each command takes effect for the very next request: out after a suspension, back in after an unsuspension,
      unknown after a deletion; no command changes the verdict on another business. */
  lemma CommandsTakeEffect(w: World, id: string, other: string)
    requires Coherent(w) && id in w.businesses && other != id
    ensures Check(Apply(w, Suspend(id)), id) == TenantSuspended
    ensures Check(Apply(w, Unsuspend(id)), id) == Admitted
    ensures Check(Apply(w, Delete(id)), id) == TenantNotFound
    ensures forall e :: e in {Suspend(id), Unsuspend(id), Delete(id)} ==> Check(Apply(w, e), other) == Check(w, other)
  {
  }

  /** A suspension outlives its mark in the cache: five minutes on, the verdict is the same. */
  lemma MarkExpires(w: World, id: string)
    requires Coherent(w) && id in w.businesses
    ensures var s := Apply(w, Suspend(id));
      && (forall ms: nat :: Cached(Apply(s, Wait(ms)), id) <==> ms < 300_000)
      && (forall ms: nat :: Check(Apply(s, Wait(ms)), id) == TenantSuspended)
  {
  }

  /** The answer to an admitted request that found nothing cached is kept for five minutes. */
  lemma AdmissionIsCached(w: World, id: string, ms: nat)
    requires id in w.businesses && w.businesses[id] && !Cached(w, id)
    ensures Cached(Apply(Apply(w, Request(id)), Wait(ms)), id) <==> ms < 300_000
  {
  }

  /** Once a suspension has finished nothing is admitted until an unsuspension, whatever entries expire or are
      evicted. */
  lemma {:induction false} SuspendedStaysOut(w: World, id: string, events: seq<Event>)
    requires Coherent(w) && id in w.businesses && Unsuspend(id) !in events
    ensures Check(Run(Apply(w, Suspend(id)), events), id) != Admitted
    ensures Coherent(Apply(w, Suspend(id)))
  {
    StaysInactive(Apply(w, Suspend(id)), id, events);
    CacheIsInvisible(Apply(w, Suspend(id)), events);
  }

  lemma {:induction false} StaysInactive(w: World, id: string, events: seq<Event>)
    requires Direct(w.businesses, id) != Admitted && Unsuspend(id) !in events
    ensures Direct(Run(w, events).businesses, id) != Admitted
  {
    if events != [] {
      StaysInactive(w, id, events[..|events| - 1]);
      assert events[|events| - 1] in events;
    }
  }

  // ---- Requests interleaved with a suspension ----------------------------------------------------

  /** A cached line of one tenant; an active one remembers the table read it was filled from and when it was filled. */
  datatype Line =
    | ActiveLine(expires: int, readStep: nat, readAt: int, filledAt: int)
    | SuspendedLine(expires: int)

  datatype Phase = Asking | Missed | ReadActive(step: nat, at: int) | Done

  /** A request let through at some time, with the table read it relies on. */
  datatype Admission = Admission(request: nat, at: int, readStep: nat, readAt: int, filledAt: int)

  datatype System = System(
    active: bool,
    line: Option<Line>,
    requests: map<nat, Phase>,
    now: int,
    step: nat,
    admitted: seq<Admission>)

  datatype Action =
    | Arrive(r: nat)
    | LookUp(r: nat)
    | Query(r: nat)
    | Fill(r: nat)
    | SuspendRow
    | MarkSuspended
    | UnsuspendRow
    | Invalidate
    | Expire
    | Tick(ms: nat)

  predicate In(s: System, r: nat, p: Phase) {
    r in s.requests && s.requests[r] == p
  }

  function Move(s: System, r: nat, p: Phase): System {
    s.(requests := s.requests[r := p])
  }

  function Live(s: System): Option<Line> {
    if s.line.Some? && s.now < s.line.value.expires then s.line else None
  }

  /** One step; an action whose request is not at that step does nothing. */
  function Effect(s: System, a: Action): System {
    match a
    case Arrive(r) => if r in s.requests then s else Move(s, r, Asking)
    case LookUp(r) =>
      if !In(s, r, Asking) then s
      else (match Live(s)
            case None => Move(s, r, Missed)
            case Some(SuspendedLine(_)) => Move(s, r, Done)
            case Some(ActiveLine(_, readStep, readAt, filledAt)) =>
              Move(s, r, Done).(admitted := s.admitted + [Admission(r, s.now, readStep, readAt, filledAt)]))
    case Query(r) =>
      if !In(s, r, Missed) then s else Move(s, r, if s.active then ReadActive(s.step, s.now) else Done)
    case Fill(r) =>
      if r in s.requests && s.requests[r].ReadActive? then
        var p := s.requests[r];
        Move(s, r, Done).(
          line := Some(ActiveLine(s.now + CACHE_TTL_MS, p.step, p.at, s.now)),
          admitted := s.admitted + [Admission(r, s.now, p.step, p.at, s.now)])
      else s
    case SuspendRow => s.(active := false)
    case MarkSuspended => s.(line := Some(SuspendedLine(s.now + CACHE_TTL_MS)))
    case UnsuspendRow => s.(active := true)
    case Invalidate => s.(line := None)
    case Expire => s.(line := None)
    case Tick(ms) => s.(now := s.now + ms)
  }

  function Act(s: System, a: Action): System {
    Effect(s, a).(step := s.step + 1)
  }

  function Acts(s: System, actions: seq<Action>): System {
    if actions == [] then s else Act(Acts(s, actions[..|actions| - 1]), actions[|actions| - 1])
  }

  function Start(active: bool, now: int): System {
    System(active, None, map[], now, 0, [])
  }

  ghost predicate Timely(a: Admission, s: System) {
    a.readStep < s.step && a.readAt <= a.filledAt <= a.at < a.filledAt + CACHE_TTL_MS
  }

  /** What the timestamps of every reachable state satisfy. */
  ghost predicate WellTimed(s: System) {
    && (forall r :: r in s.requests && s.requests[r].ReadActive? ==>
          s.requests[r].step < s.step && s.requests[r].at <= s.now)
    && (s.line.Some? && s.line.value.ActiveLine? ==>
          var l := s.line.value;
          l.readStep < s.step && l.readAt <= l.filledAt <= s.now && l.expires == l.filledAt + CACHE_TTL_MS)
    && (forall k :: 0 <= k < |s.admitted| ==> Timely(s.admitted[k], s))
  }

  lemma StepKeepsTimes(s: System, a: Action)
    requires WellTimed(s)
    ensures WellTimed(Act(s, a)) && s.admitted <= Act(s, a).admitted
  {
    var t := Act(s, a);
    forall k | 0 <= k < |t.admitted| ensures Timely(t.admitted[k], t) {
      if k < |s.admitted| {
        assert t.admitted[k] == s.admitted[k];
      }
    }
  }

  lemma {:induction false} RunKeepsTimes(s: System, actions: seq<Action>)
    requires WellTimed(s)
    ensures WellTimed(Acts(s, actions)) && s.admitted <= Acts(s, actions).admitted
    ensures Acts(s, actions).step == s.step + |actions|
  {
    if actions != [] {
      RunKeepsTimes(s, actions[..|actions| - 1]);
      StepKeepsTimes(Acts(s, actions[..|actions| - 1]), actions[|actions| - 1]);
    }
  }

  /** The row is inactive, and everything that could still admit someone rests on a read made before the cut. */
  ghost predicate OnlyOldReads(s: System, cut: nat, since: int, n: nat) {
    && !s.active
    && (forall r :: r in s.requests && s.requests[r].ReadActive? ==>
          s.requests[r].step < cut && s.requests[r].at <= since)
    && (s.line.Some? && s.line.value.ActiveLine? ==> s.line.value.readStep < cut && s.line.value.readAt <= since)
    && (forall k :: n <= k < |s.admitted| ==> s.admitted[k].readStep < cut && s.admitted[k].readAt <= since)
  }

  lemma StepKeepsOldReads(s: System, a: Action, cut: nat, since: int, n: nat)
    requires OnlyOldReads(s, cut, since, n) && a != UnsuspendRow
    ensures OnlyOldReads(Act(s, a), cut, since, n)
  {
    var t := Act(s, a);
    forall k | n <= k < |t.admitted| ensures t.admitted[k].readStep < cut && t.admitted[k].readAt <= since {
      if k < |s.admitted| {
        assert t.admitted[k] == s.admitted[k];
      }
    }
  }

  lemma {:induction false} OldReadsStay(s: System, actions: seq<Action>, cut: nat, since: int, n: nat)
    requires OnlyOldReads(s, cut, since, n) && UnsuspendRow !in actions
    ensures OnlyOldReads(Acts(s, actions), cut, since, n)
  {
    if actions != [] {
      OldReadsStay(s, actions[..|actions| - 1], cut, since, n);
      assert actions[|actions| - 1] in actions;
      hide OnlyOldReads, Act;
      StepKeepsOldReads(Acts(s, actions[..|actions| - 1]), actions[|actions| - 1], cut, since, n);
    }
  }

  /**
   * After the row is marked inactive, and until it is marked active again, only requests resting on a
   * table read made before the suspension are let through, and each of them less than five minutes
   * after that read was put in the cache.
   */
  lemma OnlyEarlierReadsAdmit(active: bool, now: int, before: seq<Action>, after: seq<Action>)
    requires UnsuspendRow !in after
    ensures var s := Acts(Start(active, now), before);
      var t := Acts(Act(s, SuspendRow), after);
      && s.admitted <= t.admitted
      && forall k :: |s.admitted| <= k < |t.admitted| ==>
           var a := t.admitted[k];
           a.readStep < |before| && a.readAt <= s.now && a.filledAt <= a.at < a.filledAt + CACHE_TTL_MS
  {
    var s := Acts(Start(active, now), before);
    RunKeepsTimes(Start(active, now), before);
    StepKeepsTimes(s, SuspendRow);
    RunKeepsTimes(Act(s, SuspendRow), after);
    OldReadsStay(Act(s, SuspendRow), after, |before|, s.now, |s.admitted|);
    var t := Acts(Act(s, SuspendRow), after);
    forall k | |s.admitted| <= k < |t.admitted|
      ensures t.admitted[k].filledAt <= t.admitted[k].at < t.admitted[k].filledAt + CACHE_TTL_MS
    {
      assert Timely(t.admitted[k], t);
    }
  }

  ghost predicate NoneBetweenReadAndFill(s: System) {
    forall r :: r in s.requests ==> !s.requests[r].ReadActive?
  }

  lemma {:induction false} NobodyLeft(s: System, actions: seq<Action>)
    requires !s.active && NoneBetweenReadAndFill(s) && UnsuspendRow !in actions
    requires s.line.Some? ==> s.line.value.SuspendedLine?
    ensures var t := Acts(s, actions);
      !t.active && NoneBetweenReadAndFill(t) && (t.line.Some? ==> t.line.value.SuspendedLine?)
      && t.admitted == s.admitted
  {
    if actions != [] {
      NobodyLeft(s, actions[..|actions| - 1]);
      assert actions[|actions| - 1] in actions;
    }
  }

  /**
   * A finished suspension (row inactive, mark in the cache) keeps everyone out from that moment on if
   * and only if no request stands between its table read and its cache fill.
   */
  lemma ImmediateIffNoneBetween(s: System)
    requires !s.active && s.line.Some? && s.line.value.SuspendedLine?
    ensures (forall actions :: UnsuspendRow !in actions ==> Acts(s, actions).admitted == s.admitted)
       <==> NoneBetweenReadAndFill(s)
  {
    if NoneBetweenReadAndFill(s) {
      forall actions | UnsuspendRow !in actions ensures Acts(s, actions).admitted == s.admitted {
        NobodyLeft(s, actions);
      }
    } else {
      var r :| r in s.requests && s.requests[r].ReadActive?;
      assert Acts(s, [Fill(r)]) == Act(Acts(s, []), Fill(r)) by { assert [Fill(r)][..0] == []; }
      assert Acts(s, [Fill(r)]).admitted != s.admitted && UnsuspendRow !in [Fill(r)];
    }
  }

  lemma ActsMore(s: System, actions: seq<Action>, a: Action)
    ensures Acts(s, actions + [a]) == Act(Acts(s, actions), a)
  {
    assert (actions + [a])[..|actions|] == actions;
  }

  lemma FiveActs(s: System, a: Action, b: Action, c: Action, d: Action, e: Action)
    ensures Acts(s, [a, b, c, d, e]) == Act(Act(Act(Act(Act(s, a), b), c), d), e)
  {
    assert Acts(s, []) == s;
    hide Act, Acts;
    ActsMore(s, [], a);
    ActsMore(s, [a], b);
    ActsMore(s, [a, b], c);
    ActsMore(s, [a, b, c], d);
    ActsMore(s, [a, b, c, d], e);
    assert [] + [a] == [a] && [a] + [b] == [a, b] && [a, b] + [c] == [a, b, c];
    assert [a, b, c] + [d] == [a, b, c, d] && [a, b, c, d] + [e] == [a, b, c, d, e];
  }

  /** Request 0 has read the table; then the suspension runs to its end. */
  lemma SuspendedMeanwhile(now: int) returns (before: seq<Action>)
    ensures before == [Arrive(0), LookUp(0), Query(0), SuspendRow, MarkSuspended]
    ensures var s := Acts(Start(true, now), before);
      && !s.active && s.line == Some(SuspendedLine(now + CACHE_TTL_MS)) && s.admitted == []
      && s.requests == map[0 := ReadActive(2, now)] && s.now == now && s.step == 5
  {
    hide Acts;
    before := [Arrive(0), LookUp(0), Query(0), SuspendRow, MarkSuspended];
    FiveActs(Start(true, now), Arrive(0), LookUp(0), Query(0), SuspendRow, MarkSuspended);
    var s1 := Act(Start(true, now), Arrive(0));
    assert s1.requests == map[0 := Asking];
    var s2 := Act(s1, LookUp(0));
    assert s2.requests == map[0 := Missed] && s2.step == 2;
    var s3 := Act(s2, Query(0));
    assert s3.requests == map[0 := ReadActive(2, now)];
  }

  /** A run from the start in which a request that arrives after the suspension has finished is let through:
      the earlier request puts its old answer in the cache, over the mark, and the newcomer is served from it. */
  lemma SuspensionIsNotImmediate(now: int) returns (before: seq<Action>, after: seq<Action>)
    ensures before == [Arrive(0), LookUp(0), Query(0), SuspendRow, MarkSuspended]
    ensures after == [Fill(0), Arrive(1), LookUp(1)]
    ensures var s, t := Acts(Start(true, now), before), Acts(Start(true, now), before + after);
      && !s.active && s.line == Some(SuspendedLine(now + CACHE_TTL_MS)) && s.admitted == [] && 1 !in s.requests
      && !t.active && t.admitted == [Admission(0, now, 2, now, now), Admission(1, now, 2, now, now)]
  {
    before := SuspendedMeanwhile(now);
    after := [Fill(0), Arrive(1), LookUp(1)];
    var start := Start(true, now);
    var s := Acts(start, before);
    ActsMore(start, before, Fill(0));
    ActsMore(start, before + [Fill(0)], Arrive(1));
    ActsMore(start, before + [Fill(0)] + [Arrive(1)], LookUp(1));
    assert before + after == before + [Fill(0)] + [Arrive(1)] + [LookUp(1)];
    var filled := Act(s, Fill(0));
    assert filled.admitted == [] + [Admission(0, now, 2, now, now)] == [Admission(0, now, 2, now, now)];
    var t := Act(Act(filled, Arrive(1)), LookUp(1));
    assert t.admitted == [Admission(0, now, 2, now, now)] + [Admission(1, now, 2, now, now)];
  }

  /** The state of one tenant as the one-at-a-time model sees it. */
  function AsWorld(s: System, id: string): World {
    World(
      map[id := s.active],
      match s.line
      case None => map[]
      case Some(ActiveLine(expires, _, _, _)) => map[id := Entry(Active, expires)]
      case Some(SuspendedLine(expires)) => map[id := Entry(Suspended, expires)],
      s.now)
  }

  lemma AloneOnMiss(s: System, r: nat)
    requires In(s, r, Missed)
    ensures var t := Act(Act(s, Query(r)), Fill(r));
      t.active == s.active && t.now == s.now && In(t, r, Done)
      && if s.active
         then t.line == Some(ActiveLine(s.now + CACHE_TTL_MS, s.step, s.now, s.now)) && t.admitted != s.admitted
         else t.line == s.line && t.admitted == s.admitted
  {
  }

  /** A request whose steps nobody interleaves with is the one-at-a-time request. */
  lemma AloneIsCheckTenant(s: System, r: nat, id: string)
    requires r !in s.requests
    ensures var t := Act(Act(Act(Act(s, Arrive(r)), LookUp(r)), Query(r)), Fill(r));
      && AsWorld(t, id) == Apply(AsWorld(s, id), Request(id))
      && (t.admitted != s.admitted <==> Check(AsWorld(s, id), id) == Admitted)
      && In(t, r, Done)
  {
    var asked := Act(s, Arrive(r));
    assert In(asked, r, Asking) && Live(asked) == Live(s);
    var looked := Act(asked, LookUp(r));
    if Live(s).None? {
      assert In(looked, r, Missed) && !Cached(AsWorld(s, id), id);
      AloneOnMiss(looked, r);
    } else {
      assert In(looked, r, Done) && Cached(AsWorld(s, id), id);
    }
  }
}

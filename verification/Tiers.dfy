/** Tier evaluation: the highest-ranked tier whose visit and spend thresholds are both met. */
module Tiers {
  import opened Utils

  datatype Tier = Tier(id: string, rank: int, minVisitCount: Option<nat>, minTotalSpend: Option<nat>)

  /** A customer's counters (spend in pence), tier, VIP flag and tier history. */
  datatype Standing = Standing(
    visitCount: nat,
    totalSpend: nat,
    currentTierId: Option<string>,
    vip: bool,
    history: seq<string>)

  predicate Qualifies(c: Standing, t: Tier) {
    && (t.minVisitCount.None? || c.visitCount >= t.minVisitCount.value)
    && (t.minTotalSpend.None? || c.totalSpend >= t.minTotalSpend.value)
  }

  /** The business's tiers as the query returns them: highest rank first, ranks and ids unique. */
  ghost predicate Ranked(tiers: seq<Tier>) {
    forall i, j :: 0 <= i < j < |tiers| ==> tiers[i].rank > tiers[j].rank && tiers[i].id != tiers[j].id
  }

  function Find(c: Standing, tiers: seq<Tier>): Option<Tier> {
    if tiers == [] then None else if Qualifies(c, tiers[0]) then Some(tiers[0]) else Find(c, tiers[1..])
  }

  predicate Changes(c: Standing, tiers: seq<Tier>) {
    Find(c, tiers).Some? && Some(Find(c, tiers).value.id) != c.currentTierId
  }

  function Evaluate(c: Standing, tiers: seq<Tier>): Standing {
    if !Changes(c, tiers) then c
    else
      var t := Find(c, tiers).value;
      c.(currentTierId := Some(t.id), vip := c.vip || tiers[0].id == t.id, history := c.history + [t.id])
  }

  class TierDesk {
    var visitCount: nat
    var totalSpend: nat
    var currentTierId: Option<string>
    var vip: bool
    var history: seq<string>

    ghost function Snapshot(): Standing
      reads this
    {
      Standing(visitCount, totalSpend, currentTierId, vip, history)
    }

    method EvaluateAndUpgradeTier(tiers: seq<Tier>) returns (changed: bool)
      modifies this
      ensures Snapshot() == Evaluate(old(Snapshot()), tiers) && changed == Changes(old(Snapshot()), tiers)
    {
      if |tiers| == 0 {
        return false;
      }
      var qualifying := Find(Standing(visitCount, totalSpend, currentTierId, vip, history), tiers);
      if qualifying.None? || Some(qualifying.value.id) == currentTierId {
        return false;
      }
      if tiers[0].id == qualifying.value.id {
        vip := true;
      }
      currentTierId := Some(qualifying.value.id);
      history := history + [qualifying.value.id];
      return true;
    }
  }

  /** The chosen tier is the qualifying one of highest rank; none is chosen when none qualifies. */
  lemma {:induction false} FindIsHighest(c: Standing, tiers: seq<Tier>)
    requires Ranked(tiers)
    ensures match Find(c, tiers)
            case Some(t) => t in tiers && Qualifies(c, t)
              && forall o :: o in tiers && Qualifies(c, o) ==> o.rank <= t.rank
            case None => forall o :: o in tiers ==> !Qualifies(c, o)
  {
    if tiers != [] {
      FindIsHighest(c, tiers[1..]);
      forall o | o in tiers ensures o == tiers[0] || (o in tiers[1..] && o.rank < tiers[0].rank) {
        var i :| 0 <= i < |tiers| && tiers[i] == o;
        assert i > 0 ==> o == tiers[1..][i - 1];
      }
    }
  }

  /** Both thresholds that are set are reached. */
  ghost predicate Reaches(c: Standing, t: Tier) {
    && (forall n :: t.minVisitCount == Some(n) ==> c.visitCount >= n)
    && (forall n :: t.minTotalSpend == Some(n) ==> c.totalSpend >= n)
  }

  lemma QualifiesIff(c: Standing, t: Tier)
    ensures Qualifies(c, t) <==> Reaches(c, t)
  {
    if t.minVisitCount.Some? {
      assert t.minVisitCount == Some(t.minVisitCount.value);
    }
    if t.minTotalSpend.Some? {
      assert t.minTotalSpend == Some(t.minTotalSpend.value);
    }
  }

  /** The tier of highest rank among those whose thresholds are reached. */
  ghost predicate Best(c: Standing, tiers: seq<Tier>, t: Tier) {
    t in tiers && Reaches(c, t) && forall o :: o in tiers && Reaches(c, o) ==> o.rank <= t.rank
  }

  /**
   * After an evaluation the customer holds the best tier reached, or, when none is, whatever was held before. The
   * VIP flag is set when that tier is new and the highest of all, and is never taken away; the counters stay.
   */
  lemma EvaluationIff(c: Standing, tiers: seq<Tier>)
    requires Ranked(tiers)
    ensures var after := Evaluate(c, tiers);
      && after.visitCount == c.visitCount && after.totalSpend == c.totalSpend
      && (forall t :: Best(c, tiers, t) ==> after.currentTierId == Some(t.id))
      && ((forall t :: t in tiers ==> !Reaches(c, t)) ==> after == c)
      && (after.currentTierId == c.currentTierId ==> after == c)
      && (after.currentTierId != c.currentTierId ==>
            exists t :: Best(c, tiers, t) && after.history == c.history + [t.id]
                        && (after.vip <==> c.vip || forall o :: o in tiers ==> o.rank <= t.rank))
  {
    FindIsHighest(c, tiers);
    forall t ensures Qualifies(c, t) <==> Reaches(c, t) {
      QualifiesIff(c, t);
    }
    hide Qualifies, Reaches, Find;
    if Find(c, tiers).Some? {
      var found := Find(c, tiers).value;
      assert Best(c, tiers, found);
      forall t | Best(c, tiers, t) ensures t == found {
        SameId(tiers, t, found);
      }
      TopOfAll(tiers, found);
    }
  }

  /** The first tier is the one no other outranks. */
  lemma TopOfAll(tiers: seq<Tier>, t: Tier)
    requires Ranked(tiers) && t in tiers
    ensures tiers[0].id == t.id <==> forall o :: o in tiers ==> o.rank <= t.rank
  {
    var i :| 0 <= i < |tiers| && tiers[i] == t;
    assert i > 0 ==> tiers[0].rank > t.rank && tiers[0].id != t.id;
    assert tiers[0] in tiers;
    forall o | o in tiers && i == 0 ensures o.rank <= t.rank {
      var k :| 0 <= k < |tiers| && tiers[k] == o;
    }
  }

  /** The rank a customer stands at, if the tier is in the table. */
  ghost predicate Holds(c: Standing, tiers: seq<Tier>, t: Tier) {
    t in tiers && c.currentTierId == Some(t.id)
  }

  lemma SameId(tiers: seq<Tier>, a: Tier, b: Tier)
    requires Ranked(tiers) && a in tiers && b in tiers && (a.id == b.id || a.rank == b.rank)
    ensures a == b
  {
    var i :| 0 <= i < |tiers| && tiers[i] == a;
    var j :| 0 <= j < |tiers| && tiers[j] == b;
    assert i == j;
  }

  /**
   * An evaluation can lower a customer's tier, in spite of its name: it does so exactly when the
   * customer no longer qualifies for the tier held or any above it but does for one below.
   */
  lemma DemotedIff(c: Standing, tiers: seq<Tier>, held: Tier)
    requires Ranked(tiers) && Holds(c, tiers, held)
    ensures (exists t :: Holds(Evaluate(c, tiers), tiers, t) && t.rank < held.rank)
       <==> && (forall o :: o in tiers && o.rank >= held.rank ==> !Qualifies(c, o))
            && (exists o :: o in tiers && Qualifies(c, o))
  {
    FindIsHighest(c, tiers);
    var after := Evaluate(c, tiers);
    if Find(c, tiers).Some? {
      var t := Find(c, tiers).value;
      assert Holds(after, tiers, t);
      if exists u :: Holds(after, tiers, u) && u.rank < held.rank {
        var u :| Holds(after, tiers, u) && u.rank < held.rank;
        SameId(tiers, u, t);
      }
    } else {
      forall u | Holds(after, tiers, u) ensures u == held {
        SameId(tiers, u, held);
      }
    }
  }

  /** Five visits make a customer gold; the table is then edited so that gold takes ten, and the next
      evaluation, still called an upgrade, puts the customer back to silver. */
  lemma DemotionHappens()
    ensures var silver := Tier("silver", 1, None, None);
      var gold, dearer := Tier("gold", 2, Some(5), None), Tier("gold", 2, Some(10), None);
      var c := Evaluate(Standing(5, 0, None, false, []), [gold, silver]);
      && Ranked([gold, silver]) && Ranked([dearer, silver])
      && c.currentTierId == Some("gold")
      && Changes(c, [dearer, silver])
      && Evaluate(c, [dearer, silver]).currentTierId == Some("silver")
  {
    var silver := Tier("silver", 1, None, None);
    var gold, dearer := Tier("gold", 2, Some(5), None), Tier("gold", 2, Some(10), None);
    assert "silver"[0] != "gold"[0];
    assert [dearer, silver][1..] == [silver];
  }

  // ---- Both thresholds, or either ----------------------------------------------------------------

  predicate MeetsVisits(c: Standing, t: Tier) {
    t.minVisitCount.Some? && c.visitCount >= t.minVisitCount.value
  }

  predicate MeetsSpend(c: Standing, t: Tier) {
    t.minTotalSpend.Some? && c.totalSpend >= t.minTotalSpend.value
  }

  /** The schema's reading: one of the thresholds that are set is enough. */
  predicate QualifiesEither(c: Standing, t: Tier) {
    (t.minVisitCount.None? && t.minTotalSpend.None?) || MeetsVisits(c, t) || MeetsSpend(c, t)
  }

  function FindEither(c: Standing, tiers: seq<Tier>): Option<Tier> {
    if tiers == [] then None
    else if QualifiesEither(c, tiers[0]) then Some(tiers[0]) else FindEither(c, tiers[1..])
  }

  /** Both thresholds are set and exactly one is met. */
  predicate HalfMet(c: Standing, t: Tier) {
    t.minVisitCount.Some? && t.minTotalSpend.Some? && MeetsVisits(c, t) != MeetsSpend(c, t)
  }

  /** Every half-met tier stands below a tier that is met in full. */
  ghost predicate HalfMetBelow(c: Standing, tiers: seq<Tier>) {
    forall i :: 0 <= i < |tiers| && HalfMet(c, tiers[i]) ==> MetAbove(c, tiers, i)
  }

  ghost predicate MetAbove(c: Standing, tiers: seq<Tier>, i: nat)
    requires i <= |tiers|
  {
    exists j :: 0 <= j < i && Qualifies(c, tiers[j])
  }

  /** The code's "both" and the schema's "either" choose the same tier exactly when every half-met tier stands
      below one that is met in full. */
  lemma {:induction false} BothIsEitherIff(c: Standing, tiers: seq<Tier>)
    ensures Find(c, tiers) == FindEither(c, tiers) <==> HalfMetBelow(c, tiers)
  {
    if tiers != [] {
      var first, rest := tiers[0], tiers[1..];
      assert QualifiesEither(c, first) <==> Qualifies(c, first) || HalfMet(c, first);
      if Qualifies(c, first) {
      } else if HalfMet(c, first) {
        FindQualifies(c, tiers);
        assert !HalfMetBelow(c, tiers);
      } else {
        BothIsEitherIff(c, rest);
        ShiftedBelow(c, tiers);
      }
    }
  }

  lemma MetAboveShifted(c: Standing, tiers: seq<Tier>, i: nat)
    requires i < |tiers| && !Qualifies(c, tiers[0])
    ensures MetAbove(c, tiers, i + 1) <==> MetAbove(c, tiers[1..], i)
  {
    var rest := tiers[1..];
    if MetAbove(c, rest, i) {
      var j :| 0 <= j < i && Qualifies(c, rest[j]);
      assert Qualifies(c, tiers[j + 1]);
    }
    if MetAbove(c, tiers, i + 1) {
      var j :| 0 <= j < i + 1 && Qualifies(c, tiers[j]);
      assert Qualifies(c, rest[j - 1]);
    }
  }

  lemma {:induction false} FindQualifies(c: Standing, tiers: seq<Tier>)
    ensures Find(c, tiers).Some? ==> Qualifies(c, Find(c, tiers).value)
  {
    if tiers != [] {
      FindQualifies(c, tiers[1..]);
    }
  }

  lemma ShiftedBelow(c: Standing, tiers: seq<Tier>)
    requires tiers != [] && !HalfMet(c, tiers[0]) && !Qualifies(c, tiers[0])
    ensures HalfMetBelow(c, tiers) <==> HalfMetBelow(c, tiers[1..])
  {
    hide HalfMet, Qualifies, MetAbove;
    var rest := tiers[1..];
    forall i | 0 <= i < |rest| ensures MetAbove(c, tiers, i + 1) <==> MetAbove(c, rest, i) {
      MetAboveShifted(c, tiers, i);
    }
    if HalfMetBelow(c, tiers) {
      forall i | 0 <= i < |rest| && HalfMet(c, rest[i]) ensures MetAbove(c, rest, i) {
        assert HalfMet(c, tiers[i + 1]);
      }
    }
    if HalfMetBelow(c, rest) {
      forall i | 0 <= i < |tiers| && HalfMet(c, tiers[i]) ensures MetAbove(c, tiers, i) {
        assert HalfMet(c, rest[i - 1]);
      }
    }
  }

  // ---- Runs --------------------------------------------------------------------------------------

  datatype Event = Visit(pence: nat) | Evaluation

  function Apply(c: Standing, tiers: seq<Tier>, e: Event): Standing {
    match e
    case Visit(pence) => c.(visitCount := c.visitCount + 1, totalSpend := c.totalSpend + pence)
    case Evaluation => Evaluate(c, tiers)
  }

  function Run(c: Standing, tiers: seq<Tier>, events: seq<Event>): Standing {
    if events == [] then c else Apply(Run(c, tiers, events[..|events| - 1]), tiers, events[|events| - 1])
  }

  /** The history lists tiers of the table in rising rank; the last is the one held, and the customer qualifies
      for it. */
  ghost predicate Climbing(c: Standing, tiers: seq<Tier>, climbed: seq<Tier>) {
    && |climbed| == |c.history|
    && (forall k :: 0 <= k < |climbed| ==> climbed[k] in tiers && climbed[k].id == c.history[k])
    && (forall k :: 0 < k < |climbed| ==> climbed[k - 1].rank < climbed[k].rank)
    && if climbed == [] then c.currentTierId == None
       else Holds(c, tiers, climbed[|climbed| - 1]) && Qualifies(c, climbed[|climbed| - 1])
  }

  lemma ClimbStep(c: Standing, tiers: seq<Tier>, climbed: seq<Tier>, e: Event) returns (more: seq<Tier>)
    requires Ranked(tiers) && Climbing(c, tiers, climbed)
    ensures climbed <= more && Climbing(Apply(c, tiers, e), tiers, more)
  {
    more := climbed;
    if e.Evaluation? && Changes(c, tiers) {
      FindIsHighest(c, tiers);
      var t := Find(c, tiers).value;
      more := climbed + [t];
      if climbed != [] && climbed[|climbed| - 1].rank == t.rank {
        SameId(tiers, climbed[|climbed| - 1], t);
      }
    }
  }

  /** While the tier table is not edited, a new customer's tier only ever rises, one history row per rise. */
  lemma {:induction false} TiersOnlyRise(c: Standing, tiers: seq<Tier>, events: seq<Event>) returns (climbed: seq<Tier>)
    requires Ranked(tiers) && c.currentTierId == None && c.history == []
    ensures Climbing(Run(c, tiers, events), tiers, climbed)
  {
    if events == [] {
      climbed := [];
    } else {
      var before := TiersOnlyRise(c, tiers, events[..|events| - 1]);
      climbed := ClimbStep(Run(c, tiers, events[..|events| - 1]), tiers, before, events[|events| - 1]);
    }
  }

  lemma {:induction false} RisingRanks(climbed: seq<Tier>, i: nat, j: nat)
    requires forall k :: 0 < k < |climbed| ==> climbed[k - 1].rank < climbed[k].rank
    requires i < j < |climbed|
    ensures climbed[i].rank < climbed[j].rank
  {
    if i + 1 < j {
      RisingRanks(climbed, i, j - 1);
    }
  }

  lemma {:induction false} DistinctFit<T>(s: seq<T>, pool: set<T>)
    requires forall i, j :: 0 <= i < j < |s| ==> s[i] != s[j]
    requires forall x :: x in s ==> x in pool
    ensures |s| <= |pool|
  {
    if s != [] {
      var n := |s| - 1;
      DistinctFit(s[..n], pool - {s[n]});
    }
  }

  /** So the history never has more rows than the table has tiers. */
  lemma HistoryIsBounded(c: Standing, tiers: seq<Tier>, events: seq<Event>)
    requires Ranked(tiers) && c.currentTierId == None && c.history == []
    ensures |Run(c, tiers, events).history| <= |tiers|
  {
    var climbed := TiersOnlyRise(c, tiers, events);
    forall i, j | 0 <= i < j < |climbed| ensures climbed[i] != climbed[j] {
      RisingRanks(climbed, i, j);
    }
    DistinctFit(climbed, set t | t in tiers);
    DistinctElements(tiers);
  }

  lemma {:induction false} DistinctElements<T>(s: seq<T>)
    ensures |set t | t in s| <= |s|
  {
    if s != [] {
      DistinctElements(s[1..]);
      assert (set t | t in s) == (set t | t in s[1..]) + {s[0]};
    }
  }

  /** Evaluating twice in a row is evaluating once. */
  lemma EvaluationSettles(c: Standing, tiers: seq<Tier>)
    requires Ranked(tiers)
    ensures !Changes(Evaluate(c, tiers), tiers)
  {
    SameFind(c, Evaluate(c, tiers), tiers);
  }

  lemma {:induction false} SameFind(a: Standing, b: Standing, tiers: seq<Tier>)
    requires a.visitCount == b.visitCount && a.totalSpend == b.totalSpend
    ensures Find(a, tiers) == Find(b, tiers)
  {
    if tiers != [] {
      SameFind(a, b, tiers[1..]);
    }
  }
}

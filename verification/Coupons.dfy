/** Coupon redemption as lock / check / update / log / commit steps of concurrent cashiers. */
module Coupons {
  import opened Utils

  type CouponId = string

  datatype CouponStatus = ACTIVE | USED | OtherStatus(name: string)

  datatype Coupon = Coupon(status: CouponStatus, redemptionCount: nat)

  datatype Redemption = Redemption(coupon: CouponId)

  type Coupons = map<CouponId, Coupon>

  datatype Error = COUPON_NOT_FOUND | NotActive(status: CouponStatus) | INVALID_CASHIER_PIN

  // ---- One redemption, as one transaction --------------------------------------------------------

  function RedeemError(coupons: Coupons, id: CouponId, pinValid: bool): Option<Error> {
    if id !in coupons then Some(COUPON_NOT_FOUND)
    else if coupons[id].status != ACTIVE then Some(NotActive(coupons[id].status))
    else if !pinValid then Some(INVALID_CASHIER_PIN)
    else None
  }

  function Consume(c: Coupon): Coupon {
    Coupon(USED, c.redemptionCount + 1)
  }

  class CouponDesk {
    var coupons: Coupons
    var logs: seq<Redemption>

    method RedeemCoupon(id: CouponId, pinValid: bool) returns (error: Option<Error>)
      modifies this
      ensures error == RedeemError(old(coupons), id, pinValid)
      ensures error.Some? ==> coupons == old(coupons) && logs == old(logs)
      ensures error.None? ==> coupons == old(coupons)[id := Consume(old(coupons)[id])]
                              && logs == old(logs) + [Redemption(id)]
    {
      if id !in coupons {
        return Some(COUPON_NOT_FOUND);
      }
      var locked := coupons[id];
      if locked.status != ACTIVE {
        return Some(NotActive(locked.status));
      }
      if !pinValid {
        return Some(INVALID_CASHIER_PIN);
      }
      coupons := coupons[id := locked.(status := USED, redemptionCount := locked.redemptionCount + 1)];
      logs := logs + [Redemption(id)];
      return None;
    }
  }

  /** A redemption succeeds if and only if the coupon is there, is active and the PIN is valid. */
  lemma RedeemedIff(coupons: Coupons, id: CouponId, pinValid: bool)
    ensures RedeemError(coupons, id, pinValid).None? <==> id in coupons && coupons[id].status == ACTIVE && pinValid
    ensures RedeemError(coupons, id, pinValid) == Some(COUPON_NOT_FOUND) <==> id !in coupons
    ensures RedeemError(coupons, id, pinValid) == Some(INVALID_CASHIER_PIN) <==>
              id in coupons && coupons[id].status == ACTIVE && !pinValid
    ensures forall status :: RedeemError(coupons, id, pinValid) == Some(NotActive(status)) <==>
              id in coupons && coupons[id].status == status && status != ACTIVE
  {
  }

  // ---- Interleaved transactions ------------------------------------------------------------------

  /** Where a cashier's transaction stands. Its writes stay private until it commits. */
  datatype Phase =
    | Idle
    | Locked(id: CouponId, row: Coupon)
    | Updated(id: CouponId, row: Coupon)
    | Logged(id: CouponId, row: Coupon)

  /** Committed rows and logs, the row locks, and the transactions in progress. */
  datatype System = System(
    coupons: Coupons,
    logs: seq<Redemption>,
    locks: map<CouponId, nat>,
    cashiers: seq<Phase>)

  datatype Action = Lock(target: CouponId) | Update(pinValid: bool) | Log | Commit | Rollback

  predicate Enabled(s: System, w: nat, a: Action) {
    w < |s.cashiers| &&
    match a
    case Lock(id) => s.cashiers[w].Idle? && id in s.coupons && id !in s.locks
    case Update(_) => s.cashiers[w].Locked?
    case Log => s.cashiers[w].Updated?
    case Commit => s.cashiers[w].Logged?
    case Rollback => !s.cashiers[w].Idle?
  }

  function Release(s: System, w: nat): System
    requires w < |s.cashiers| && !s.cashiers[w].Idle?
  {
    s.(cashiers := s.cashiers[w := Idle], locks := s.locks - {s.cashiers[w].id})
  }

  function Step(s: System, w: nat, a: Action): System
    requires Enabled(s, w, a)
  {
    match a
    case Lock(id) => s.(cashiers := s.cashiers[w := Locked(id, s.coupons[id])], locks := s.locks[id := w])
    case Update(pinValid) =>
      var p := s.cashiers[w];
      if p.row.status == ACTIVE && pinValid then s.(cashiers := s.cashiers[w := Updated(p.id, p.row)])
      else Release(s, w)
    case Log => s.(cashiers := s.cashiers[w := Logged(s.cashiers[w].id, s.cashiers[w].row)])
    case Commit =>
      var p := s.cashiers[w];
      Release(s, w).(coupons := s.coupons[p.id := Consume(p.row)], logs := s.logs + [Redemption(p.id)])
    case Rollback => Release(s, w)
  }

  datatype Move = Move(cashier: nat, action: Action)

  ghost predicate IsRun(states: seq<System>, moves: seq<Move>) {
    && |states| == |moves| + 1
    && forall i :: 0 <= i < |moves| ==>
         && Enabled(states[i], moves[i].cashier, moves[i].action)
         && states[i + 1] == Step(states[i], moves[i].cashier, moves[i].action)
  }

  ghost predicate Starts(s: System) {
    s.logs == [] && s.locks == map[] && forall w :: 0 <= w < |s.cashiers| ==> s.cashiers[w].Idle?
  }

  /** A transaction holds the lock of its coupon, and what it read is still what is committed. */
  ghost predicate LocksHold(s: System) {
    forall w :: 0 <= w < |s.cashiers| && !s.cashiers[w].Idle? ==>
      && s.cashiers[w].id in s.locks && s.locks[s.cashiers[w].id] == w
      && s.cashiers[w].id in s.coupons && s.cashiers[w].row == s.coupons[s.cashiers[w].id]
      && (!s.cashiers[w].Locked? ==> s.cashiers[w].row.status == ACTIVE)
  }

  lemma StepKeepsLocks(s: System, w: nat, a: Action)
    requires Enabled(s, w, a) && LocksHold(s)
    ensures LocksHold(Step(s, w, a))
  {
  }

  function Count(logs: seq<Redemption>, id: CouponId): nat {
    if logs == [] then 0
    else Count(logs[..|logs| - 1], id) + if logs[|logs| - 1].coupon == id then 1 else 0
  }

  lemma CountAppend(logs: seq<Redemption>, r: Redemption, id: CouponId)
    ensures Count(logs + [r], id) == Count(logs, id) + if r.coupon == id then 1 else 0
  {
    assert (logs + [r])[..|logs|] == logs;
  }

  /** The coupons redeemed since the start. */
  ghost function Redeemed(first: Coupons, now: Coupons): set<CouponId> {
    set id | id in first && id in now && first[id].status == ACTIVE && now[id].status == USED
  }

  /** Every coupon is as it was, or was active and has been consumed once; the logs tell which. */
  ghost predicate Accounted(first: Coupons, s: System) {
    && s.coupons.Keys == first.Keys
    && (forall id :: id in first ==>
          && (s.coupons[id] == first[id] || (first[id].status == ACTIVE && s.coupons[id] == Consume(first[id])))
          && Count(s.logs, id) == if id in Redeemed(first, s.coupons) then 1 else 0)
    && |s.logs| == |Redeemed(first, s.coupons)|
  }

  lemma CommitAccounted(first: Coupons, s: System, id: CouponId, s': System)
    requires Accounted(first, s) && id in s.coupons && s.coupons[id].status == ACTIVE
    requires s'.coupons == s.coupons[id := Consume(s.coupons[id])] && s'.logs == s.logs + [Redemption(id)]
    ensures Accounted(first, s')
  {
    hide Count;
    assert id !in Redeemed(first, s.coupons);
    assert Redeemed(first, s'.coupons) == Redeemed(first, s.coupons) + {id};
    forall other | other in first
      ensures Count(s'.logs, other) == if other in Redeemed(first, s'.coupons) then 1 else 0
    {
      CountAppend(s.logs, Redemption(id), other);
    }
  }

  lemma StepAccounted(first: Coupons, s: System, w: nat, a: Action)
    requires Enabled(s, w, a) && LocksHold(s) && Accounted(first, s)
    ensures Accounted(first, Step(s, w, a))
  {
    if a == Commit {
      hide Accounted;
      CommitAccounted(first, s, s.cashiers[w].id, Step(s, w, a));
    } else {
      hide Count, Redeemed;
      assert Step(s, w, a).coupons == s.coupons && Step(s, w, a).logs == s.logs;
    }
  }

  /** Under every interleaving of cashiers, with rollback at any step: each coupon goes from ACTIVE to USED at
      most once and never back, it has a redemption log exactly when it did, and the number of logs is the
      number of coupons redeemed. */
  lemma {:induction false} RedeemedOnce(states: seq<System>, moves: seq<Move>, k: nat)
    requires IsRun(states, moves) && Starts(states[0]) && k < |states|
    ensures Accounted(states[0].coupons, states[k]) && LocksHold(states[k])
  {
    if k == 0 {
      forall id | id in states[0].coupons ensures Count(states[0].logs, id) == 0 {}
      assert Redeemed(states[0].coupons, states[0].coupons) == {};
    } else {
      RedeemedOnce(states, moves, k - 1);
      StepKeepsLocks(states[k - 1], moves[k - 1].cashier, moves[k - 1].action);
      StepAccounted(states[0].coupons, states[k - 1], moves[k - 1].cashier, moves[k - 1].action);
    }
  }

  /** Over any such run, the redemption count of a coupon has grown by the number of its log rows, which is 1 for a
      coupon that has gone from ACTIVE to USED and 0 for every other, which is as it was. */
  lemma CountsFollowLogs(states: seq<System>, moves: seq<Move>, k: nat, id: CouponId)
    requires IsRun(states, moves) && Starts(states[0]) && k < |states| && id in states[0].coupons
    ensures id in states[k].coupons
    ensures var first, now := states[0].coupons[id], states[k].coupons[id];
      && now.redemptionCount == first.redemptionCount + Count(states[k].logs, id)
      && if Count(states[k].logs, id) == 0 then now == first
         else Count(states[k].logs, id) == 1 && first.status == ACTIVE && now.status == USED
  {
    RedeemedOnce(states, moves, k);
    hide IsRun, Count, LocksHold;
  }

  lemma StepKeepsUsed(s: System, w: nat, a: Action, id: CouponId)
    requires Enabled(s, w, a) && LocksHold(s) && id in s.coupons && s.coupons[id].status != ACTIVE
    ensures id in Step(s, w, a).coupons && Step(s, w, a).coupons[id] == s.coupons[id]
  {
  }

  /** A used coupon stays as it is for the rest of the run. */
  lemma {:induction false} UsedIsFinal(states: seq<System>, moves: seq<Move>, id: CouponId, i: nat, j: nat)
    requires IsRun(states, moves) && Starts(states[0]) && i <= j < |states|
    requires id in states[i].coupons && states[i].coupons[id].status != ACTIVE
    ensures id in states[j].coupons && states[j].coupons[id] == states[i].coupons[id]
    decreases j - i
  {
    if i < j {
      UsedIsFinal(states, moves, id, i, j - 1);
      RedeemedOnce(states, moves, j - 1);
      assert Enabled(states[j - 1], moves[j - 1].cashier, moves[j - 1].action);
      hide Enabled, LocksHold, Accounted, Step;
      StepKeepsUsed(states[j - 1], moves[j - 1].cashier, moves[j - 1].action, id);
    }
  }

  /** A transaction that runs alone to its end has the effect of the single redemption. */
  lemma AloneIsRedeemCoupon(s: System, id: CouponId, pinValid: bool)
    requires s.cashiers == [Idle] && s.locks == map[] && id in s.coupons
    ensures var checked := Step(Step(s, 0, Lock(id)), 0, Update(pinValid));
            if RedeemError(s.coupons, id, pinValid).Some? then checked.coupons == s.coupons && checked.logs == s.logs
            else
              Enabled(checked, 0, Log) &&
              var done := Step(Step(checked, 0, Log), 0, Commit);
              && done.coupons == s.coupons[id := Consume(s.coupons[id])]
              && done.logs == s.logs + [Redemption(id)]
              && done.locks == map[] && done.cashiers == [Idle]
  {
  }
}

/** When a nightly refresh leaves a customer in each class, read off the customer's row. */
module SegmentRules {
  import opened Segments
  import opened Utils

  /** The last visit lies no more than the given number of days back. */
  predicate VisitedWithin(c: Customer, rules: Rules, days: int) {
    c.lastVisitAt.Some? && rules.now - c.lastVisitAt.value <= days * 86_400_000
  }

  /** Seen inside both windows, so that the other rules are looked at. */
  predicate Regular(c: Customer, rules: Rules) {
    VisitedWithin(c, rules, rules.lostDays) && VisitedWithin(c, rules, rules.irregularGapDays)
  }

  predicate SpendsBig(c: Customer, rules: Rules) {
    c.totalSpendPence >= 50_000 && VisitedWithin(c, rules, rules.loyalDays)
  }

  predicate HasTopTier(c: Customer, rules: Rules) {
    c.currentTierId.Some? && c.currentTierId == rules.highestTier
  }

  predicate HuntsCoupons(c: Customer) {
    c.couponRedemptions > 3 && c.visitCount < 5
  }

  predicate ComesBack(c: Customer, rules: Rules) {
    c.visitCount >= 2 && VisitedWithin(c, rules, rules.loyalDays)
  }

  /** A regular customer to whom no rule applies, and who therefore stays in the class given. */
  predicate StaysIn(c: Customer, rules: Rules, segment: Segment) {
    && c.segment == segment && Regular(c, rules) && !SpendsBig(c, rules) && !HasTopTier(c, rules)
    && !HuntsCoupons(c) && !VisitedWithin(c, rules, rules.loyalDays) && c.visitCount >= 2
  }

  /** Nothing but the class of an active customer is ever rewritten. */
  lemma OnlyTheClassChanges(rows: seq<Customer>, rules: Rules, i: nat)
    requires i < |rows|
    ensures |Refreshed(rows, rules)| == |rows|
    ensures exists segment :: Refreshed(rows, rules)[i] == rows[i].(segment := segment)
    ensures !rows[i].isActive ==> Refreshed(rows, rules)[i] == rows[i]
  {
    assert Refreshed(rows, rules)[i] == rows[i].(segment := Refreshed(rows, rules)[i].segment);
  }

  /**
   * An active customer is in a class after the refresh if and only if the rule of that class applies and none
   * before it does, or no rule applies and it was in that class already.
   */
  lemma RefreshedClassIff(rows: seq<Customer>, rules: Rules, i: nat)
    requires i < |rows| && rows[i].isActive
    ensures var c, after := rows[i], Refreshed(rows, rules)[i].segment;
      var spender, vip, hunter := SpendsBig(c, rules), HasTopTier(c, rules), HuntsCoupons(c);
      && (after == LOST <==> !VisitedWithin(c, rules, rules.lostDays) || StaysIn(c, rules, LOST))
      && (after == AT_RISK <==>
            (VisitedWithin(c, rules, rules.lostDays) && !VisitedWithin(c, rules, rules.irregularGapDays))
            || StaysIn(c, rules, AT_RISK))
      && (after == BIG_SPENDER <==> (Regular(c, rules) && spender) || StaysIn(c, rules, BIG_SPENDER))
      && (after == VIP <==> (Regular(c, rules) && !spender && vip) || StaysIn(c, rules, VIP))
      && (after == COUPON_HUNTER <==>
            (Regular(c, rules) && !spender && !vip && hunter) || StaysIn(c, rules, COUPON_HUNTER))
      && (after == LOYAL <==>
            (Regular(c, rules) && !spender && !vip && !hunter && ComesBack(c, rules)) || StaysIn(c, rules, LOYAL))
      && (after == NEW <==>
            (Regular(c, rules) && !spender && !vip && !hunter && !ComesBack(c, rules) && c.visitCount <= 1)
            || StaysIn(c, rules, NEW))
  {
    assert Refreshed(rows, rules)[i].segment == Classify(rows[i], rules);
  }

  /** The row with its last visit moved back, or taken away. */
  predicate SeenEarlier(c: Customer, earlier: Customer) {
    && earlier == c.(lastVisitAt := earlier.lastVisitAt)
    && (earlier.lastVisitAt.Some? ==> c.lastVisitAt.Some? && earlier.lastVisitAt.value <= c.lastVisitAt.value)
  }

  /**
   * Moving the last visit of a lost customer back takes the row out of LOST in one case only: the customer was
   * seen inside the lost window and kept LOST because no rule applied, and the earlier visit is one that
   * the AT_RISK rule catches.
   */
  lemma EarlierVisitLeavesLostIff(c: Customer, earlier: Customer, rules: Rules)
    requires c.isActive && SeenEarlier(c, earlier) && Refreshed([c], rules)[0].segment == LOST
    ensures Refreshed([earlier], rules)[0].segment != LOST <==>
            VisitedWithin(earlier, rules, rules.lostDays) && !VisitedWithin(earlier, rules, rules.irregularGapDays)
    ensures Refreshed([earlier], rules)[0].segment != LOST ==>
              Refreshed([earlier], rules)[0].segment == AT_RISK && VisitedWithin(c, rules, rules.lostDays)
  {
    RefreshedClassIff([c], rules, 0);
    RefreshedClassIff([earlier], rules, 0);
  }

  /** It does happen: seen 20 days ago, too long for the loyal window of 10 and not long enough for any other rule, a
      lost customer stays lost; seen 40 days ago, the same customer would be at risk. */
  lemma EarlierVisitCanLeaveLost()
    ensures var rules := Rules(0, 10, 30, 90, None);
      var c := Customer(1, true, 2, 0, Some(-20 * 86_400_000), 0, None, LOST);
      var earlier := c.(lastVisitAt := Some(-40 * 86_400_000));
      && SeenEarlier(c, earlier)
      && Refreshed([c], rules)[0].segment == LOST && Refreshed([earlier], rules)[0].segment == AT_RISK
  {
  }

  /** Without a visit inside the lost window a row is LOST whatever else it says, so it stays there as time passes. */
  lemma LostStaysLost(c: Customer, rules: Rules, later: Rules)
    requires c.isActive && !VisitedWithin(c, rules, rules.lostDays)
    requires later.lostDays == rules.lostDays && later.now >= rules.now
    ensures Refreshed([c], later)[0].segment == LOST
  {
    RefreshedClassIff([c], later, 0);
  }
}

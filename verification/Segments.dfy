/** Nightly segment refresh: a cursor-paginated loop over a tenant's customers. */
module Segments {
  import opened Utils

  datatype Segment = LOST | AT_RISK | BIG_SPENDER | VIP | COUPON_HUNTER | LOYAL | NEW

  datatype Customer = Customer(
    id: nat,
    isActive: bool,
    visitCount: int,
    totalSpendPence: int,
    lastVisitAt: Option<int>,
    couponRedemptions: nat,
    currentTierId: Option<string>,
    segment: Segment)

  const MS_PER_DAY := 86_400_000
  const BIG_SPENDER_THRESHOLD_PENCE := 500 * 100
  const CHUNK_SIZE := 500
  const REDEMPTIONS_READ := 10

  datatype Rules = Rules(now: int, loyalDays: int, irregularGapDays: int, lostDays: int, highestTier: Option<string>)

  /** The first rule that applies, in priority order; no rule leaves the segment as it is. */
  function Classify(c: Customer, rules: Rules): Segment {
    var loyalCutoff := rules.now - rules.loyalDays * MS_PER_DAY;
    var atRiskCutoff := rules.now - rules.irregularGapDays * MS_PER_DAY;
    var lostCutoff := rules.now - rules.lostDays * MS_PER_DAY;
    var redemptions := if c.couponRedemptions < REDEMPTIONS_READ then c.couponRedemptions else REDEMPTIONS_READ;
    if c.lastVisitAt.None? || c.lastVisitAt.value < lostCutoff then LOST
    else
      var last := c.lastVisitAt.value;
      if last < atRiskCutoff then AT_RISK
      else if c.totalSpendPence >= BIG_SPENDER_THRESHOLD_PENCE && last >= loyalCutoff then BIG_SPENDER
      else if rules.highestTier.Some? && c.currentTierId == rules.highestTier then VIP
      else if redemptions > 3 && c.visitCount < 5 then COUPON_HUNTER
      else if last >= loyalCutoff && c.visitCount >= 2 then LOYAL
      else if c.visitCount <= 1 then NEW
      else c.segment
  }

  datatype Change = Change(customerId: nat, fromSegment: Segment, toSegment: Segment)

  /** Customers are stored under distinct ids, listed here in id order. */
  ghost predicate ById(rows: seq<Customer>) {
    forall i, j :: 0 <= i < j < |rows| ==> rows[i].id < rows[j].id
  }

  predicate AfterCursor(c: Customer, cursor: Option<nat>) {
    c.isActive && (cursor.Some? ==> cursor.value < c.id)
  }

  /** The active rows past the cursor, in id order. */
  function Select(rows: seq<Customer>, cursor: Option<nat>): (selected: seq<Customer>)
    ensures forall c :: c in selected <==> c in rows && AfterCursor(c, cursor)
  {
    if rows == [] then []
    else (if AfterCursor(rows[0], cursor) then [rows[0]] else []) + Select(rows[1..], cursor)
  }

  function Page(rows: seq<Customer>, cursor: Option<nat>): seq<Customer> {
    var selected := Select(rows, cursor);
    if |selected| <= CHUNK_SIZE then selected else selected[..CHUNK_SIZE]
  }

  function Reclassified(c: Customer, rules: Rules): Customer {
    c.(segment := Classify(c, rules))
  }

  /** The table with the rows of the given ids reclassified. */
  function RefreshedFor(rows: seq<Customer>, ids: set<nat>, rules: Rules): (refreshed: seq<Customer>)
    ensures |refreshed| == |rows|
  {
    seq(|rows|, i requires 0 <= i < |rows| => if rows[i].id in ids then Reclassified(rows[i], rules) else rows[i])
  }

  /** The one map the whole job amounts to. */
  function Refreshed(rows: seq<Customer>, rules: Rules): (refreshed: seq<Customer>)
    ensures |refreshed| == |rows|
  {
    seq(|rows|, i requires 0 <= i < |rows| => if rows[i].isActive then Reclassified(rows[i], rules) else rows[i])
  }

  /** The changes a list of customers gives rise to, in order. */
  function Changes(list: seq<Customer>, rules: Rules): seq<Change> {
    if list == [] then []
    else
      var last := list[|list| - 1];
      var next := Classify(last, rules);
      Changes(list[..|list| - 1], rules)
      + if next != last.segment then [Change(last.id, last.segment, next)] else []
  }

  function SetSegment(rows: seq<Customer>, id: nat, segment: Segment): (updated: seq<Customer>)
    ensures |updated| == |rows|
  {
    seq(|rows|, i requires 0 <= i < |rows| => if rows[i].id == id then rows[i].(segment := segment) else rows[i])
  }

  ghost function IdsOf(list: seq<Customer>): set<nat> {
    set c | c in list :: c.id
  }

  // ---- Lemmas about pages ------------------------------------------------------------------------

  lemma {:induction false} SelectIsById(rows: seq<Customer>, cursor: Option<nat>)
    requires ById(rows)
    ensures ById(Select(rows, cursor))
  {
    if rows != [] {
      SelectIsById(rows[1..], cursor);
      var tail := Select(rows[1..], cursor);
      forall c | c in tail ensures rows[0].id < c.id {
        assert c in rows[1..];
      }
    }
  }

  /** Reclassified rows at or before the cursor do not affect what is selected after it. */
  lemma {:induction false} SelectIgnoresRefreshed(rows: seq<Customer>, ids: set<nat>, rules: Rules, cursor: Option<nat>)
    requires ids != {} ==> cursor.Some? && forall id :: id in ids ==> id <= cursor.value
    ensures Select(RefreshedFor(rows, ids, rules), cursor) == Select(rows, cursor)
  {
    if rows != [] {
      SelectIgnoresRefreshed(rows[1..], ids, rules, cursor);
      assert RefreshedFor(rows, ids, rules)[1..] == RefreshedFor(rows[1..], ids, rules);
    }
  }

  lemma SelectCons(c: Customer, rest: seq<Customer>, cursor: Option<nat>)
    ensures Select([c] + rest, cursor) == (if AfterCursor(c, cursor) then [c] else []) + Select(rest, cursor)
  {
    assert ([c] + rest)[1..] == rest;
  }

  /** A first customer that is inactive, or at or before the cursor, is not selected. */
  lemma SelectSkips(c: Customer, rest: seq<Customer>, cursor: Option<nat>)
    requires !AfterCursor(c, cursor)
    ensures Select([c] + rest, cursor) == Select(rest, cursor)
  {
    SelectCons(c, rest, cursor);
  }

  lemma DropShifted<T>(first: T, tail: seq<T>, p: nat)
    requires 0 < p <= |tail| + 1
    ensures ([first] + tail)[p..] == tail[p - 1..]
    ensures p > 1 ==> ([first] + tail)[p - 1] == tail[p - 2]
  {
  }

  /** Selecting past the p-th selected row drops the first p rows. */
  lemma {:induction false} SelectPast(rows: seq<Customer>, p: nat)
    requires ById(rows) && 0 < p <= |Select(rows, None)|
    ensures Select(rows, Some(Select(rows, None)[p - 1].id)) == Select(rows, None)[p..]
  {
    var first, rest := rows[0], rows[1..];
    assert rows == [first] + rest && ById(rest) && forall c :: c in rest ==> first.id < c.id;
    hide Select, ById;
    var tail := Select(rest, None);
    if !first.isActive {
      SelectSkips(first, rest, None);
      SelectPast(rest, p);
      SelectSkips(first, rest, Some(tail[p - 1].id));
    } else {
      SelectCons(first, rest, None);
      DropShifted(first, tail, p);
      if p > 1 {
        assert tail[p - 2] in rest;
        SelectPast(rest, p - 1);
        SelectSkips(first, rest, Some(tail[p - 2].id));
      } else {
        SelectAllAfter(rest, first.id);
        SelectSkips(first, rest, Some(first.id));
      }
    }
  }

  lemma {:induction false} SelectAllAfter(rows: seq<Customer>, cursor: nat)
    requires forall c :: c in rows ==> cursor < c.id
    ensures Select(rows, Some(cursor)) == Select(rows, None)
  {
    if rows != [] {
      SelectAllAfter(rows[1..], cursor);
    }
  }

  /** Reclassifying one more row is one assignment. */
  lemma OneMore(rows: seq<Customer>, ids: set<nat>, rules: Rules, c: Customer)
    requires ById(rows) && c in rows && c.id !in ids
    ensures RefreshedFor(rows, ids + {c.id}, rules)
         == SetSegment(RefreshedFor(rows, ids, rules), c.id, Classify(c, rules))
  {
    forall i | 0 <= i < |rows| && rows[i].id == c.id ensures rows[i] == c {
      var j :| 0 <= j < |rows| && rows[j] == c;
    }
  }

  /** Rows whose class does not change can be counted in or out. */
  lemma UnchangedRows(rows: seq<Customer>, ids: set<nat>, more: set<nat>, rules: Rules)
    requires ids <= more
    requires forall i :: 0 <= i < |rows| && rows[i].id in more - ids ==> Classify(rows[i], rules) == rows[i].segment
    ensures RefreshedFor(rows, ids, rules) == RefreshedFor(rows, more, rules)
  {
  }

  lemma AllActive(rows: seq<Customer>, rules: Rules)
    requires ById(rows)
    ensures RefreshedFor(rows, IdsOf(Select(rows, None)), rules) == Refreshed(rows, rules)
  {
    forall i | 0 <= i < |rows| ensures rows[i].id in IdsOf(Select(rows, None)) <==> rows[i].isActive {
      if rows[i].id in IdsOf(Select(rows, None)) {
        var c :| c in Select(rows, None) && c.id == rows[i].id;
        var j :| 0 <= j < |rows| && rows[j] == c;
      }
      if rows[i].isActive {
        assert rows[i] in Select(rows, None);
      }
    }
  }

  /** The updates applied one after the other. */
  function Applied(rows: seq<Customer>, updates: seq<Change>): seq<Customer> {
    if updates == [] then rows
    else
      var last := updates[|updates| - 1];
      SetSegment(Applied(rows, updates[..|updates| - 1]), last.customerId, last.toSegment)
  }

  lemma ChangesAppend(list: seq<Customer>, c: Customer, rules: Rules)
    ensures Changes(list + [c], rules) == Changes(list, rules)
            + if Classify(c, rules) != c.segment then [Change(c.id, c.segment, Classify(c, rules))] else []
  {
    assert (list + [c])[..|list|] == list;
  }

  lemma Nothing(rows: seq<Customer>, rules: Rules)
    ensures RefreshedFor(rows, IdsOf(Select(rows, None)[..0]), rules) == rows
    ensures Changes(Select(rows, None)[..0], rules) == []
    ensures Applied(rows, []) == rows
  {
  }

  /** The page read after p processed customers is the next stretch of the selected rows. */
  lemma PageIsNext(rows: seq<Customer>, rules: Rules, p: nat, cursor: Option<nat>)
    requires ById(rows) && p <= |Select(rows, None)|
    requires cursor == if p == 0 then None else Some(Select(rows, None)[p - 1].id)
    ensures var all := Select(rows, None);
            var end := if |all| - p <= CHUNK_SIZE then |all| else p + CHUNK_SIZE;
            Page(RefreshedFor(rows, IdsOf(all[..p]), rules), cursor) == all[p..end]
  {
    hide Select, RefreshedFor;
    var all := Select(rows, None);
    SelectIsById(rows, None);
    forall id | id in IdsOf(all[..p]) ensures p > 0 && id <= all[p - 1].id {
      var k :| 0 <= k < p && all[k].id == id;
    }
    SelectIgnoresRefreshed(rows, IdsOf(all[..p]), rules, cursor);
    if p > 0 {
      SelectPast(rows, p);
    }
    assert all[p..][..|all| - p] == all[p..];
  }

  lemma IdsOfMore(list: seq<Customer>, c: Customer)
    ensures IdsOf(list + [c]) == IdsOf(list) + {c.id}
  {
  }

  lemma {:induction false} ChangesConcat(a: seq<Customer>, b: seq<Customer>, rules: Rules)
    ensures Changes(a + b, rules) == Changes(a, rules) + Changes(b, rules)
    decreases |b|
  {
    hide Classify;
    if b == [] {
      assert a + b == a;
    } else {
      var front, c := b[..|b| - 1], b[|b| - 1];
      ChangesConcat(a, front, rules);
      assert a + b == (a + front) + [c] && b == front + [c];
      ChangesAppend(a + front, c, rules);
      ChangesAppend(front, c, rules);
    }
  }

  /** Applying the changes of a page extends the reclassified part of the table by that page. */
  lemma {:induction false} PageApplied(rows: seq<Customer>, rules: Rules, done: seq<Customer>, page: seq<Customer>)
    requires ById(rows) && done + page <= Select(rows, None)
    ensures Applied(RefreshedFor(rows, IdsOf(done), rules), Changes(page, rules))
         == RefreshedFor(rows, IdsOf(done + page), rules)
    decreases |page|
  {
    hide Select, RefreshedFor, Classify, ById, IdsOf, SetSegment, Applied, Changes;
    if page == [] {
      NoUpdates(RefreshedFor(rows, IdsOf(done), rules), rules);
      assert done + page == done;
    } else {
      var front, c := page[..|page| - 1], page[|page| - 1];
      var before := done + front;
      assert page == front + [c] && done + page == before + [c];
      PageApplied(rows, rules, done, front);
      ChangesAppend(front, c, rules);
      IdsOfMore(before, c);
      NewId(rows, before, c);
      if Classify(c, rules) != c.segment {
        OneMore(rows, IdsOf(before), rules, c);
        AppliedMore(RefreshedFor(rows, IdsOf(done), rules), Changes(front, rules),
                    Change(c.id, c.segment, Classify(c, rules)));
      } else {
        OneUnchanged(rows, IdsOf(before), rules, c);
        assert Changes(front, rules) + [] == Changes(front, rules);
      }
    }
  }

  lemma NoUpdates(rows: seq<Customer>, rules: Rules)
    ensures Applied(rows, []) == rows && Changes([], rules) == []
  {
  }

  lemma AppliedMore(rows: seq<Customer>, updates: seq<Change>, u: Change)
    ensures Applied(rows, updates + [u]) == SetSegment(Applied(rows, updates), u.customerId, u.toSegment)
  {
    assert (updates + [u])[..|updates|] == updates;
  }

  lemma NewId(rows: seq<Customer>, before: seq<Customer>, c: Customer)
    requires ById(rows) && before + [c] <= Select(rows, None)
    ensures c in rows && c.id !in IdsOf(before)
  {
    var all, k := Select(rows, None), |before|;
    SelectIsById(rows, None);
    assert (before + [c])[k] == all[k] && all[k] in all;
    forall i | 0 <= i < k ensures before[i].id < c.id {
      assert (before + [c])[i] == all[i];
    }
  }

  lemma OneUnchanged(rows: seq<Customer>, ids: set<nat>, rules: Rules, c: Customer)
    requires ById(rows) && c in rows && Classify(c, rules) == c.segment
    ensures RefreshedFor(rows, ids + {c.id}, rules) == RefreshedFor(rows, ids, rules)
  {
    forall i | 0 <= i < |rows| && rows[i].id == c.id ensures rows[i] == c {
      var j :| 0 <= j < |rows| && rows[j] == c;
    }
    UnchangedRows(rows, ids, ids + {c.id}, rules);
  }

  /** A second run at the same clock changes nothing and writes no history. */
  lemma SecondRunIsIdle(rows: seq<Customer>, rules: Rules)
    ensures Refreshed(Refreshed(rows, rules), rules) == Refreshed(rows, rules)
    ensures Changes(Select(Refreshed(rows, rules), None), rules) == []
  {
    var again := Refreshed(rows, rules);
    forall i | 0 <= i < |again| && again[i].isActive ensures Classify(again[i], rules) == again[i].segment {
      ClassifyIsStable(rows[i], rules);
    }
    NoChanges(Select(again, None), rules);
  }

  lemma ClassifyIsStable(c: Customer, rules: Rules)
    ensures Classify(Reclassified(c, rules), rules) == Classify(c, rules)
  {
  }

  lemma {:induction false} NoChanges(list: seq<Customer>, rules: Rules)
    requires forall c :: c in list ==> Classify(c, rules) == c.segment
    ensures Changes(list, rules) == []
  {
    if list != [] {
      NoChanges(list[..|list| - 1], rules);
    }
  }

  predicate Changed(c: Customer, rules: Rules) {
    Classify(c, rules) != c.segment
  }

  /** A history row records the old and new class of one of the customers. */
  lemma {:induction false} HistoryIsOfCustomers(list: seq<Customer>, rules: Rules, h: Change)
    requires h in Changes(list, rules)
    ensures exists c :: c in list && Changed(c, rules) && h == Change(c.id, c.segment, Classify(c, rules))
  {
    hide Classify;
    var front, last := list[..|list| - 1], list[|list| - 1];
    assert list == front + [last];
    if h in Changes(front, rules) {
      HistoryIsOfCustomers(front, rules, h);
    } else {
      assert Changed(last, rules);
    }
  }

  /** A customer has exactly one history row if its class changed, and none otherwise. */
  lemma {:induction false} OneRowPerChange(list: seq<Customer>, rules: Rules, k: nat)
    requires ById(list) && k < |list|
    ensures Occurrences(Changes(list, rules), list[k].id) == if Changed(list[k], rules) then 1 else 0
    decreases |list|
  {
    hide Classify;
    var front, last := list[..|list| - 1], list[|list| - 1];
    assert list == front + [last];
    if k < |front| {
      OneRowPerChange(front, rules, k);
    } else {
      NoRowForOthers(front, rules, last.id);
    }
    if Changed(last, rules) {
      OccurrencesAppend(Changes(front, rules), Change(last.id, last.segment, Classify(last, rules)), list[k].id);
    } else {
      assert Changes(front, rules) + [] == Changes(front, rules);
    }
  }

  lemma {:induction false} NoRowForOthers(list: seq<Customer>, rules: Rules, id: nat)
    requires forall c :: c in list ==> c.id != id
    ensures Occurrences(Changes(list, rules), id) == 0
  {
    hide Classify;
    if list != [] {
      var front, last := list[..|list| - 1], list[|list| - 1];
      NoRowForOthers(front, rules, id);
      if Changed(last, rules) {
        OccurrencesAppend(Changes(front, rules), Change(last.id, last.segment, Classify(last, rules)), id);
      } else {
        assert Changes(front, rules) + [] == Changes(front, rules);
      }
    }
  }

  lemma OccurrencesAppend(changes: seq<Change>, h: Change, id: nat)
    ensures Occurrences(changes + [h], id) == Occurrences(changes, id) + if h.customerId == id then 1 else 0
  {
    assert (changes + [h])[..|changes|] == changes;
  }

  function Occurrences(changes: seq<Change>, id: nat): nat {
    if changes == [] then 0
    else Occurrences(changes[..|changes| - 1], id) + if changes[|changes| - 1].customerId == id then 1 else 0
  }

  // ---- The job -----------------------------------------------------------------------------------

  class SegmentJob {
    var customers: seq<Customer>
    var history: seq<Change>

    /** Applies the changes of one page: one row update and one history row each. */
    method ApplyChanges(updates: seq<Change>)
      modifies this
      ensures customers == Applied(old(customers), updates)
      ensures history == old(history) + updates
    {
      for i := 0 to |updates|
        invariant customers == Applied(old(customers), updates[..i])
        invariant history == old(history) + updates[..i]
      {
        assert updates[..i + 1][..i] == updates[..i];
        customers := SetSegment(customers, updates[i].customerId, updates[i].toSegment);
        history := history + [updates[i]];
      }
      assert updates[..|updates|] == updates;
    }

    /** The classification pass over one page. */
    method ClassifyPage(page: seq<Customer>, rules: Rules) returns (updates: seq<Change>)
      ensures updates == Changes(page, rules)
    {
      hide Classify;
      updates := [];
      for i := 0 to |page|
        invariant updates == Changes(page[..i], rules)
      {
        ChangesAppend(page[..i], page[i], rules);
        assert page[..i + 1] == page[..i] + [page[i]];
        var next := Classify(page[i], rules);
        if next != page[i].segment {
          updates := updates + [Change(page[i].id, page[i].segment, next)];
        }
      }
      assert page[..|page|] == page;
    }

    method RefreshSegments(rules: Rules) returns (processed: nat, changed: nat, ghost visited: seq<Customer>)
      requires ById(customers)
      modifies this
      ensures customers == Refreshed(old(customers), rules)
      ensures history == old(history) + Changes(Select(old(customers), None), rules)
      ensures visited == Select(old(customers), None) && processed == |visited|
      ensures changed == |Changes(Select(old(customers), None), rules)|
    {
      hide ById, Select, Classify, RefreshedFor, Changes, Refreshed, IdsOf, Applied, Page;
      ghost var rows, all := customers, Select(customers, None);
      processed, changed, visited := 0, 0, [];
      var cursor: Option<nat> := None;
      Nothing(rows, rules);
      while true
        invariant processed <= |all| && visited == all[..processed]
        invariant cursor == if processed == 0 then None else Some(all[processed - 1].id)
        invariant customers == RefreshedFor(rows, IdsOf(all[..processed]), rules)
        invariant history == old(history) + Changes(all[..processed], rules)
        invariant changed == |Changes(all[..processed], rules)|
        decreases |all| - processed
      {
        PageIsNext(rows, rules, processed, cursor);
        var page := Page(customers, cursor);
        if |page| == 0 {
          break;
        }
        cursor := Some(page[|page| - 1].id);
        ghost var front := all[..processed];
        processed, visited := processed + |page|, visited + page;
        var updates := ClassifyPage(page, rules);
        assert front + page == all[..processed];
        PageApplied(rows, rules, front, page);
        ChangesConcat(front, page, rules);
        if |updates| > 0 {
          ApplyChanges(updates);
          changed := changed + |updates|;
        } else {
          NoUpdates(customers, rules);
        }
        if |page| < CHUNK_SIZE {
          break;
        }
      }
      assert all[..processed] == all;
      AllActive(rows, rules);
    }
  }
}

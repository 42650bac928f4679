/** The append-only points ledger and its cached balance. */
module Ledger {
  import opened Utils

  type Id = string

  const POINTS_PER_POUND := 1
  const VISIT_BASE_POINTS := 5
  const REFERRAL_REWARD_POINTS := 100
  const VISIT_ACCRUAL := "VISIT_ACCRUAL"
  const REFERRAL_CREDIT := "REFERRAL_CREDIT"
  const AUTOMATION_REWARD := "AUTOMATION_REWARD"

  datatype RowType = CREDIT | DEBIT

  datatype Row = Row(
    customerId: Id,
    rowType: RowType,
    points: int,
    balanceAfter: int,
    reason: string,
    referenceId: Option<Id>)

  datatype Book = Book(balances: map<Id, int>, rows: seq<Row>)

  datatype Error =
    CustomerMissing | UniqueViolation | InsufficientPoints | VisitMissing | InvalidReferral | AlreadyReferred

  function Signed(row: Row): int {
    if row.rowType == CREDIT then row.points else -row.points
  }

  /** The signed sum of a customer's rows. */
  function Sum(rows: seq<Row>, c: Id): int {
    if rows == [] then 0
    else Sum(rows[..|rows| - 1], c) + var last := rows[|rows| - 1]; if last.customerId == c then Signed(last) else 0
  }

  /** The unique index on (customer, reason, reference); rows without a reference never collide. */
  predicate Collides(rows: seq<Row>, c: Id, reason: string, reference: Option<Id>) {
    reference.Some? && exists i :: 0 <= i < |rows| && rows[i].customerId == c && rows[i].reason == reason
                                   && rows[i].referenceId == reference
  }

  /** One posting: a credit or a debit as one transaction. */
  datatype Posting = Posting(customerId: Id, rowType: RowType, points: int, reason: string, referenceId: Option<Id>)

  function PostError(book: Book, p: Posting): Option<Error> {
    var current := if p.customerId in book.balances then book.balances[p.customerId] else 0;
    if p.rowType == DEBIT && current < p.points then Some(InsufficientPoints)
    else if p.customerId !in book.balances then Some(CustomerMissing)
    else if Collides(book.rows, p.customerId, p.reason, p.referenceId) then Some(UniqueViolation)
    else None
  }

  /** Appends the row and overwrites the cached balance with `balance`. */
  function Append(book: Book, p: Posting, balance: int): Book {
    Book(book.balances[p.customerId := balance],
         book.rows + [Row(p.customerId, p.rowType, p.points, balance, p.reason, p.referenceId)])
  }

  function Delta(p: Posting): int {
    if p.rowType == CREDIT then p.points else -p.points
  }

  function Post(book: Book, p: Posting): Book {
    if PostError(book, p).Some? then book
    else Append(book, p, book.balances[p.customerId] + Delta(p))
  }

  function Max(a: int, b: int): int {
    if a >= b then a else b
  }

  function Reconcile(book: Book, c: Id): Book {
    if c !in book.balances then book
    else book.(balances := book.balances[c := Max(0, Sum(book.rows, c))])
  }

  function AwardPosting(c: Id, points: int, workflow: Id): Posting {
    Posting(c, CREDIT, points, AUTOMATION_REWARD, Some(workflow))
  }

  lemma SumAppend(rows: seq<Row>, row: Row, c: Id)
    ensures Sum(rows + [row], c) == Sum(rows, c) + if row.customerId == c then Signed(row) else 0
  {
    assert (rows + [row])[..|rows|] == rows;
  }

  /** A posting goes through if and only if the customer exists, no earlier row has its customer, reason and
      reference, and a debit is covered. Then one row is added and the cached balance moves by the points, up for a
      credit and down for a debit; otherwise nothing changes. */
  lemma PostedIff(book: Book, p: Posting)
    ensures var after := Post(book, p);
      if p.customerId in book.balances
         && (p.rowType == DEBIT ==> p.points <= book.balances[p.customerId])
         && (p.referenceId == None
             || forall r :: r in book.rows ==>
                  r.customerId != p.customerId || r.reason != p.reason || r.referenceId != p.referenceId)
      then
        && |after.rows| == |book.rows| + 1 && after.rows[..|book.rows|] == book.rows
        && after.balances.Keys == book.balances.Keys
        && (forall c :: c in book.balances && c != p.customerId ==> after.balances[c] == book.balances[c])
        && after.balances[p.customerId] == book.balances[p.customerId]
             + (match p.rowType case CREDIT => p.points case DEBIT => -p.points)
        && after.rows[|book.rows|] == Row(p.customerId, p.rowType, p.points, after.balances[p.customerId], p.reason,
                                          p.referenceId)
      else after == book
  {
    CollidesIff(book.rows, p.customerId, p.reason, p.referenceId);
    hide Collides;
  }

  // ---- Serial runs -------------------------------------------------------------------------------

  /** Whole points per visit: five, plus one per whole pound. */
  function VisitPoints(amountPence: int): int {
    VISIT_BASE_POINTS + (amountPence / 100) * POINTS_PER_POUND
  }

  function VisitPosting(visit: Id, c: Id, amountPence: int): Posting {
    Posting(c, CREDIT, VisitPoints(amountPence), VISIT_ACCRUAL, Some(visit))
  }

  function ReferralPosting(referrer: Id, newCustomer: Id): Posting {
    Posting(referrer, CREDIT, REFERRAL_REWARD_POINTS, REFERRAL_CREDIT, Some(newCustomer))
  }

  /** The rows a loyalty operation can touch. Visits record the points earned, coupons their owner. */
  datatype Shop = Shop(
    book: Book,
    visits: map<Id, Option<int>>,
    codes: map<string, Id>,
    referredBy: map<Id, string>,
    coupons: seq<Id>)

  datatype Op =
    | Register(customer: Id)
    | RegisterVisit(visit: Id)
    | PostPoints(posting: Posting)
    | Accrue(visitId: Id, visitor: Id, amountPence: int)
    | Refer(newCustomer: Id, code: string)
    | Award(awarded: Id, points: int, workflow: Id)
    | Audit(audited: Id)

  function OpError(s: Shop, op: Op): Option<Error> {
    match op
    case Register(c) => None
    case RegisterVisit(v) => None
    case PostPoints(p) => PostError(s.book, p)
    case Accrue(v, c, amount) =>
      if v !in s.visits then Some(VisitMissing) else PostError(s.book, VisitPosting(v, c, amount))
    case Refer(n, code) =>
      if code !in s.codes || s.codes[code] == n then Some(InvalidReferral)
      else if n in s.referredBy && s.referredBy[n] != "" then Some(AlreadyReferred)
      else if n !in s.book.balances then Some(CustomerMissing)
      else PostError(s.book, ReferralPosting(s.codes[code], n))
    case Award(c, points, w) => PostError(s.book, AwardPosting(c, points, w))
    case Audit(c) => if c in s.book.balances then None else Some(CustomerMissing)
  }

  /** An operation changes nothing when it fails. */
  function Apply(s: Shop, op: Op): Shop {
    if OpError(s, op).Some? then s
    else
      match op
      case Register(c) =>
        if c in s.book.balances then s else s.(book := s.book.(balances := s.book.balances[c := 0]))
      case RegisterVisit(v) => if v in s.visits then s else s.(visits := s.visits[v := None])
      case PostPoints(p) => s.(book := Post(s.book, p))
      case Accrue(v, c, amount) =>
        s.(book := Post(s.book, VisitPosting(v, c, amount)), visits := s.visits[v := Some(VisitPoints(amount))])
      case Refer(n, code) =>
        s.(book := Post(s.book, ReferralPosting(s.codes[code], n)),
           referredBy := s.referredBy[n := code],
           coupons := s.coupons + [n])
      case Award(c, points, w) => s.(book := Post(s.book, AwardPosting(c, points, w)))
      case Audit(c) => s.(book := Reconcile(s.book, c))
  }

  function Run(s: Shop, ops: seq<Op>): Shop {
    if ops == [] then s else Apply(Run(s, ops[..|ops| - 1]), ops[|ops| - 1])
  }

  /** The cache is the signed sum of the ledger, and every row carries the prefix sum at that row. */
  ghost predicate Refines(book: Book) {
    && (forall c :: c in book.balances ==> book.balances[c] == Sum(book.rows, c))
    && (forall i :: 0 <= i < |book.rows| ==>
          && book.rows[i].customerId in book.balances
          && book.rows[i].balanceAfter == Sum(book.rows[..i + 1], book.rows[i].customerId))
  }

  lemma {:induction false} NoRowsNoSum(rows: seq<Row>, c: Id)
    requires forall i :: 0 <= i < |rows| ==> rows[i].customerId != c
    ensures Sum(rows, c) == 0
  {
    if rows != [] {
      NoRowsNoSum(rows[..|rows| - 1], c);
    }
  }

  /** The prefix sums of a longer ledger. */
  lemma PrefixSums(rows: seq<Row>, row: Row)
    requires forall i :: 0 <= i < |rows| ==> rows[i].balanceAfter == Sum(rows[..i + 1], rows[i].customerId)
    requires row.balanceAfter == Sum(rows + [row], row.customerId)
    ensures forall i :: 0 <= i < |rows + [row]| ==>
              (rows + [row])[i].balanceAfter == Sum((rows + [row])[..i + 1], (rows + [row])[i].customerId)
  {
    hide Sum;
    var more := rows + [row];
    forall i | 0 <= i < |more| ensures more[i].balanceAfter == Sum(more[..i + 1], more[i].customerId) {
      if i < |rows| {
        assert more[..i + 1] == rows[..i + 1];
      } else {
        assert more[..i + 1] == more;
      }
    }
  }

  lemma PostRefines(book: Book, p: Posting)
    requires Refines(book)
    ensures Refines(Post(book, p))
  {
    hide Sum, Collides;
    if PostError(book, p).None? {
      var balance := book.balances[p.customerId] + Delta(p);
      var row := Row(p.customerId, p.rowType, p.points, balance, p.reason, p.referenceId);
      forall c ensures Sum(book.rows + [row], c) == Sum(book.rows, c) + if p.customerId == c then Signed(row) else 0 {
        SumAppend(book.rows, row, c);
      }
      PrefixSums(book.rows, row);
    }
  }

  lemma RegisterRefines(book: Book, c: Id)
    requires Refines(book) && c !in book.balances
    ensures Refines(book.(balances := book.balances[c := 0]))
  {
    NoRowsNoSum(book.rows, c);
  }

  predicate NonNegative(book: Book) {
    forall c :: c in book.balances ==> book.balances[c] >= 0
  }

  /** On a refined, non-negative book, reconciling changes nothing. */
  lemma ReconcileIsNoOp(book: Book, c: Id)
    requires Refines(book) && NonNegative(book)
    ensures Reconcile(book, c) == book
  {
    if c in book.balances {
      assert book.balances[c := book.balances[c]] == book.balances;
    }
  }

  /** Points credited are not negative. */
  predicate PositiveOp(op: Op) {
    && (op.PostPoints? && op.posting.rowType == CREDIT ==> op.posting.points >= 0)
    && (op.Accrue? ==> op.amountPence >= 0)
    && (op.Award? ==> op.points >= 0)
  }

  function Opened(codes: map<string, Id>): Shop {
    Shop(Book(map[], []), map[], codes, map[], [])
  }

  lemma ApplyRefines(s: Shop, op: Op)
    requires Refines(s.book) && NonNegative(s.book)
    ensures Refines(Apply(s, op).book)
  {
    if OpError(s, op).None? {
      hide Refines, Collides, NonNegative, Post;
      match op
      case Register(c) => if c !in s.book.balances { RegisterRefines(s.book, c); }
      case RegisterVisit(v) =>
      case PostPoints(p) => PostRefines(s.book, p);
      case Accrue(v, c, amount) => PostRefines(s.book, VisitPosting(v, c, amount));
      case Refer(n, code) => PostRefines(s.book, ReferralPosting(s.codes[code], n));
      case Award(c, points, w) => PostRefines(s.book, AwardPosting(c, points, w));
      case Audit(c) => ReconcileIsNoOp(s.book, c);
    }
  }

  lemma PostNonNegative(book: Book, p: Posting)
    requires NonNegative(book) && (p.rowType == CREDIT ==> p.points >= 0)
    ensures NonNegative(Post(book, p))
  {
  }

  lemma ApplyNonNegative(s: Shop, op: Op)
    requires NonNegative(s.book) && PositiveOp(op)
    ensures NonNegative(Apply(s, op).book)
  {
    if OpError(s, op).None? {
      match op
      case Register(c) =>
      case RegisterVisit(v) =>
      case PostPoints(p) => PostNonNegative(s.book, p);
      case Accrue(v, c, amount) => PostNonNegative(s.book, VisitPosting(v, c, amount));
      case Refer(n, code) => PostNonNegative(s.book, ReferralPosting(s.codes[code], n));
      case Award(c, points, w) => PostNonNegative(s.book, AwardPosting(c, points, w));
      case Audit(c) =>
    }
  }

  /** Over any serial run of credits, debits, accruals, referrals, awards and audits: the cached balance is
      the signed sum of the ledger, every row's balanceAfter is the prefix sum at that row, no balance is
      negative, and reconciling is a no-op. */
  lemma {:induction false} LedgerRefinement(codes: map<string, Id>, ops: seq<Op>)
    requires forall op :: op in ops ==> PositiveOp(op)
    ensures var book := Run(Opened(codes), ops).book;
            && Refines(book) && NonNegative(book)
            && forall c :: Reconcile(book, c) == book
  {
    if ops != [] {
      var front := ops[..|ops| - 1];
      LedgerRefinement(codes, front);
      ApplyRefines(Run(Opened(codes), front), ops[|ops| - 1]);
      ApplyNonNegative(Run(Opened(codes), front), ops[|ops| - 1]);
      hide Refines, NonNegative, Apply;
    }
    var book := Run(Opened(codes), ops).book;
    forall c ensures Reconcile(book, c) == book {
      ReconcileIsNoOp(book, c);
    }
  }

  /** The ledger row an operation wants to write. */
  function PostingOf(s: Shop, op: Op): Option<Posting> {
    match op
    case PostPoints(p) => Some(p)
    case Accrue(v, c, amount) => Some(VisitPosting(v, c, amount))
    case Refer(n, code) => if code in s.codes then Some(ReferralPosting(s.codes[code], n)) else None
    case Award(c, points, w) => Some(AwardPosting(c, points, w))
    case _ => None
  }

  /** Once the ledger holds a row for a (customer, reason, reference), every later operation that would write
      that key changes nothing at all, whatever its points and whatever ran in between: a repeated credit,
      debit, visit accrual, referral or award. */
  lemma RepeatedKeyChangesNothing(s: Shop, c: Id, reason: string, reference: Id, ops: seq<Op>, op: Op)
    requires Collides(s.book.rows, c, reason, Some(reference))
    requires PostingOf(Run(s, ops), op).Some?
    requires var p := PostingOf(Run(s, ops), op).value;
             p.customerId == c && p.reason == reason && p.referenceId == Some(reference)
    ensures Apply(Run(s, ops), op) == Run(s, ops) && OpError(Run(s, ops), op).Some?
  {
    RunAppends(s, ops);
    var i :| 0 <= i < |s.book.rows| && s.book.rows[i].customerId == c && s.book.rows[i].reason == reason
             && s.book.rows[i].referenceId == Some(reference);
    var later := Run(s, ops);
    assert later.book.rows[i] == s.book.rows[i];
    assert Collides(later.book.rows, c, reason, Some(reference));
  }

  lemma ApplyAppends(s: Shop, op: Op)
    ensures s.book.rows <= Apply(s, op).book.rows
  {
  }

  /** Rows are only ever appended. */
  lemma {:induction false} RunAppends(s: Shop, ops: seq<Op>)
    ensures s.book.rows <= Run(s, ops).book.rows
  {
    if ops != [] {
      RunAppends(s, ops[..|ops| - 1]);
      ApplyAppends(Run(s, ops[..|ops| - 1]), ops[|ops| - 1]);
      hide Apply;
    }
  }

  /** The sum of a customer's credits, or of the debits. */
  function Credited(rows: seq<Row>, c: Id, rowType: RowType): int {
    if rows == [] then 0
    else
      var last := rows[|rows| - 1];
      Credited(rows[..|rows| - 1], c, rowType)
      + if last.customerId == c && last.rowType == rowType then last.points else 0
  }

  lemma {:induction false} SumIsCreditsLessDebits(rows: seq<Row>, c: Id)
    ensures Sum(rows, c) == Credited(rows, c, CREDIT) - Credited(rows, c, DEBIT)
  {
    if rows != [] {
      SumIsCreditsLessDebits(rows[..|rows| - 1], c);
    }
  }

  /** What is earned: 5 points and 1 per whole pound for a visit, once per visit, and 100 for a referral, once per
      referred customer. */
  lemma Earnings(s: Shop, op: Op)
    requires OpError(s, op).None?
    ensures var rows := Apply(s, op).book.rows;
      && (op.Accrue? ==>
            && |rows| == |s.book.rows| + 1 && op.visitId in s.visits
            && var r := rows[|s.book.rows|];
               && r.customerId == op.visitor && r.rowType == CREDIT && r.referenceId == Some(op.visitId)
               && Apply(s, op).visits[op.visitId] == Some(r.points)
               && 0 <= op.amountPence - 100 * (r.points - 5) < 100)
      && (op.Refer? ==>
            && |rows| == |s.book.rows| + 1 && op.code in s.codes
            && var r := rows[|s.book.rows|];
               && r.customerId == s.codes[op.code] && r.rowType == CREDIT && r.points == 100
               && r.referenceId == Some(op.newCustomer))
      && (op.Award? ==>
            && |rows| == |s.book.rows| + 1
            && var r := rows[|s.book.rows|];
               && r.customerId == op.awarded && r.rowType == CREDIT && r.points == op.points
               && r.referenceId == Some(op.workflow))
  {
  }

  /** A visit earns its points if and only if the visit is there, the customer is, and no accrual row of that visit
      is in the ledger; a referral if and only if the code is somebody else's, the customer is there and was not
      referred before, and the referrer is there and has no credit for this customer yet. */
  lemma EarnedIff(s: Shop, op: Op)
    ensures op.Accrue? ==>
              (OpError(s, op).None? <==>
               && op.visitId in s.visits && op.visitor in s.book.balances
               && forall r :: r in s.book.rows && r.customerId == op.visitor && r.reason == "VISIT_ACCRUAL" ==>
                                r.referenceId != Some(op.visitId))
    ensures op.Refer? ==>
              (OpError(s, op).None? <==>
               && op.code in s.codes && s.codes[op.code] != op.newCustomer
               && op.newCustomer in s.book.balances && s.codes[op.code] in s.book.balances
               && (op.newCustomer in s.referredBy ==> s.referredBy[op.newCustomer] == "")
               && forall r :: r in s.book.rows && r.customerId == s.codes[op.code] && r.reason == "REFERRAL_CREDIT" ==>
                                r.referenceId != Some(op.newCustomer))
  {
    if op.Accrue? {
      CollidesIff(s.book.rows, op.visitor, "VISIT_ACCRUAL", Some(op.visitId));
    }
    if op.Refer? && op.code in s.codes {
      CollidesIff(s.book.rows, s.codes[op.code], "REFERRAL_CREDIT", Some(op.newCustomer));
    }
    hide Collides;
  }

  lemma CollidesIff(rows: seq<Row>, c: Id, reason: string, reference: Option<Id>)
    ensures Collides(rows, c, reason, reference) <==>
            reference != None && exists r :: r in rows && r.customerId == c && r.reason == reason
                                             && r.referenceId == reference
  {
    if r :| r in rows && r.customerId == c && r.reason == reason && r.referenceId == reference {
      var i :| 0 <= i < |rows| && rows[i] == r;
    }
  }

  // ---- Referrals ---------------------------------------------------------------------------------

  predicate HasCredit(rows: seq<Row>, referrer: Id, newCustomer: Id) {
    exists i :: 0 <= i < |rows| && rows[i].customerId == referrer && rows[i].rowType == CREDIT
                && rows[i].points == REFERRAL_REWARD_POINTS && rows[i].reason == REFERRAL_CREDIT
                && rows[i].referenceId == Some(newCustomer)
  }

  /** One signup coupon and one referrer credit per referred customer. */
  ghost predicate ReferralsMatch(s: Shop) {
    && (forall i, j :: 0 <= i < j < |s.coupons| ==> s.coupons[i] != s.coupons[j])
    && (forall n :: n in s.coupons <==> n in s.referredBy)
    && (forall n :: n in s.referredBy ==>
          && s.referredBy[n] in s.codes
          && s.codes[s.referredBy[n]] != n
          && HasCredit(s.book.rows, s.codes[s.referredBy[n]], n))
  }

  lemma CreditsStay(rows: seq<Row>, more: seq<Row>, referrer: Id, n: Id)
    requires rows <= more && HasCredit(rows, referrer, n)
    ensures HasCredit(more, referrer, n)
  {
    var i :| 0 <= i < |rows| && rows[i].customerId == referrer && rows[i].rowType == CREDIT
             && rows[i].points == REFERRAL_REWARD_POINTS && rows[i].reason == REFERRAL_CREDIT
             && rows[i].referenceId == Some(n);
    assert more[i] == rows[i];
  }

  lemma ApplyKeepsReferrals(s: Shop, op: Op)
    requires ReferralsMatch(s) && "" !in s.codes
    ensures ReferralsMatch(Apply(s, op)) && Apply(s, op).codes == s.codes
  {
    var s' := Apply(s, op);
    assert s.book.rows <= s'.book.rows;
    forall n | n in s'.referredBy
      ensures s'.referredBy[n] in s.codes && s.codes[s'.referredBy[n]] != n
      ensures HasCredit(s'.book.rows, s.codes[s'.referredBy[n]], n)
    {
      if op.Refer? && n == op.newCustomer && OpError(s, op).None? {
        assert s'.book.rows[|s.book.rows|].referenceId == Some(n);
      } else {
        CreditsStay(s.book.rows, s'.book.rows, s.codes[s.referredBy[n]], n);
      }
    }
    if op.Refer? && OpError(s, op).None? {
      assert s'.coupons == s.coupons + [op.newCustomer];
    }
  }

  /** Over any serial run, referral conversion is all or nothing: the customers marked as referred are exactly
      those with a signup coupon, one each, and each has credited its referrer, who is someone else. */
  lemma {:induction false} ReferralsAreAtomic(codes: map<string, Id>, ops: seq<Op>)
    requires "" !in codes
    ensures ReferralsMatch(Run(Opened(codes), ops)) && Run(Opened(codes), ops).codes == codes
  {
    if ops != [] {
      ReferralsAreAtomic(codes, ops[..|ops| - 1]);
      ApplyKeepsReferrals(Run(Opened(codes), ops[..|ops| - 1]), ops[|ops| - 1]);
    }
  }

  // ---- Service -----------------------------------------------------------------------------------

  class LoyaltyService {
    var balances: map<Id, int>
    var rows: seq<Row>
    var visits: map<Id, Option<int>>
    var codes: map<string, Id>
    var referredBy: map<Id, string>
    var coupons: seq<Id>

    ghost function Books(): Book
      reads this
    {
      Book(balances, rows)
    }

    ghost function Snapshot(): Shop
      reads this
    {
      Shop(Books(), visits, codes, referredBy, coupons)
    }

    /** A unique insert into the ledger, with the balance overwritten in the same transaction. */
    method WriteRow(p: Posting, newBalance: int) returns (error: Option<Error>)
      modifies this`balances, this`rows
      ensures error == if p.customerId !in old(balances) then Some(CustomerMissing)
                       else if Collides(old(rows), p.customerId, p.reason, p.referenceId) then Some(UniqueViolation)
                       else None
      ensures Books() == if error.Some? then old(Books()) else Append(old(Books()), p, newBalance)
    {
      if p.customerId !in balances {
        return Some(CustomerMissing);
      }
      if Collides(rows, p.customerId, p.reason, p.referenceId) {
        return Some(UniqueViolation);
      }
      rows := rows + [Row(p.customerId, p.rowType, p.points, newBalance, p.reason, p.referenceId)];
      balances := balances[p.customerId := newBalance];
      return None;
    }

    method CreditPoints(c: Id, points: int, reason: string, reference: Option<Id>) returns (error: Option<Error>)
      modifies this`balances, this`rows
      ensures error == PostError(old(Books()), Posting(c, CREDIT, points, reason, reference))
      ensures Books() == Post(old(Books()), Posting(c, CREDIT, points, reason, reference))
    {
      var current := if c in balances then balances[c] else 0;
      error := WriteRow(Posting(c, CREDIT, points, reason, reference), current + points);
    }

    method DebitPoints(c: Id, points: int, reason: string, reference: Option<Id>) returns (error: Option<Error>)
      modifies this`balances, this`rows
      ensures error == PostError(old(Books()), Posting(c, DEBIT, points, reason, reference))
      ensures Books() == Post(old(Books()), Posting(c, DEBIT, points, reason, reference))
    {
      var current := if c in balances then balances[c] else 0;
      if current < points {
        return Some(InsufficientPoints);
      }
      error := WriteRow(Posting(c, DEBIT, points, reason, reference), current - points);
    }

    method ReconcilePointsBalance(c: Id) returns (corrected: int, error: Option<Error>)
      modifies this`balances
      ensures corrected == Max(0, Sum(rows, c))
      ensures error == OpError(old(Snapshot()), Audit(c))
      ensures Snapshot() == Apply(old(Snapshot()), Audit(c))
    {
      var balance := 0;
      for i := 0 to |rows|
        invariant balance == Sum(rows[..i], c)
        invariant balances == old(balances)
      {
        assert rows[..i + 1][..i] == rows[..i];
        if rows[i].customerId == c {
          balance := if rows[i].rowType == CREDIT then balance + rows[i].points else balance - rows[i].points;
        }
      }
      assert rows[..|rows|] == rows;
      corrected := if balance > 0 then balance else 0;
      if c !in balances {
        return corrected, Some(CustomerMissing);
      }
      balances := balances[c := corrected];
      error := None;
    }

    method AccruePointsForVisit(visit: Id, c: Id, amountPence: int)
      returns (pointsEarned: int, error: Option<Error>)
      modifies this
      ensures pointsEarned == VisitPoints(amountPence)
      ensures error == OpError(old(Snapshot()), Accrue(visit, c, amountPence))
      ensures Snapshot() == Apply(old(Snapshot()), Accrue(visit, c, amountPence))
    {
      pointsEarned := VISIT_BASE_POINTS + (amountPence / 100) * POINTS_PER_POUND;
      if visit !in visits {
        return pointsEarned, Some(VisitMissing);
      }
      var before := visits;
      visits := visits[visit := Some(pointsEarned)];
      error := CreditPoints(c, pointsEarned, VISIT_ACCRUAL, Some(visit));
      if error.Some? {
        visits := before;  // rollback
      }
    }

    method ProcessReferralConversion(newCustomer: Id, code: string) returns (error: Option<Error>)
      modifies this
      ensures error == OpError(old(Snapshot()), Refer(newCustomer, code))
      ensures Snapshot() == Apply(old(Snapshot()), Refer(newCustomer, code))
    {
      if code !in codes || codes[code] == newCustomer {
        return Some(InvalidReferral);
      }
      var referrer := codes[code];
      if newCustomer in referredBy && referredBy[newCustomer] != "" {
        return Some(AlreadyReferred);
      }
      if newCustomer !in balances {
        return Some(CustomerMissing);
      }
      var referredBefore, couponsBefore := referredBy, coupons;
      referredBy := referredBy[newCustomer := code];
      coupons := coupons + [newCustomer];
      error := CreditPoints(referrer, REFERRAL_REWARD_POINTS, REFERRAL_CREDIT, Some(newCustomer));
      if error.Some? {
        referredBy, coupons := referredBefore, couponsBefore;  // rollback
      }
    }

    /** The worker's own award: reads the balance outside the transaction that writes. The worker passes over a
        missing customer without a word; here that is reported. */
    method AwardAutomationPoints(c: Id, points: int, workflow: Id) returns (error: Option<Error>)
      modifies this`balances, this`rows
      ensures error == OpError(old(Snapshot()), Award(c, points, workflow))
      ensures Snapshot() == Apply(old(Snapshot()), Award(c, points, workflow))
    {
      if c !in balances {
        return Some(CustomerMissing);
      }
      var newBalance := balances[c] + points;
      error := WriteRow(AwardPosting(c, points, workflow), newBalance);
    }
  }
}

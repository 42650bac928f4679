/** POS webhook ingestion: deliveries as interleaved step sequences that can stop between any two steps. */
module PosIngest {
  import opened Utils
  import Ledger

  type TransactionId = string
  type CustomerId = nat

  datatype Identity = Identity(phone: Option<string>, email: Option<string>)

  datatype Delivery = Delivery(transactionId: TransactionId, identity: Identity, amountPence: int)

  datatype LogStatus = PENDING | DUPLICATE | MISSING_CUSTOMER_IDENTITY | PROCESSED

  /** Spend in pence. */
  datatype PosCustomer = PosCustomer(identity: Identity, totalSpend: int, visitCount: int)

  /** A visit row; `maker` numbers the delivery that created it and is kept by the model only. */
  datatype Visit = Visit(transactionId: TransactionId, customer: CustomerId, amountPence: int, maker: nat)

  /** The ledger row of a visit accrual. */
  datatype Accrual = Accrual(transactionId: TransactionId, customer: CustomerId, points: int, maker: nat)

  datatype Db = Db(
    logs: map<TransactionId, LogStatus>,
    customers: map<CustomerId, PosCustomer>,
    visits: seq<Visit>,
    accruals: seq<Accrual>)

  /** How far the processing of a delivery has come. `Seen` found an existing log, `Fresh` found none. */
  datatype Phase =
    | Arrived
    | Seen
    | Fresh
    | Logged
    | Found(existing: Option<CustomerId>)
    | Spent(customer: CustomerId)
    | Visited(customer: CustomerId)
    | Counted(customer: CustomerId)
    | Accrued(customer: CustomerId)
    | Completed(customer: CustomerId)
    | Dropped

  predicate Matches(c: PosCustomer, identity: Identity) {
    (identity.phone.Some? && c.identity.phone == identity.phone)
    || (identity.email.Some? && c.identity.email == identity.email)
  }

  predicate Anonymous(identity: Identity) {
    identity.phone.None? && identity.email.None?
  }

  /** What the database decides in a step: the matching customer it returns, and the id of a created one. */
  datatype Choice = Choice(found: Option<CustomerId>, newId: CustomerId)

  predicate Allowed(db: Db, d: Delivery, phase: Phase, choice: Choice) {
    match phase
    case Logged =>
      if choice.found.Some? then choice.found.value in db.customers
                                 && Matches(db.customers[choice.found.value], d.identity)
      else forall c :: c in db.customers ==> !Matches(db.customers[c], d.identity)
    case Found(c) => if c.Some? then c.value in db.customers else choice.newId !in db.customers
    case Spent(c) => c in db.customers
    case Visited(c) => c in db.customers
    case Counted(c) => c in db.customers
    case Accrued(c) => c in db.customers
    case Completed(_) => false
    case Dropped => false
    case _ => true
  }

  function SetLog(db: Db, t: TransactionId, status: LogStatus): Db {
    db.(logs := db.logs[t := status])
  }

  /** The next step of delivery number `maker`. */
  function Advance(db: Db, maker: nat, d: Delivery, phase: Phase, choice: Choice): (Db, Phase)
    requires Allowed(db, d, phase, choice)
  {
    var t := d.transactionId;
    match phase
    case Arrived => (db, if t in db.logs then Seen else Fresh)
    case Seen => (SetLog(db, t, DUPLICATE), Dropped)
    case Fresh => if t in db.logs then (db, Dropped) else (SetLog(db, t, PENDING), Logged)
    case Logged =>
      if Anonymous(d.identity) then (SetLog(db, t, MISSING_CUSTOMER_IDENTITY), Dropped)
      else (db, Found(choice.found))
    case Found(Some(c)) =>
      var row := db.customers[c];
      (db.(customers := db.customers[c := row.(totalSpend := row.totalSpend + d.amountPence)]), Spent(c))
    case Found(None) =>
      (db.(customers := db.customers[choice.newId := PosCustomer(d.identity, d.amountPence, 0)]),
       Spent(choice.newId))
    case Spent(c) => (db.(visits := db.visits + [Visit(t, c, d.amountPence, maker)]), Visited(c))
    case Visited(c) =>
      var row := db.customers[c];
      (db.(customers := db.customers[c := row.(visitCount := row.visitCount + 1)]), Counted(c))
    case Counted(c) =>
      (db.(accruals := db.accruals + [Accrual(t, c, Ledger.VisitPoints(d.amountPence), maker)]), Accrued(c))
    case Accrued(c) => (SetLog(db, t, PROCESSED), Completed(c))
    case _ => (db, phase)
  }

  datatype Process = Process(delivery: Delivery, phase: Phase)

  datatype System = System(db: Db, procs: seq<Process>)

  datatype Move = Move(proc: nat, choice: Choice)

  predicate Enabled(s: System, m: Move) {
    m.proc < |s.procs| && Allowed(s.db, s.procs[m.proc].delivery, s.procs[m.proc].phase, m.choice)
  }

  function Step(s: System, m: Move): System
    requires Enabled(s, m)
  {
    var p := s.procs[m.proc];
    var (db, phase) := Advance(s.db, m.proc, p.delivery, p.phase, m.choice);
    System(db, s.procs[m.proc := p.(phase := phase)])
  }

  /** Any prefix of any interleaving: a delivery whose moves end early has crashed at that point. */
  ghost predicate IsRun(states: seq<System>, moves: seq<Move>) {
    && |states| == |moves| + 1
    && forall i :: 0 <= i < |moves| ==> Enabled(states[i], moves[i]) && states[i + 1] == Step(states[i], moves[i])
  }

  ghost predicate Starts(s: System) {
    && s.db.logs == map[] && s.db.visits == [] && s.db.accruals == []
    && forall i :: 0 <= i < |s.procs| ==> s.procs[i].phase.Arrived?
  }

  // ---- At most once ------------------------------------------------------------------------------

  function Stage(phase: Phase): nat {
    match phase
    case Spent(_) => 1
    case Visited(_) => 2
    case Counted(_) => 3
    case Accrued(_) => 4
    case Completed(_) => 5
    case _ => 0
  }

  const SPENT := 1
  const VISITED := 2
  const COUNTED := 3
  const ACCRUED := 4

  /** The process has created the log row of its transaction and goes on from there. */
  predicate Owns(p: Process) {
    p.phase.Logged? || p.phase.Found? || Stage(p.phase) >= SPENT
  }

  ghost predicate SoleOwners(s: System) {
    && (forall i :: 0 <= i < |s.procs| && Owns(s.procs[i]) ==> s.procs[i].delivery.transactionId in s.db.logs)
    && (forall i, j :: 0 <= i < j < |s.procs| && Owns(s.procs[i]) && Owns(s.procs[j]) ==>
          s.procs[i].delivery.transactionId != s.procs[j].delivery.transactionId)
  }

  predicate MadeBy(s: System, maker: nat, t: TransactionId, stage: nat) {
    maker < |s.procs| && Stage(s.procs[maker].phase) >= stage && s.procs[maker].delivery.transactionId == t
  }

  /** Each visit was made by its own delivery, which is past that step. */
  ghost predicate VisitsAttributed(s: System) {
    && (forall v :: 0 <= v < |s.db.visits| ==> MadeBy(s, s.db.visits[v].maker, s.db.visits[v].transactionId, VISITED))
    && (forall v, w :: 0 <= v < w < |s.db.visits| ==> s.db.visits[v].maker != s.db.visits[w].maker)
  }

  /** Likewise each accrual. */
  ghost predicate AccrualsAttributed(s: System) {
    && (forall a :: 0 <= a < |s.db.accruals| ==>
          MadeBy(s, s.db.accruals[a].maker, s.db.accruals[a].transactionId, ACCRUED))
    && (forall a, b :: 0 <= a < b < |s.db.accruals| ==> s.db.accruals[a].maker != s.db.accruals[b].maker)
  }

  lemma StepKeepsOwners(s: System, m: Move)
    requires Enabled(s, m) && SoleOwners(s)
    ensures SoleOwners(Step(s, m))
  {
    hide Matches, Anonymous;
  }

  lemma StepKeepsVisitsAttributed(s: System, m: Move)
    requires Enabled(s, m) && VisitsAttributed(s)
    ensures VisitsAttributed(Step(s, m))
  {
    hide Matches, Anonymous;
  }

  lemma StepKeepsAccrualsAttributed(s: System, m: Move)
    requires Enabled(s, m) && AccrualsAttributed(s)
    ensures AccrualsAttributed(Step(s, m))
  {
    hide Matches, Anonymous;
  }

  /** Conversely a delivery past the visit step has its visit. */
  ghost predicate PassedHaveVisits(s: System) {
    forall i :: 0 <= i < |s.procs| && Stage(s.procs[i].phase) >= VISITED ==>
                  HasVisit(s.db, s.procs[i].delivery.transactionId)
  }

  ghost predicate HasVisit(db: Db, t: TransactionId) {
    exists v :: 0 <= v < |db.visits| && db.visits[v].transactionId == t
  }

  lemma VisitsOnlyGrow(s: System, m: Move, t: TransactionId)
    requires Enabled(s, m) && HasVisit(s.db, t)
    ensures HasVisit(Step(s, m).db, t)
  {
    hide Matches, Anonymous;
    var v :| 0 <= v < |s.db.visits| && s.db.visits[v].transactionId == t;
    assert Step(s, m).db.visits[v] == s.db.visits[v];
  }

  lemma StepKeepsPassed(s: System, m: Move)
    requires Enabled(s, m) && PassedHaveVisits(s)
    ensures PassedHaveVisits(Step(s, m))
  {
    var s' := Step(s, m);
    forall i | 0 <= i < |s'.procs| && Stage(s'.procs[i].phase) >= VISITED
      ensures HasVisit(s'.db, s'.procs[i].delivery.transactionId)
    {
      if Stage(s.procs[i].phase) >= VISITED {
        VisitsOnlyGrow(s, m, s.procs[i].delivery.transactionId);
      } else {
        VisitJustMade(s, m);
      }
    }
  }

  lemma VisitJustMade(s: System, m: Move)
    requires Enabled(s, m)
    requires Stage(s.procs[m.proc].phase) < VISITED <= Stage(Step(s, m).procs[m.proc].phase)
    ensures HasVisit(Step(s, m).db, s.procs[m.proc].delivery.transactionId)
  {
    hide Matches, Anonymous;
    assert Step(s, m).db.visits[|s.db.visits|].transactionId == s.procs[m.proc].delivery.transactionId;
  }

  lemma {:induction false} PassedAlwaysHaveVisits(states: seq<System>, moves: seq<Move>, k: nat)
    requires IsRun(states, moves) && Starts(states[0]) && k < |states|
    ensures PassedHaveVisits(states[k])
  {
    if k > 0 {
      PassedAlwaysHaveVisits(states, moves, k - 1);
      assert Enabled(states[k - 1], moves[k - 1]);
      StepKeepsPassed(states[k - 1], moves[k - 1]);
    }
  }

  // ---- Whose visit -------------------------------------------------------------------------------

  /** The customer has the phone or the e-mail that the delivery gives. */
  ghost predicate SharesIdentity(c: PosCustomer, d: Delivery) {
    || (exists phone :: d.identity.phone == Some(phone) && c.identity.phone == Some(phone))
    || (exists email :: d.identity.email == Some(email) && c.identity.email == Some(email))
  }

  lemma MatchesIff(c: PosCustomer, d: Delivery)
    ensures Matches(c, d.identity) <==> SharesIdentity(c, d)
    ensures Anonymous(d.identity) <==> d.identity == Identity(None, None)
  {
    if Matches(c, d.identity) {
      if d.identity.phone.Some? && c.identity.phone == d.identity.phone {
        assert d.identity.phone == Some(d.identity.phone.value);
      } else {
        assert d.identity.email == Some(d.identity.email.value);
      }
    }
  }

  /** The customer a process has found or charged shares the identity of its delivery. */
  ghost predicate OwnCustomer(db: Db, p: Process) {
    && (p.phase.Found? ==>
          && !Anonymous(p.delivery.identity)
          && (p.phase.existing.Some? ==>
                p.phase.existing.value in db.customers
                && Matches(db.customers[p.phase.existing.value], p.delivery.identity)))
    && (Stage(p.phase) >= SPENT ==>
          p.phase.customer in db.customers && Matches(db.customers[p.phase.customer], p.delivery.identity))
  }

  /** The visit is that of the delivery that made it: its transaction, its amount and its customer. */
  ghost predicate OwnVisit(s: System, v: Visit) {
    && v.maker < |s.procs| && Stage(s.procs[v.maker].phase) >= VISITED
    && s.procs[v.maker].phase.customer == v.customer
    && s.procs[v.maker].delivery.transactionId == v.transactionId
    && s.procs[v.maker].delivery.amountPence == v.amountPence
  }

  ghost predicate CustomersOwned(s: System) {
    && (forall i :: 0 <= i < |s.procs| ==> OwnCustomer(s.db, s.procs[i]))
    && (forall i :: 0 <= i < |s.db.visits| ==> OwnVisit(s, s.db.visits[i]))
  }

  /** Customers are never removed and keep the identity they were created with. */
  lemma IdentityStays(s: System, m: Move, c: CustomerId)
    requires Enabled(s, m) && c in s.db.customers
    ensures c in Step(s, m).db.customers && Step(s, m).db.customers[c].identity == s.db.customers[c].identity
  {
    hide Matches, Anonymous;
  }

  lemma OwnCustomerStays(db: Db, db': Db, p: Process)
    requires OwnCustomer(db, p)
    requires forall c :: c in db.customers ==>
               c in db'.customers && db'.customers[c].identity == db.customers[c].identity
    ensures OwnCustomer(db', p)
  {
  }

  lemma MoverOwnsCustomer(s: System, m: Move)
    requires Enabled(s, m) && OwnCustomer(s.db, s.procs[m.proc])
    ensures OwnCustomer(Step(s, m).db, Step(s, m).procs[m.proc])
  {
  }

  lemma StepKeepsCustomersOwned(s: System, m: Move)
    requires Enabled(s, m) && CustomersOwned(s)
    ensures CustomersOwned(Step(s, m))
  {
    var s' := Step(s, m);
    hide Matches, Anonymous, OwnCustomer;
    MoverOwnsCustomer(s, m);
    forall c | c in s.db.customers
      ensures c in s'.db.customers && s'.db.customers[c].identity == s.db.customers[c].identity
    {
      IdentityStays(s, m, c);
    }
    forall i | 0 <= i < |s'.procs| ensures OwnCustomer(s'.db, s'.procs[i]) {
      if i != m.proc {
        OwnCustomerStays(s.db, s'.db, s.procs[i]);
      }
    }
    forall i | 0 <= i < |s'.db.visits| ensures OwnVisit(s', s'.db.visits[i]) {
      if i < |s.db.visits| {
        assert s'.db.visits[i] == s.db.visits[i] && OwnVisit(s, s.db.visits[i]);
      }
    }
  }

  /**
   * In every reachable state, every visit is that of the delivery that made it, for its amount, and belongs to a
   * customer who has the phone or the e-mail of that delivery; no anonymous delivery ever makes a visit.
   */
  lemma {:induction false} VisitsGoToTheirCustomers(states: seq<System>, moves: seq<Move>, k: nat)
    requires IsRun(states, moves) && Starts(states[0]) && k < |states|
    ensures CustomersOwned(states[k])
    ensures var s := states[k];
      forall v :: v in s.db.visits ==>
        && v.maker < |s.procs| && v.customer in s.db.customers
        && var d := s.procs[v.maker].delivery;
        && v.transactionId == d.transactionId && v.amountPence == d.amountPence
        && SharesIdentity(s.db.customers[v.customer], d)
  {
    if k > 0 {
      VisitsGoToTheirCustomers(states, moves, k - 1);
      assert Enabled(states[k - 1], moves[k - 1]);
      StepKeepsCustomersOwned(states[k - 1], moves[k - 1]);
    }
    hide IsRun, Starts, Matches, SharesIdentity;
    var s := states[k];
    forall v | v in s.db.visits
      ensures v.maker < |s.procs| && v.customer in s.db.customers
      ensures SharesIdentity(s.db.customers[v.customer], s.procs[v.maker].delivery)
    {
      var i :| 0 <= i < |s.db.visits| && s.db.visits[i] == v;
      assert OwnVisit(s, s.db.visits[i]) && OwnCustomer(s.db, s.procs[v.maker]);
      MatchesIff(s.db.customers[v.customer], s.procs[v.maker].delivery);
    }
  }

  // ---- Totals ------------------------------------------------------------------------------------

  datatype Weight = Ones | Pence | Points

  function WeightOf(d: Delivery, w: Weight): int {
    match w
    case Ones => 1
    case Pence => d.amountPence
    case Points => Ledger.VisitPoints(d.amountPence)
  }

  function CustomerOf(phase: Phase): Option<CustomerId> {
    if Stage(phase) >= SPENT then Some(phase.customer) else None
  }

  /** What a process contributes to customer c at a stage. */
  function Share(p: Process, c: CustomerId, stage: nat, w: Weight): int {
    if CustomerOf(p.phase) == Some(c) && Stage(p.phase) >= stage then WeightOf(p.delivery, w) else 0
  }

  function Total(procs: seq<Process>, c: CustomerId, stage: nat, w: Weight): int {
    if procs == [] then 0
    else Total(procs[..|procs| - 1], c, stage, w) + Share(procs[|procs| - 1], c, stage, w)
  }

  lemma {:induction false} TotalAfterMove(procs: seq<Process>, i: nat, p: Process, c: CustomerId, stage: nat, w: Weight)
    requires i < |procs|
    ensures Total(procs[i := p], c, stage, w)
         == Total(procs, c, stage, w) - Share(procs[i], c, stage, w) + Share(p, c, stage, w)
    decreases |procs|
  {
    var front := procs[..|procs| - 1];
    if i == |front| {
      assert procs[i := p][..|front|] == front;
    } else {
      TotalAfterMove(front, i, p, c, stage, w);
      assert procs[i := p][..|front|] == front[i := p];
    }
  }

  lemma {:induction false} TotalIsZero(procs: seq<Process>, c: CustomerId, stage: nat, w: Weight)
    requires forall i :: 0 <= i < |procs| ==> CustomerOf(procs[i].phase) != Some(c)
    ensures Total(procs, c, stage, w) == 0
  {
    if procs != [] {
      TotalIsZero(procs[..|procs| - 1], c, stage, w);
    }
  }

  function VisitTotal(visits: seq<Visit>, c: CustomerId, w: Weight): int {
    if visits == [] then 0
    else
      var last := visits[|visits| - 1];
      VisitTotal(visits[..|visits| - 1], c, w)
      + if last.customer != c then 0
        else match w
             case Ones => 1
             case Pence => last.amountPence
             case Points => Ledger.VisitPoints(last.amountPence)
  }

  function AccrualTotal(accruals: seq<Accrual>, c: CustomerId): int {
    if accruals == [] then 0
    else
      AccrualTotal(accruals[..|accruals| - 1], c)
      + if accruals[|accruals| - 1].customer == c then accruals[|accruals| - 1].points else 0
  }

  ghost predicate Populated(s: System) {
    forall i :: 0 <= i < |s.procs| && CustomerOf(s.procs[i].phase).Some? ==>
                  CustomerOf(s.procs[i].phase).value in s.db.customers
  }

  function Opening(first: Db, c: CustomerId): PosCustomer {
    if c in first.customers then first.customers[c] else PosCustomer(Identity(None, None), 0, 0)
  }

  predicate CountersTallied(first: Db, s: System, c: CustomerId) {
    var row := if c in s.db.customers then s.db.customers[c] else Opening(first, c);
    && row.totalSpend == Opening(first, c).totalSpend + Total(s.procs, c, SPENT, Pence)
    && row.visitCount == Opening(first, c).visitCount + Total(s.procs, c, COUNTED, Ones)
  }

  predicate VisitsTallied(s: System, c: CustomerId) {
    && VisitTotal(s.db.visits, c, Pence) == Total(s.procs, c, VISITED, Pence)
    && VisitTotal(s.db.visits, c, Ones) == Total(s.procs, c, VISITED, Ones)
    && VisitTotal(s.db.visits, c, Points) == Total(s.procs, c, VISITED, Points)
  }

  predicate AccrualsTallied(s: System, c: CustomerId) {
    AccrualTotal(s.db.accruals, c) == Total(s.procs, c, ACCRUED, Points)
  }

  /** The customer's counters, visits and accruals are the sums over the deliveries past each step. */
  predicate Tallied(first: Db, s: System, c: CustomerId) {
    CountersTallied(first, s, c) && VisitsTallied(s, c) && AccrualsTallied(s, c)
  }

  lemma AccrualAppend(accruals: seq<Accrual>, a: Accrual, c: CustomerId)
    ensures AccrualTotal(accruals + [a], c) == AccrualTotal(accruals, c) + if a.customer == c then a.points else 0
  {
    assert (accruals + [a])[..|accruals|] == accruals;
  }

  lemma StepPopulated(s: System, m: Move)
    requires Enabled(s, m) && Populated(s)
    ensures Populated(Step(s, m)) && s.db.customers.Keys <= Step(s, m).db.customers.Keys
  {
  }

  lemma StepCounters(first: Db, s: System, m: Move, c: CustomerId)
    requires Enabled(s, m) && Populated(s) && first.customers.Keys <= s.db.customers.Keys
    requires CountersTallied(first, s, c)
    ensures CountersTallied(first, Step(s, m), c)
  {
    hide Total, Matches, Anonymous;
    var p' := Step(s, m).procs[m.proc];
    TotalAfterMove(s.procs, m.proc, p', c, SPENT, Pence);
    TotalAfterMove(s.procs, m.proc, p', c, COUNTED, Ones);
  }

  lemma StepVisits(s: System, m: Move, c: CustomerId)
    requires Enabled(s, m) && VisitsTallied(s, c)
    ensures VisitsTallied(Step(s, m), c)
  {
    hide Total, VisitTotal, Matches, Anonymous, Ledger.VisitPoints;
    var p, p' := s.procs[m.proc], Step(s, m).procs[m.proc];
    TotalAfterMove(s.procs, m.proc, p', c, VISITED, Pence);
    TotalAfterMove(s.procs, m.proc, p', c, VISITED, Ones);
    TotalAfterMove(s.procs, m.proc, p', c, VISITED, Points);
    if p.phase.Spent? {
      OneVisit(s.db.visits,
               Visit(p.delivery.transactionId, p.phase.customer, p.delivery.amountPence, m.proc), c);
    }
  }

  lemma StepAccruals(s: System, m: Move, c: CustomerId)
    requires Enabled(s, m) && AccrualsTallied(s, c)
    ensures AccrualsTallied(Step(s, m), c)
  {
    hide Total, AccrualTotal, Matches, Anonymous, Ledger.VisitPoints;
    var p, p' := s.procs[m.proc], Step(s, m).procs[m.proc];
    TotalAfterMove(s.procs, m.proc, p', c, ACCRUED, Points);
    if p.phase.Counted? {
      AccrualAppend(s.db.accruals,
                    Accrual(p.delivery.transactionId, p.phase.customer,
                            Ledger.VisitPoints(p.delivery.amountPence), m.proc), c);
    }
  }

  lemma StepTallied(first: Db, s: System, m: Move, c: CustomerId)
    requires Enabled(s, m) && Populated(s) && first.customers.Keys <= s.db.customers.Keys
    requires Tallied(first, s, c)
    ensures Tallied(first, Step(s, m), c)
  {
    hide Step, CountersTallied, VisitsTallied, AccrualsTallied, Populated;
    StepCounters(first, s, m, c);
    StepVisits(s, m, c);
    StepAccruals(s, m, c);
  }

  lemma OneVisit(visits: seq<Visit>, v: Visit, c: CustomerId)
    ensures VisitTotal(visits + [v], c, Ones) == VisitTotal(visits, c, Ones) + if v.customer == c then 1 else 0
    ensures VisitTotal(visits + [v], c, Pence)
         == VisitTotal(visits, c, Pence) + if v.customer == c then v.amountPence else 0
    ensures VisitTotal(visits + [v], c, Points)
         == VisitTotal(visits, c, Points) + if v.customer == c then Ledger.VisitPoints(v.amountPence) else 0
  {
    assert (visits + [v])[..|visits|] == visits;
  }

  ghost predicate Sound(first: Db, s: System) {
    && SoleOwners(s) && VisitsAttributed(s) && AccrualsAttributed(s) && Populated(s)
    && first.customers.Keys <= s.db.customers.Keys
    && forall c :: Tallied(first, s, c)
  }

  lemma {:induction false} RunsAreSound(states: seq<System>, moves: seq<Move>, k: nat)
    requires IsRun(states, moves) && Starts(states[0]) && k < |states|
    ensures Sound(states[0].db, states[k]) && |states[k].procs| == |states[0].procs|
  {
    hide SoleOwners, VisitsAttributed, AccrualsAttributed, Populated, Tallied, Advance, Allowed;
    if k == 0 {
      StartIsSound(states[0]);
    } else {
      RunsAreSound(states, moves, k - 1);
      assert Enabled(states[k - 1], moves[k - 1]);
      StepKeepsOwners(states[k - 1], moves[k - 1]);
      StepKeepsVisitsAttributed(states[k - 1], moves[k - 1]);
      StepKeepsAccrualsAttributed(states[k - 1], moves[k - 1]);
      StepPopulated(states[k - 1], moves[k - 1]);
      forall c ensures Tallied(states[0].db, states[k], c) {
        StepTallied(states[0].db, states[k - 1], moves[k - 1], c);
      }
    }
  }

  lemma StartIsSound(s: System)
    requires Starts(s)
    ensures Sound(s.db, s)
  {
    forall c ensures Tallied(s.db, s, c) {
      TotalIsZero(s.procs, c, SPENT, Pence);
      TotalIsZero(s.procs, c, COUNTED, Ones);
      TotalIsZero(s.procs, c, VISITED, Pence);
      TotalIsZero(s.procs, c, VISITED, Ones);
      TotalIsZero(s.procs, c, VISITED, Points);
      TotalIsZero(s.procs, c, ACCRUED, Points);
    }
  }

  /** For any stream of deliveries with duplicates, interleaved and crashing anywhere: each transaction has at
      most one visit and at most one accrual. */
  lemma AtMostOnce(states: seq<System>, moves: seq<Move>, k: nat)
    requires IsRun(states, moves) && Starts(states[0]) && k < |states|
    ensures var db := states[k].db;
            && (forall v, w :: 0 <= v < w < |db.visits| ==> db.visits[v].transactionId != db.visits[w].transactionId)
            && (forall a, b :: 0 <= a < b < |db.accruals| ==>
                  db.accruals[a].transactionId != db.accruals[b].transactionId)
  {
    RunsAreSound(states, moves, k);
    hide Tallied, Populated, IsRun, Starts;
    var s := states[k];
    forall v, w | 0 <= v < w < |s.db.visits|
      ensures s.db.visits[v].transactionId != s.db.visits[w].transactionId
    {
      assert MadeBy(s, s.db.visits[v].maker, s.db.visits[v].transactionId, VISITED);
      assert MadeBy(s, s.db.visits[w].maker, s.db.visits[w].transactionId, VISITED);
    }
    forall a, b | 0 <= a < b < |s.db.accruals|
      ensures s.db.accruals[a].transactionId != s.db.accruals[b].transactionId
    {
      assert MadeBy(s, s.db.accruals[a].maker, s.db.accruals[a].transactionId, ACCRUED);
      assert MadeBy(s, s.db.accruals[b].maker, s.db.accruals[b].transactionId, ACCRUED);
    }
  }

  // ---- Totals at crash points and at rest ----------------------------------------------------------

  predicate NonNegativeAmounts(procs: seq<Process>) {
    forall i :: 0 <= i < |procs| ==> procs[i].delivery.amountPence >= 0
  }

  lemma {:induction false} EarlierStageHasMore(procs: seq<Process>, c: CustomerId, early: nat, late: nat, w: Weight)
    requires early <= late && (w == Ones || NonNegativeAmounts(procs))
    ensures Total(procs, c, early, w) >= Total(procs, c, late, w)
  {
    if procs != [] {
      EarlierStageHasMore(procs[..|procs| - 1], c, early, late, w);
    }
  }

  /** No delivery is between its first counter update and its end. */
  predicate AtRest(procs: seq<Process>) {
    forall i :: 0 <= i < |procs| ==> Stage(procs[i].phase) == 0 || procs[i].phase.Completed?
  }

  lemma {:induction false} RestLevelsStages(procs: seq<Process>, c: CustomerId, early: nat, late: nat, w: Weight)
    requires AtRest(procs) && 1 <= early <= late <= ACCRUED
    ensures Total(procs, c, early, w) == Total(procs, c, late, w)
  {
    if procs != [] {
      RestLevelsStages(procs[..|procs| - 1], c, early, late, w);
    }
  }

  lemma {:induction false} DeliveriesFixed(states: seq<System>, moves: seq<Move>, k: nat)
    requires IsRun(states, moves) && k < |states| && NonNegativeAmounts(states[0].procs)
    ensures NonNegativeAmounts(states[k].procs)
  {
    if k > 0 {
      DeliveriesFixed(states, moves, k - 1);
      assert Enabled(states[k - 1], moves[k - 1]);
    }
  }

  /** At every crash point a customer's spend (since the start) is at least the sum of the visit amounts, and
      the visit count at most the number of visits; when every delivery is at rest both are equal, and the
      accrued points are 5 + whole pounds for every visit. */
  lemma TotalsAtCrashPoints(states: seq<System>, moves: seq<Move>, k: nat, c: CustomerId)
    requires IsRun(states, moves) && Starts(states[0]) && k < |states| && c in states[k].db.customers
    ensures var db, before := states[k].db, Opening(states[0].db, c);
            var spend, count := db.customers[c].totalSpend - before.totalSpend,
                                db.customers[c].visitCount - before.visitCount;
            && (NonNegativeAmounts(states[0].procs) ==> spend >= VisitTotal(db.visits, c, Pence))
            && count <= VisitTotal(db.visits, c, Ones)
            && (AtRest(states[k].procs) ==>
                  && spend == VisitTotal(db.visits, c, Pence)
                  && count == VisitTotal(db.visits, c, Ones)
                  && AccrualTotal(db.accruals, c) == VisitTotal(db.visits, c, Points))
  {
    RunsAreSound(states, moves, k);
    hide SoleOwners, VisitsAttributed, AccrualsAttributed, Populated, Total, VisitTotal, AccrualTotal, Starts;
    var procs := states[k].procs;
    assert Tallied(states[0].db, states[k], c);
    EarlierStageHasMore(procs, c, VISITED, COUNTED, Ones);
    if NonNegativeAmounts(states[0].procs) {
      DeliveriesFixed(states, moves, k);
      EarlierStageHasMore(procs, c, SPENT, VISITED, Pence);
    }
    if AtRest(procs) {
      RestLevelsStages(procs, c, SPENT, VISITED, Pence);
      RestLevelsStages(procs, c, VISITED, COUNTED, Ones);
      RestLevelsStages(procs, c, VISITED, ACCRUED, Points);
    }
  }

  /** There is a visit of the transaction, and only one. */
  ghost predicate ExactlyOneVisit(db: Db, t: TransactionId) {
    && HasVisit(db, t)
    && forall v, w :: 0 <= v < w < |db.visits| && db.visits[v].transactionId == t ==> db.visits[w].transactionId != t
  }

  /** When "exactly once" holds: in every reachable state, crashes and duplicates included, a transaction has
      its one visit if and only if some delivery of it got past the visit step. */
  lemma ExactlyOnceIffPassed(states: seq<System>, moves: seq<Move>, k: nat, t: TransactionId)
    requires IsRun(states, moves) && Starts(states[0]) && k < |states|
    ensures ExactlyOneVisit(states[k].db, t) <==> exists i :: MadeBy(states[k], i, t, VISITED)
  {
    AtMostOnce(states, moves, k);
    PassedAlwaysHaveVisits(states, moves, k);
    RunsAreSound(states, moves, k);
    hide Tallied, Populated, Starts, IsRun;
    var s := states[k];
    if HasVisit(s.db, t) {
      var v :| 0 <= v < |s.db.visits| && s.db.visits[v].transactionId == t;
      assert MadeBy(s, s.db.visits[v].maker, t, VISITED);
    }
  }

  /** And one delivery decides it: the one that made the log row and went on. The transaction has its one
      visit if and only if that delivery did not stop before the visit, however often it is redelivered. */
  lemma OwnerDecides(states: seq<System>, moves: seq<Move>, k: nat, i: nat)
    requires IsRun(states, moves) && Starts(states[0]) && k < |states| && i < |states[k].procs|
    requires Owns(states[k].procs[i])
    ensures ExactlyOneVisit(states[k].db, states[k].procs[i].delivery.transactionId)
       <==> Stage(states[k].procs[i].phase) >= VISITED
  {
    var s, t := states[k], states[k].procs[i].delivery.transactionId;
    ExactlyOnceIffPassed(states, moves, k, t);
    RunsAreSound(states, moves, k);
    hide Tallied, Populated, Starts, IsRun, ExactlyOneVisit;
    if Stage(s.procs[i].phase) >= VISITED {
      assert MadeBy(s, i, t, VISITED);
    }
    forall j: nat | MadeBy(s, j, t, VISITED) ensures j == i {
      assert Owns(s.procs[j]);
    }
  }

  /** The delivery that made the log row of t: it went on from there, or ended for want of an identity. */
  predicate MadeLog(p: Process, t: TransactionId) {
    p.delivery.transactionId == t && (Owns(p) || (p.phase.Dropped? && Anonymous(p.delivery.identity)))
  }

  ghost predicate HasOwner(s: System, t: TransactionId) {
    exists i :: 0 <= i < |s.procs| && MadeLog(s.procs[i], t)
  }

  ghost predicate LogsOwned(s: System) {
    && (forall t :: t in s.db.logs ==> HasOwner(s, t))
    && (forall i :: 0 <= i < |s.procs| && s.procs[i].phase.Seen? ==> s.procs[i].delivery.transactionId in s.db.logs)
  }

  lemma OwnerStays(s: System, m: Move, t: TransactionId)
    requires Enabled(s, m) && HasOwner(s, t)
    ensures HasOwner(Step(s, m), t)
  {
    hide Matches;
    var i :| 0 <= i < |s.procs| && MadeLog(s.procs[i], t);
    assert MadeLog(Step(s, m).procs[i], t);
  }

  lemma StepKeepsLogsOwned(s: System, m: Move)
    requires Enabled(s, m) && LogsOwned(s)
    ensures LogsOwned(Step(s, m))
  {
    var s' := Step(s, m);
    NewLogHasOwner(s, m);
    hide Step, Enabled, MadeLog;
    forall t | t in s'.db.logs ensures HasOwner(s', t) {
      if t in s.db.logs {
        OwnerStays(s, m, t);
      }
    }
  }

  lemma NewLogHasOwner(s: System, m: Move)
    requires Enabled(s, m) && LogsOwned(s)
    ensures forall t :: t in Step(s, m).db.logs && t !in s.db.logs ==> HasOwner(Step(s, m), t)
    ensures forall t :: t in s.db.logs ==> t in Step(s, m).db.logs
    ensures var s' := Step(s, m);
      forall i :: 0 <= i < |s'.procs| && s'.procs[i].phase.Seen? ==> s'.procs[i].delivery.transactionId in s'.db.logs
  {
    hide Matches;
    var s' := Step(s, m);
    forall t | t in s'.db.logs && t !in s.db.logs ensures HasOwner(s', t) {
      assert s.procs[m.proc].phase.Fresh? || s.procs[m.proc].phase.Seen? || Owns(s.procs[m.proc]);
      assert MadeLog(s'.procs[m.proc], t);
    }
  }

  /** In every reachable state a transaction that is known at all has such a delivery; so for identified
      deliveries "exactly once" is decided for every known transaction. */
  lemma {:induction false} KnownHasOwner(states: seq<System>, moves: seq<Move>, k: nat)
    requires IsRun(states, moves) && Starts(states[0]) && k < |states|
    ensures LogsOwned(states[k])
  {
    if k > 0 {
      KnownHasOwner(states, moves, k - 1);
      assert Enabled(states[k - 1], moves[k - 1]);
      StepKeepsLogsOwned(states[k - 1], moves[k - 1]);
    }
  }

  /** "Exactly once" fails: a delivery stops right after its log row, the redelivery is marked a duplicate and
      dropped, and there is no visit, nor any accrual. */
  lemma RedeliveryFindsNoVisit(d: Delivery, choice: Choice) returns (states: seq<System>, moves: seq<Move>)
    ensures IsRun(states, moves) && Starts(states[0]) && |states| == 5
    ensures states[0].procs == [Process(d, Arrived), Process(d, Arrived)]
    ensures states[4].procs == [Process(d, Logged), Process(d, Dropped)]
    ensures states[4].db == Db(map[d.transactionId := DUPLICATE], map[], [], [])
  {
    var s0 := System(Db(map[], map[], [], []), [Process(d, Arrived), Process(d, Arrived)]);
    moves := [Move(0, choice), Move(0, choice), Move(1, choice), Move(1, choice)];
    var s1 := Step(s0, moves[0]);
    assert s1.procs == [Process(d, Fresh), Process(d, Arrived)];
    var s2 := Step(s1, moves[1]);
    assert s2.procs == [Process(d, Logged), Process(d, Arrived)];
    var s3 := Step(s2, moves[2]);
    assert s3.procs == [Process(d, Logged), Process(d, Seen)];
    var s4 := Step(s3, moves[3]);
    assert s4.db.logs == map[d.transactionId := DUPLICATE];
    states := [s0, s1, s2, s3, s4];
  }

  /** A delivery that stops after creating its log row and before creating its visit is lost for good: no
      redelivery of the transaction ever creates the visit. */
  lemma StoppedDeliveryIsLost(states: seq<System>, moves: seq<Move>, i: nat, k: nat, n: nat)
    requires IsRun(states, moves) && Starts(states[0]) && k <= n < |states| && i < |states[k].procs|
    requires Owns(states[k].procs[i]) && Stage(states[k].procs[i].phase) < VISITED
    requires forall j :: k <= j < n ==> moves[j].proc != i
    ensures forall v :: 0 <= v < |states[n].db.visits| ==>
              states[n].db.visits[v].transactionId != states[k].procs[i].delivery.transactionId
  {
    RunsAreSound(states, moves, n);
    OthersLeaveAlone(states, moves, i, k, n);
    hide Tallied, Populated, Starts, IsRun;
    var s := states[n];
    forall v | 0 <= v < |s.db.visits|
      ensures s.db.visits[v].transactionId != states[k].procs[i].delivery.transactionId
    {
      var maker := s.db.visits[v].maker;
      assert MadeBy(s, maker, s.db.visits[v].transactionId, VISITED);
      assert Owns(s.procs[maker]) && Owns(s.procs[i]);
    }
  }

  lemma {:induction false} OthersLeaveAlone(states: seq<System>, moves: seq<Move>, i: nat, k: nat, n: nat)
    requires IsRun(states, moves) && k <= n < |states| && i < |states[k].procs|
    requires forall j :: k <= j < n ==> moves[j].proc != i
    ensures i < |states[n].procs| && states[n].procs[i] == states[k].procs[i]
    decreases n - k
  {
    hide Advance, Allowed;
    if k < n {
      OthersLeaveAlone(states, moves, i, k, n - 1);
      assert Enabled(states[n - 1], moves[n - 1]);
    }
  }

  // ---- One delivery, uninterrupted -----------------------------------------------------------------

  /** The customer row a delivery charges: the match, or a new one. */
  function Charged(db: Db, d: Delivery, choice: Choice): (CustomerId, PosCustomer)
    requires choice.found.Some? ==> choice.found.value in db.customers
  {
    if choice.found.Some? then
      var row := db.customers[choice.found.value];
      (choice.found.value, row.(totalSpend := row.totalSpend + d.amountPence, visitCount := row.visitCount + 1))
    else (choice.newId, PosCustomer(d.identity, d.amountPence, 1))
  }

  /** The database answers with a match if there is one, and creates customers under unused ids. */
  predicate Answers(db: Db, d: Delivery, choice: Choice) {
    Allowed(db, d, Logged, choice) && choice.newId !in db.customers
  }

  /** The net effect of a whole delivery: one visit, one accrual and both counters, or only a log entry. */
  function Deliver(db: Db, maker: nat, d: Delivery, choice: Choice): Db
    requires Answers(db, d, choice)
  {
    var t := d.transactionId;
    if t in db.logs then SetLog(db, t, DUPLICATE)
    else if Anonymous(d.identity) then SetLog(db, t, MISSING_CUSTOMER_IDENTITY)
    else
      var (c, row) := Charged(db, d, choice);
      Db(db.logs[t := PROCESSED],
         db.customers[c := row],
         db.visits + [Visit(t, c, d.amountPence, maker)],
         db.accruals + [Accrual(t, c, Ledger.VisitPoints(d.amountPence), maker)])
  }

  /**
   * What a delivery does to the tables: a known transaction or an anonymous delivery only marks the log; otherwise
   * exactly one customer is charged, one who shares the identity if there is any and a new one if not, and gains
   * the amount, one visit and 5 points plus one per whole pound.
   */
  lemma DeliveredIff(db: Db, maker: nat, d: Delivery, choice: Choice)
    requires Answers(db, d, choice)
    ensures var after := Deliver(db, maker, d, choice);
      if d.transactionId in db.logs || d.identity == Identity(None, None) then
        && after.customers == db.customers && after.visits == db.visits && after.accruals == db.accruals
        && after.logs == db.logs[d.transactionId := if d.transactionId in db.logs then DUPLICATE
                                                    else MISSING_CUSTOMER_IDENTITY]
      else
        && after.logs == db.logs[d.transactionId := PROCESSED]
        && |after.visits| == |db.visits| + 1 && |after.accruals| == |db.accruals| + 1
        && var v, a := after.visits[|db.visits|], after.accruals[|db.accruals|];
        && v == Visit(d.transactionId, v.customer, d.amountPence, maker)
        && a == Accrual(d.transactionId, v.customer, 5 + d.amountPence / 100, maker)
        && (forall c :: c in db.customers && c != v.customer ==>
              c in after.customers && after.customers[c] == db.customers[c])
        && v.customer in after.customers
        && var row := after.customers[v.customer];
        && SharesIdentity(row, d)
        && (v.customer !in db.customers <==> forall c :: c in db.customers ==> !SharesIdentity(db.customers[c], d))
        && (if v.customer in db.customers then
              var before := db.customers[v.customer];
              row == before.(totalSpend := before.totalSpend + d.amountPence, visitCount := before.visitCount + 1)
            else row == PosCustomer(d.identity, d.amountPence, 1))
  {
    forall c ensures Matches(c, d.identity) <==> SharesIdentity(c, d) {
      MatchesIff(c, d);
    }
    if d.transactionId !in db.logs && d.identity != Identity(None, None) {
      var (c, row) := Charged(db, d, choice);
      assert Matches(row, d.identity);
    }
    hide SharesIdentity, Matches;
  }

  class PosWebhook {
    var logs: map<TransactionId, LogStatus>
    var customers: map<CustomerId, PosCustomer>
    var visits: seq<Visit>
    var accruals: seq<Accrual>

    ghost function Snapshot(): Db
      reads this
    {
      Db(logs, customers, visits, accruals)
    }

    method ProcessTransaction(d: Delivery, maker: nat, choice: Choice)
      requires Answers(Snapshot(), d, choice)
      modifies this
      ensures Snapshot() == Deliver(old(Snapshot()), maker, d, choice)
    {
      var t := d.transactionId;
      if t in logs {
        logs := logs[t := DUPLICATE];
        return;
      }
      logs := logs[t := PENDING];
      if Anonymous(d.identity) {
        Overwrite(old(logs), t, PENDING, MISSING_CUSTOMER_IDENTITY);
        logs := logs[t := MISSING_CUSTOMER_IDENTITY];
        return;
      }
      var c;
      if choice.found.Some? {
        c := choice.found.value;
        var row := customers[c];
        customers := customers[c := row.(totalSpend := row.totalSpend + d.amountPence)];
      } else {
        c := choice.newId;
        customers := customers[c := PosCustomer(d.identity, d.amountPence, 0)];
      }
      visits := visits + [Visit(t, c, d.amountPence, maker)];
      var row := customers[c];
      Overwrite(old(customers), c, row, row.(visitCount := row.visitCount + 1));
      customers := customers[c := row.(visitCount := row.visitCount + 1)];
      accruals := accruals + [Accrual(t, c, Ledger.VisitPoints(d.amountPence), maker)];
      Overwrite(old(logs), t, PENDING, PROCESSED);
      logs := logs[t := PROCESSED];
    }
  }

  /** The steps of one delivery taken to the end without interruption. */
  function Alone(db: Db, maker: nat, d: Delivery, phase: Phase, choice: Choice, steps: nat): (Db, Phase)
    decreases steps
  {
    if steps == 0 || !Allowed(db, d, phase, choice) then (db, phase)
    else
      var (db', phase') := Advance(db, maker, d, phase, choice);
      Alone(db', maker, d, phase', choice, steps - 1)
  }

  /** Taken alone, the steps have exactly the net effect of a whole delivery. */
  lemma AloneIsDeliver(db: Db, maker: nat, d: Delivery, choice: Choice)
    requires Answers(db, d, choice)
    ensures Alone(db, maker, d, Arrived, choice, 9).0 == Deliver(db, maker, d, choice)
  {
    hide Alone, Matches;
    var t := d.transactionId;
    AloneStep(db, maker, d, Arrived, choice, 9);
    if t in db.logs {
      AloneStep(db, maker, d, Seen, choice, 8);
      AloneEnd(SetLog(db, t, DUPLICATE), maker, d, Dropped, choice, 7);
    } else {
      var logged := SetLog(db, t, PENDING);
      AloneStep(db, maker, d, Fresh, choice, 8);
      AloneStep(logged, maker, d, Logged, choice, 7);
      if Anonymous(d.identity) {
        Overwrite(db.logs, t, PENDING, MISSING_CUSTOMER_IDENTITY);
        AloneEnd(SetLog(logged, t, MISSING_CUSTOMER_IDENTITY), maker, d, Dropped, choice, 6);
      } else {
        AloneFromFound(logged, maker, d, choice);
        Overwrite(db.logs, t, PENDING, PROCESSED);
      }
    }
  }

  lemma AloneStep(db: Db, maker: nat, d: Delivery, phase: Phase, choice: Choice, steps: nat)
    requires steps > 0 && Allowed(db, d, phase, choice)
    ensures var (db', phase') := Advance(db, maker, d, phase, choice);
            Alone(db, maker, d, phase, choice, steps) == Alone(db', maker, d, phase', choice, steps - 1)
  {
  }

  lemma AloneEnd(db: Db, maker: nat, d: Delivery, phase: Phase, choice: Choice, steps: nat)
    requires phase.Dropped? || phase.Completed?
    ensures Alone(db, maker, d, phase, choice, steps) == (db, phase)
  {
  }

  lemma AloneFromFound(db: Db, maker: nat, d: Delivery, choice: Choice)
    requires Answers(db, d, choice)
    ensures var (c, row) := Charged(db, d, choice);
            Alone(db, maker, d, Found(choice.found), choice, 6).0 ==
            Db(db.logs[d.transactionId := PROCESSED], db.customers[c := row],
               db.visits + [Visit(d.transactionId, c, d.amountPence, maker)],
               db.accruals + [Accrual(d.transactionId, c, Ledger.VisitPoints(d.amountPence), maker)])
  {
    hide Alone, Matches, Ledger.VisitPoints;
    AloneStep(db, maker, d, Found(choice.found), choice, 6);
    var (db1, p1) := Advance(db, maker, d, Found(choice.found), choice);
    var c := p1.customer;
    AloneStep(db1, maker, d, Spent(c), choice, 5);
    var db2 := Advance(db1, maker, d, Spent(c), choice).0;
    AloneStep(db2, maker, d, Visited(c), choice, 4);
    var db3 := Advance(db2, maker, d, Visited(c), choice).0;
    Overwrite(db.customers, c, db1.customers[c], db3.customers[c]);
    AloneStep(db3, maker, d, Counted(c), choice, 3);
    var db4 := Advance(db3, maker, d, Counted(c), choice).0;
    AloneStep(db4, maker, d, Accrued(c), choice, 2);
    AloneEnd(SetLog(db4, d.transactionId, PROCESSED), maker, d, Completed(c), choice, 1);
  }
}

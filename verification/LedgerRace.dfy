/** Automation awards read the balance outside the transaction that writes it: what interleaving costs. */
module LedgerRace {
  import opened Utils
  import opened Ledger

  /** An award job: not started, or holding the balance it read. */
  datatype AwardJob = Waiting | Holding(customerId: Id, points: int, workflow: Id, balance: int)

  datatype World = World(shop: Shop, jobs: seq<AwardJob>)

  datatype Event =
    | Begin(job: nat, customer: Id, points: int, workflow: Id)
    | Finish(finished: nat)
    | Serial(op: Op)

  predicate Enabled(w: World, e: Event) {
    match e
    case Begin(j, c, _, _) => j < |w.jobs| && w.jobs[j].Waiting? && c in w.shop.book.balances
    case Finish(j) => j < |w.jobs| && w.jobs[j].Holding?
    case Serial(_) => true
  }

  /** The write of an award: the unique index can still reject it, and then nothing is written. */
  predicate Lands(book: Book, a: AwardJob)
    requires a.Holding?
  {
    a.customerId in book.balances && !Collides(book.rows, a.customerId, AUTOMATION_REWARD, Some(a.workflow))
  }

  function AfterWrite(book: Book, a: AwardJob): Book
    requires a.Holding?
  {
    if Lands(book, a) then Append(book, AwardPosting(a.customerId, a.points, a.workflow), a.balance + a.points)
    else book
  }

  function Step(w: World, e: Event): World
    requires Enabled(w, e)
  {
    match e
    case Begin(j, c, points, workflow) =>
      w.(jobs := w.jobs[j := Holding(c, points, workflow, w.shop.book.balances[c])])
    case Finish(j) =>
      World(w.shop.(book := AfterWrite(w.shop.book, w.jobs[j])), w.jobs[j := Waiting])
    case Serial(op) => w.(shop := Apply(w.shop, op))
  }

  ghost predicate IsRun(states: seq<World>, events: seq<Event>) {
    && |states| == |events| + 1
    && forall i :: 0 <= i < |events| ==> Enabled(states[i], events[i]) && states[i + 1] == Step(states[i], events[i])
  }

  /** How far the cache of a customer is from the ledger. */
  function Gap(book: Book, c: Id): int
    requires c in book.balances
  {
    book.balances[c] - Sum(book.rows, c)
  }

  /** What an event adds to the gap: only the write of an award and an audit add anything; the write adds
      exactly the balance it read minus the balance present. */
  function Drift(w: World, e: Event, c: Id): int
    requires Enabled(w, e) && c in w.shop.book.balances
  {
    var book := w.shop.book;
    match e
    case Finish(j) =>
      if w.jobs[j].customerId == c && Lands(book, w.jobs[j]) then w.jobs[j].balance - book.balances[c] else 0
    case Serial(Audit(a)) => if a == c then Max(0, Sum(book.rows, c)) - book.balances[c] else 0
    case _ => 0
  }

  lemma AppendGap(book: Book, p: Posting, balance: int, c: Id)
    requires p.customerId in book.balances && c in book.balances
    ensures Gap(Append(book, p, balance), c)
         == Gap(book, c) + if p.customerId == c then balance - Delta(p) - book.balances[c] else 0
  {
    SumAppend(book.rows, Row(p.customerId, p.rowType, p.points, balance, p.reason, p.referenceId), c);
  }

  lemma PostGap(book: Book, p: Posting, c: Id)
    requires c in book.balances
    ensures c in Post(book, p).balances && Gap(Post(book, p), c) == Gap(book, c)
  {
    if PostError(book, p).None? {
      AppendGap(book, p, book.balances[p.customerId] + Delta(p), c);
    }
  }

  lemma ApplyGap(s: Shop, op: Op, c: Id)
    requires c in s.book.balances
    ensures c in Apply(s, op).book.balances
    ensures Gap(Apply(s, op).book, c)
         == Gap(s.book, c) + if op == Audit(c) then Max(0, Sum(s.book.rows, c)) - s.book.balances[c] else 0
  {
    hide Post, Collides, Sum;
    if OpError(s, op).None? {
      match op
      case Register(_) =>
      case RegisterVisit(_) =>
      case PostPoints(p) => PostGap(s.book, p, c);
      case Accrue(v, n, amount) => PostGap(s.book, VisitPosting(v, n, amount), c);
      case Refer(n, code) => PostGap(s.book, ReferralPosting(s.codes[code], n), c);
      case Award(n, points, w) => PostGap(s.book, AwardPosting(n, points, w), c);
      case Audit(_) =>
    }
  }

  lemma StepGap(w: World, e: Event, c: Id)
    requires Enabled(w, e) && c in w.shop.book.balances
    ensures c in Step(w, e).shop.book.balances
    ensures Gap(Step(w, e).shop.book, c) == Gap(w.shop.book, c) + Drift(w, e, c)
    ensures w.shop.book.rows <= Step(w, e).shop.book.rows
  {
    hide Gap, Apply, Sum, Collides;
    match e
    case Begin(_, _, _, _) =>
    case Finish(j) =>
      var a := w.jobs[j];
      if Lands(w.shop.book, a) {
        AppendGap(w.shop.book, AwardPosting(a.customerId, a.points, a.workflow), a.balance + a.points, c);
      }
    case Serial(op) =>
      ApplyGap(w.shop, op, c);
      ApplyAppends(w.shop, op);
  }

  ghost function TotalDrift(states: seq<World>, events: seq<Event>, c: Id, i: nat, j: nat): int
    requires IsRun(states, events) && i <= j < |states|
    decreases j - i
  {
    if i == j then 0
    else
      TotalDrift(states, events, c, i, j - 1)
      + if c in states[j - 1].shop.book.balances then Drift(states[j - 1], events[j - 1], c) else 0
  }

  /** Under any interleaving of awards with other operations: no ledger row is lost, and the gap between cache
      and ledger is what it was plus the drift of the award writes and audits in between. */
  lemma {:induction false} LostUpdateAccounting(states: seq<World>, events: seq<Event>, c: Id, i: nat, j: nat)
    requires IsRun(states, events) && i <= j < |states| && c in states[i].shop.book.balances
    ensures states[i].shop.book.rows <= states[j].shop.book.rows
    ensures c in states[j].shop.book.balances
    ensures Gap(states[j].shop.book, c) == Gap(states[i].shop.book, c) + TotalDrift(states, events, c, i, j)
    decreases j - i
  {
    hide Gap, Step, Drift;
    if i < j {
      LostUpdateAccounting(states, events, c, i, j - 1);
      assert Enabled(states[j - 1], events[j - 1]);
      StepGap(states[j - 1], events[j - 1], c);
    }
  }

  /** An award write that found the balance it had read leaves no gap; one that did not loses exactly the
      difference. */
  lemma DriftlessIffUnchanged(w: World, j: nat)
    requires Enabled(w, Finish(j)) && Lands(w.shop.book, w.jobs[j])
    ensures var c := w.jobs[j].customerId;
            Gap(Step(w, Finish(j)).shop.book, c) == Gap(w.shop.book, c)
            <==> w.jobs[j].balance == w.shop.book.balances[c]
  {
    StepGap(w, Finish(j), w.jobs[j].customerId);
  }

  /** Reconciling ends with the larger of zero and the ledger sum, whatever the cache held, and repeating
      it changes nothing. */
  lemma ReconcileRepairs(book: Book, c: Id)
    requires c in book.balances
    ensures Reconcile(book, c).rows == book.rows
    ensures Reconcile(book, c).balances[c] == Max(0, Sum(book.rows, c))
    ensures Reconcile(Reconcile(book, c), c) == Reconcile(book, c)
    ensures Gap(Reconcile(book, c), c) == 0 <==> Sum(book.rows, c) >= 0
  {
    var once := Reconcile(book, c);
    assert once.balances[c := once.balances[c]] == once.balances;
  }

  function AwardRow(c: Id, workflow: Id): Row {
    Row(c, CREDIT, 10, 10, AUTOMATION_REWARD, Some(workflow))
  }

  /** Both writes of ten points land on a balance read as 0, so both rows say 10. */
  lemma BothLand(c: Id, first: Id, second: Id)
    requires first != second
    ensures var r1, r2 := AwardRow(c, first), AwardRow(c, second);
      && AfterWrite(Book(map[c := 0], []), Holding(c, 10, first, 0)) == Book(map[c := 10], [r1])
      && AfterWrite(Book(map[c := 10], [r1]), Holding(c, 10, second, 0)) == Book(map[c := 10], [r1, r2])
      && Sum([r1, r2], c) == 20
  {
    var r1, r2 := AwardRow(c, first), AwardRow(c, second);
    assert [] + [r1] == [r1] && [r1] + [r2] == [r1, r2];
    SumAppend([], r1, c);
    SumAppend([r1], r2, c);
  }

  /** Two awards that both read 0 leave 20 points in the ledger and 10 in the cache. */
  lemma TwoAwardsLoseOne(c: Id, first: Id, second: Id) returns (states: seq<World>, events: seq<Event>)
    requires first != second
    ensures IsRun(states, events)
    ensures states[0] == World(Shop(Book(map[c := 0], []), map[], map[], map[], []), [Waiting, Waiting])
    ensures var book := states[|states| - 1].shop.book;
            c in book.balances && book.balances[c] == 10 && Sum(book.rows, c) == 20
  {
    hide AfterWrite, Sum;
    BothLand(c, first, second);
    var w0 := World(Shop(Book(map[c := 0], []), map[], map[], map[], []), [Waiting, Waiting]);
    events := [Begin(0, c, 10, first), Begin(1, c, 10, second), Finish(0), Finish(1)];
    var w1 := Step(w0, events[0]);
    var w2 := Step(w1, events[1]);
    assert w2.jobs == [Holding(c, 10, first, 0), Holding(c, 10, second, 0)];
    var w3 := Step(w2, events[2]);
    var w4 := Step(w3, events[3]);
    states := [w0, w1, w2, w3, w4];
  }
}

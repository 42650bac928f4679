/** The quota gate as W workers run it: the key is read, decremented and re-credited by separate commands. */
module QuotaRace {
  import Dispatch

  /** Where a worker stands in a job. `Reading` has fetched a value and not yet acted on it; `InFlight` is
      between the decrement and the gateway's answer; `Crediting` is about to increment the key again. */
  datatype Phase =
    | Idle
    | Reading(value: int)
    | InFlight(charged: bool)
    | Crediting

  /** The shared key, the workers, and accounts: charged and uncharged sends that were counted, decrements
      never returned, and whether any worker has read a negative value. */
  datatype System = System(
    key: int,
    workers: seq<Phase>,
    paidSends: nat,
    freeSends: nat,
    leaked: nat,
    sawNegative: bool)

  /** GET; act on the value (drop, decrement, or go on uncharged); the in-flight mark or the final record
      throws; the gateway accepts, or fails; INCR. */
  datatype Action = Get | Act | Throw | Send | Reject | Credit

  predicate Enabled(s: System, w: nat, a: Action) {
    w < |s.workers| &&
    match a
    case Get => s.workers[w].Idle?
    case Act => s.workers[w].Reading?
    case Throw => s.workers[w].InFlight?
    case Send => s.workers[w].InFlight?
    case Reject => s.workers[w].InFlight?
    case Credit => s.workers[w].Crediting?
  }

  function At(s: System, w: nat, phase: Phase): System
    requires w < |s.workers|
  {
    s.(workers := s.workers[w := phase])
  }

  function Step(s: System, w: nat, a: Action): System
    requires Enabled(s, w, a)
  {
    match a
    case Get => At(s, w, Reading(s.key)).(sawNegative := s.sawNegative || s.key < 0)
    case Act =>
      var value := s.workers[w].value;
      if value == 0 then At(s, w, Idle)
      else if value == Dispatch.UNLIMITED then At(s, w, InFlight(false))
      else At(s, w, InFlight(true)).(key := s.key - 1)
    case Throw =>
      if s.workers[w].charged then At(s, w, Idle).(leaked := s.leaked + 1) else At(s, w, Idle)
    case Send =>
      if s.workers[w].charged then At(s, w, Idle).(paidSends := s.paidSends + 1)
      else At(s, w, Idle).(freeSends := s.freeSends + 1)
    case Reject => At(s, w, if s.workers[w].charged then Crediting else Idle)
    case Credit => At(s, w, Idle).(key := s.key + 1)
  }

  /** How many workers hold a decrement that is neither counted, leaked nor returned. */
  function Holding(workers: seq<Phase>): nat {
    if workers == [] then 0
    else Holding(workers[..|workers| - 1]) + (if Holds(workers[|workers| - 1]) then 1 else 0)
  }

  predicate Holds(phase: Phase) {
    phase == InFlight(true) || phase.Crediting?
  }

  /** How many workers have read a positive value and will decrement. */
  function Committed(workers: seq<Phase>): nat {
    if workers == [] then 0
    else Committed(workers[..|workers| - 1]) + (if Commits(workers[|workers| - 1]) then 1 else 0)
  }

  predicate Commits(phase: Phase) {
    phase.Reading? && phase.value > 0
  }

  lemma {:induction false} CountsAfterMove(workers: seq<Phase>, w: nat, phase: Phase)
    requires w < |workers|
    ensures Holding(workers[w := phase])
         == Holding(workers) - (if Holds(workers[w]) then 1 else 0) + (if Holds(phase) then 1 else 0)
    ensures Committed(workers[w := phase])
         == Committed(workers) - (if Commits(workers[w]) then 1 else 0) + (if Commits(phase) then 1 else 0)
    decreases |workers|
  {
    var front := workers[..|workers| - 1];
    if w == |front| {
      assert workers[w := phase][..|front|] == front;
    } else {
      CountsAfterMove(front, w, phase);
      assert workers[w := phase][..|front|] == front[w := phase];
    }
  }

  lemma {:induction false} CommittedBound(workers: seq<Phase>)
    ensures Committed(workers) <= |workers|
  {
    if workers != [] {
      CommittedBound(workers[..|workers| - 1]);
    }
  }

  datatype Move = Move(worker: nat, action: Action)

  /** A run: each move is enabled where it is taken. */
  ghost predicate IsRun(states: seq<System>, moves: seq<Move>) {
    && |states| == |moves| + 1
    && forall i :: 0 <= i < |moves| ==>
         && Enabled(states[i], moves[i].worker, moves[i].action)
         && states[i + 1] == Step(states[i], moves[i].worker, moves[i].action)
  }

  ghost predicate Starts(s: System, quota: int) {
    && s.key == quota
    && (forall w :: 0 <= w < |s.workers| ==> s.workers[w].Idle?)
    && s.paidSends == s.freeSends == s.leaked == 0
    && !s.sawNegative
  }

  predicate Conserves(s: System, quota: int) {
    s.key + Holding(s.workers) + s.leaked + s.paidSends == quota
  }

  lemma StepConserves(s: System, w: nat, a: Action, quota: int)
    requires Enabled(s, w, a) && Conserves(s, quota)
    ensures Conserves(Step(s, w, a), quota)
    ensures |Step(s, w, a).workers| == |s.workers|
  {
    CountsAfterMove(s.workers, w, Step(s, w, a).workers[w]);
  }

  /** Until a negative value is read: the pending decrements cannot take the key below 1 - W, and every send
      has been charged. */
  predicate Bounded(s: System) {
    !s.sawNegative ==>
      && s.key - Committed(s.workers) >= 1 - |s.workers|
      && s.freeSends == 0
      && forall w :: 0 <= w < |s.workers| ==>
           (s.workers[w].Reading? ==> s.workers[w].value >= 0) && s.workers[w] != InFlight(false)
  }

  lemma StepBounded(s: System, w: nat, a: Action)
    requires Enabled(s, w, a) && Bounded(s)
    ensures Bounded(Step(s, w, a))
  {
    var s' := Step(s, w, a);
    CountsAfterMove(s.workers, w, s'.workers[w]);
    CommittedBound(s'.workers);
  }

  lemma {:induction false} IdleCounts(workers: seq<Phase>)
    requires forall w :: 0 <= w < |workers| ==> workers[w].Idle?
    ensures Holding(workers) == 0 && Committed(workers) == 0
  {
    if workers != [] {
      IdleCounts(workers[..|workers| - 1]);
    }
  }

  /** Under any interleaving without a reset: key + decrements in flight + leaked + counted charged sends is
      the starting quota. Until some worker reads a negative value, every counted send was charged, the key
      stays at or above 1 - W, and so at most W - 1 more messages than the quota are sent. */
  lemma {:induction false} QuotaUnderInterleaving(states: seq<System>, moves: seq<Move>, quota: nat, k: nat)
    requires IsRun(states, moves) && Starts(states[0], quota) && |states[0].workers| >= 1 && k < |states|
    ensures var s, n := states[k], |states[0].workers|;
            && |s.workers| == n
            && s.key + Holding(s.workers) + s.leaked + s.paidSends == quota
            && (!s.sawNegative ==> s.freeSends == 0 && s.key >= 1 - n && s.paidSends <= quota + n - 1)
            && Bounded(s)
  {
    hide Bounded;
    if k == 0 {
      IdleCounts(states[0].workers);
      InitiallyBounded(states[0], quota);
    } else {
      QuotaUnderInterleaving(states, moves, quota, k - 1);
      var m := moves[k - 1];
      StepConserves(states[k - 1], m.worker, m.action, quota);
      StepBounded(states[k - 1], m.worker, m.action);
    }
    BoundedKey(states[k]);
  }

  lemma InitiallyBounded(s: System, quota: nat)
    requires Starts(s, quota) && |s.workers| >= 1
    ensures Bounded(s)
  {
    IdleCounts(s.workers);
  }

  lemma BoundedKey(s: System)
    requires Bounded(s)
    ensures !s.sawNegative ==> s.key >= 1 - |s.workers| && s.freeSends == 0
  {
  }

  // ---- Exactly when the key can become negative --------------------------------------------------

  /** From a quota of 0 nobody ever decrements. */
  lemma {:induction false} ZeroStaysZero(states: seq<System>, moves: seq<Move>, k: nat)
    requires IsRun(states, moves) && Starts(states[0], 0) && k < |states|
    ensures states[k].key == 0
    ensures forall w :: 0 <= w < |states[k].workers| ==> states[k].workers[w] in {Idle, Reading(0)}
  {
    if k > 0 {
      ZeroStaysZero(states, moves, k - 1);
    }
  }

  /** A worker alone never meets a negative key. */
  lemma {:induction false} AloneStaysNonNegative(states: seq<System>, moves: seq<Move>, quota: nat, k: nat)
    requires IsRun(states, moves) && Starts(states[0], quota) && |states[0].workers| == 1 && k < |states|
    ensures states[k].key >= 0 && !states[k].sawNegative
  {
    hide Bounded;
    if k > 0 {
      AloneStaysNonNegative(states, moves, quota, k - 1);
      var m := moves[k - 1];
      assert states[k] == Step(states[k - 1], m.worker, m.action);
    }
    QuotaUnderInterleaving(states, moves, quota, k);
  }

  ghost predicate Attains(s: System, key: int) {
    exists states: seq<System>, moves: seq<Move> ::
      IsRun(states, moves) && states[0] == s && states[|states| - 1].key == key
  }

  /** "No race between concurrent workers" holds exactly for one worker or an empty quota: some run takes the
      key below zero, and some run takes it to the marker for "unlimited", if and only if there are two
      workers and a quota to spend. */
  lemma NegativeIffTwoWorkers(s: System, quota: nat)
    requires Starts(s, quota) && |s.workers| >= 1
    ensures (exists key :: key < 0 && Attains(s, key)) <==> |s.workers| >= 2 && quota >= 1
    ensures Attains(s, Dispatch.UNLIMITED) <==> |s.workers| >= 2 && quota >= 1
  {
    if |s.workers| >= 2 && quota >= 1 {
      var states, moves := RaceToUnlimited(s, quota, 0);
      assert Attains(s, Dispatch.UNLIMITED);
    } else {
      forall key | Attains(s, key) ensures key >= 0 {
        var states: seq<System>, moves: seq<Move> :|
          IsRun(states, moves) && states[0] == s && states[|states| - 1].key == key;
        if quota == 0 {
          ZeroStaysZero(states, moves, |states| - 1);
        } else {
          AloneStaysNonNegative(states, moves, quota, |states| - 1);
        }
      }
    }
  }

  // ---- The bound is met, and -1 is reached ---------------------------------------------------------

  lemma AppendMove(states: seq<System>, moves: seq<Move>, m: Move)
    returns (states': seq<System>, moves': seq<Move>)
    requires IsRun(states, moves) && Enabled(states[|states| - 1], m.worker, m.action)
    ensures states' == states + [Step(states[|states| - 1], m.worker, m.action)] && moves' == moves + [m]
    ensures IsRun(states', moves') && states'[0] == states[0]
  {
    states', moves' := states + [Step(states[|states| - 1], m.worker, m.action)], moves + [m];
  }

  /** A state without uncharged sends or leaked units in which the first `n` workers are in one phase, the
      rest in another. */
  ghost predicate Stage(s: System, size: nat, n: nat, done: Phase, waiting: Phase, key: int, paid: int) {
    && |s.workers| == size && n <= size
    && (forall w :: 0 <= w < size ==> s.workers[w] == if w < n then done else waiting)
    && s.key == key && s.paidSends == paid && s.freeSends == 0 && s.leaked == 0 && !s.sawNegative
  }

  /** One worker spends `n` units of the quota, one job after the other. */
  lemma {:induction false} Drain(s: System, quota: nat, n: nat) returns (states: seq<System>, moves: seq<Move>)
    requires Starts(s, quota) && |s.workers| >= 1 && n <= quota
    ensures IsRun(states, moves) && states[0] == s
    ensures Stage(states[|states| - 1], |s.workers|, 0, Idle, Idle, quota - n, n)
  {
    if n == 0 {
      states, moves := [s], [];
    } else {
      states, moves := Drain(s, quota, n - 1);
      states, moves := AppendMove(states, moves, Move(0, Get));
      assert Stage(states[|states| - 1], |s.workers|, 1, Reading(quota - n + 1), Idle, quota - n + 1, n - 1);
      states, moves := AppendMove(states, moves, Move(0, Act));
      assert Stage(states[|states| - 1], |s.workers|, 1, InFlight(true), Idle, quota - n, n - 1);
      states, moves := AppendMove(states, moves, Move(0, Send));
    }
  }

  /** With one unit left, `n` workers read the key. */
  lemma {:induction false} AllRead(s: System, quota: nat, n: nat) returns (states: seq<System>, moves: seq<Move>)
    requires Starts(s, quota) && quota >= 1 && |s.workers| >= 1 && n <= |s.workers|
    ensures IsRun(states, moves) && states[0] == s
    ensures Stage(states[|states| - 1], |s.workers|, n, Reading(1), Idle, 1, quota - 1)
  {
    if n == 0 {
      states, moves := Drain(s, quota, quota - 1);
    } else {
      states, moves := AllRead(s, quota, n - 1);
      states, moves := AppendMove(states, moves, Move(n - 1, Get));
    }
  }

  /** After all have read, `n` of them decrement. */
  lemma {:induction false} SomeAct(s: System, quota: nat, n: nat) returns (states: seq<System>, moves: seq<Move>)
    requires Starts(s, quota) && quota >= 1 && |s.workers| >= 1 && n <= |s.workers|
    ensures IsRun(states, moves) && states[0] == s
    ensures Stage(states[|states| - 1], |s.workers|, n, InFlight(true), Reading(1), 1 - n, quota - 1)
  {
    if n == 0 {
      states, moves := AllRead(s, quota, |s.workers|);
    } else {
      states, moves := SomeAct(s, quota, n - 1);
      states, moves := AppendMove(states, moves, Move(n - 1, Act));
    }
  }

  /** After all have decremented, `n` of them send. */
  lemma {:induction false} SomeSend(s: System, quota: nat, n: nat) returns (states: seq<System>, moves: seq<Move>)
    requires Starts(s, quota) && quota >= 1 && |s.workers| >= 1 && n <= |s.workers|
    ensures IsRun(states, moves) && states[0] == s
    ensures Stage(states[|states| - 1], |s.workers|, n, Idle, InFlight(true), 1 - |s.workers|, quota - 1 + n)
  {
    if n == 0 {
      states, moves := SomeAct(s, quota, |s.workers|);
    } else {
      states, moves := SomeSend(s, quota, n - 1);
      states, moves := AppendMove(states, moves, Move(n - 1, Send));
    }
  }

  /** For every number W of workers and every quota to spend both bounds are met: W - 1 messages more than the
      quota are sent and the key ends at 1 - W, before anyone reads a negative value. */
  lemma BoundsAreMet(s: System, quota: nat) returns (states: seq<System>, moves: seq<Move>)
    requires Starts(s, quota) && quota >= 1 && |s.workers| >= 1
    ensures IsRun(states, moves) && states[0] == s
    ensures var end, size := states[|states| - 1], |s.workers|;
            end.key == 1 - size && end.paidSends == quota + size - 1 && !end.sawNegative
  {
    states, moves := SomeSend(s, quota, |s.workers|);
  }

  /** The first two workers in given phases, everyone else idle. */
  ghost predicate Pair(s: System, size: nat, first: Phase, second: Phase, key: int, paid: int, free: nat) {
    && |s.workers| == size && size >= 2
    && (forall w :: 0 <= w < size ==>
          s.workers[w] == if w == 0 then first else if w == 1 then second else Idle)
    && s.key == key && s.paidSends == paid && s.freeSends == free
  }

  /** Both workers read the last unit and decrement. */
  lemma TwoDecrement(s: System, quota: nat) returns (states: seq<System>, moves: seq<Move>)
    requires Starts(s, quota) && quota >= 1 && |s.workers| >= 2
    ensures IsRun(states, moves) && states[0] == s
    ensures Pair(states[|states| - 1], |s.workers|, InFlight(true), InFlight(true), -1, quota - 1, 0)
  {
    var size := |s.workers|;
    states, moves := AllRead(s, quota, 2);
    assert Pair(states[|states| - 1], size, Reading(1), Reading(1), 1, quota - 1, 0);
    states, moves := AppendMove(states, moves, Move(0, Act));
    assert Pair(states[|states| - 1], size, InFlight(true), Reading(1), 0, quota - 1, 0);
    states, moves := AppendMove(states, moves, Move(1, Act));
  }

  /** Two workers take the key from 1 to -1, which is read as "unlimited": after that, any number of
      messages goes out uncharged. */
  lemma {:induction false} RaceToUnlimited(s: System, quota: nat, n: nat)
    returns (states: seq<System>, moves: seq<Move>)
    requires Starts(s, quota) && quota >= 1 && |s.workers| >= 2
    ensures IsRun(states, moves) && states[0] == s
    ensures var end := states[|states| - 1];
            && end.key == Dispatch.UNLIMITED && end.paidSends == quota + 1 && end.freeSends == n
            && forall w :: 0 <= w < |end.workers| ==> end.workers[w].Idle?
    ensures |states[|states| - 1].workers| == |s.workers|
  {
    var size := |s.workers|;
    if n == 0 {
      states, moves := TwoDecrement(s, quota);
      states, moves := AppendMove(states, moves, Move(0, Send));
      assert Pair(states[|states| - 1], size, Idle, InFlight(true), -1, quota, 0);
      states, moves := AppendMove(states, moves, Move(1, Send));
    } else {
      states, moves := RaceToUnlimited(s, quota, n - 1);
      assert Pair(states[|states| - 1], size, Idle, Idle, -1, quota + 1, n - 1);
      states, moves := AppendMove(states, moves, Move(0, Get));
      assert Pair(states[|states| - 1], size, Reading(-1), Idle, -1, quota + 1, n - 1);
      states, moves := AppendMove(states, moves, Move(0, Act));
      assert Pair(states[|states| - 1], size, InFlight(false), Idle, -1, quota + 1, n - 1);
      states, moves := AppendMove(states, moves, Move(0, Send));
      assert Pair(states[|states| - 1], size, Idle, Idle, -1, quota + 1, n);
    }
  }
}

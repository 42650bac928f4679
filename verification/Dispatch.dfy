/** The message worker of one tenant, jobs run one at a time: ordered gates, quota, re-credit, billing resets. */
module Dispatch {
  import opened Utils

  datatype MessageStatus =
    PENDING | SENT | DELIVERED | READ | FAILED | CONSENT_REVOKED | DROPPED_QUOTA | DROPPED_COOLDOWN

  datatype Channel = WHATSAPP_META | WHATSAPP_WAHA | EMAIL | SMS | OtherChannel

  datatype Customer = Customer(
    consentWhatsapp: bool,
    consentEmail: bool,
    consentSms: bool,
    isSuppressed: bool,
    marketingPausedUntil: Option<int>)

  type CustomerId = nat
  type MessageId = nat

  datatype Message = Message(
    customerId: CustomerId,
    channel: Channel,
    isPromotional: bool,
    createdAt: int,
    status: MessageStatus,
    retryCount: nat)

  datatype Tier = FREE | STARTER | GROWTH | PROFESSIONAL | ENTERPRISE

  const UNLIMITED := -1
  const DEFAULT_COOLDOWN_HOURS := 72
  const MS_PER_HOUR := 60 * 60 * 1_000

  function TierQuota(tier: Tier): int {
    match tier
    case FREE => 500
    case STARTER => 2_500
    case GROWTH => 10_000
    case PROFESSIONAL => 50_000
    case ENTERPRISE => UNLIMITED
  }

  /** The gateway accepts the message, rejects it, or throws. */
  datatype Gateway = Accepted | Rejected | Threw

  /** Which database write of a job throws, if the job gets there: the write of a drop, the in-flight mark, or the
      write that records the result. */
  datatype Fault = NoFault | DropThrows | MarkThrows | RecordThrows

  /** A message handed to the gateway. */
  datatype Route = Route(id: MessageId, at: int)

  /** The state of one tenant. The last three fields are accounts kept by the model only: units taken from the
      quota key and neither returned nor counted as used, the quota last written to the key, and the use that
      had been counted when it was written without resetting the counter. */
  datatype Tenant = Tenant(
    quotaKey: Option<int>,
    queuePaused: bool,
    tier: Tier,
    used: int,
    cooldownHours: Option<int>,
    customers: map<CustomerId, Customer>,
    messages: map<MessageId, Message>,
    history: seq<Route>,
    lost: int,
    synced: int,
    granted: int)

  predicate HasConsent(c: Customer, channel: Channel) {
    match channel
    case WHATSAPP_META => c.consentWhatsapp
    case WHATSAPP_WAHA => c.consentWhatsapp
    case EMAIL => c.consentEmail
    case SMS => c.consentSms
    case OtherChannel => false
  }

  predicate Delivered(status: MessageStatus) {
    status == SENT || status == DELIVERED || status == READ
  }

  function CooldownMs(cooldownHours: Option<int>): int {
    (if cooldownHours.Some? then cooldownHours.value else DEFAULT_COOLDOWN_HOURS) * MS_PER_HOUR
  }

  /** Another promotional message to the same customer is delivered and was created inside the window. */
  predicate RecentPromotion(messages: map<MessageId, Message>, id: MessageId, windowStart: int)
    requires id in messages
  {
    exists other :: other in messages && other != id && messages[other].isPromotional
                    && messages[other].customerId == messages[id].customerId
                    && Delivered(messages[other].status) && messages[other].createdAt >= windowStart
  }

  /** The verdict of the six gates before the quota: the status of the first that fails. */
  function Gate(t: Tenant, id: MessageId, now: int): Option<MessageStatus>
    requires id in t.messages
  {
    var m := t.messages[id];
    if t.queuePaused then Some(DROPPED_QUOTA)
    else if m.customerId !in t.customers then Some(FAILED)
    else
      var c := t.customers[m.customerId];
      if c.isSuppressed then Some(CONSENT_REVOKED)
      else if m.isPromotional && !HasConsent(c, m.channel) then Some(CONSENT_REVOKED)
      else if c.marketingPausedUntil.Some? && now < c.marketingPausedUntil.value then Some(DROPPED_COOLDOWN)
      else if m.isPromotional && RecentPromotion(t.messages, id, now - CooldownMs(t.cooldownHours)) then
        Some(DROPPED_COOLDOWN)
      else None
  }

  /** The job passes all seven gates and its in-flight mark is written, so the gateway is called. */
  predicate Routes(t: Tenant, id: MessageId, now: int, fault: Fault)
    requires id in t.messages
  {
    Gate(t, id, now).None? && t.quotaKey != Some(0) && fault != MarkThrows
  }

  predicate Charged(t: Tenant) {
    t.quotaKey.Some? && t.quotaKey.value != UNLIMITED
  }

  function SetStatus(messages: map<MessageId, Message>, id: MessageId, status: MessageStatus)
    : map<MessageId, Message>
    requires id in messages
  {
    messages[id := messages[id].(status := status)]
  }

  function Dropped(messages: map<MessageId, Message>, id: MessageId, status: MessageStatus, fault: Fault)
    : map<MessageId, Message>
    requires id in messages
  {
    if fault == DropThrows then messages else SetStatus(messages, id, status)
  }

  /** The send succeeded and was recorded. */
  predicate Counted(gateway: Gateway, fault: Fault) {
    gateway == Accepted && fault != MarkThrows && fault != RecordThrows
  }

  /** The tenant after one job. */
  function AfterJob(t: Tenant, id: MessageId, now: int, gateway: Gateway, fault: Fault): Tenant
    requires id in t.messages
  {
    var verdict := Gate(t, id, now);
    if verdict.Some? then t.(messages := Dropped(t.messages, id, verdict.value, fault))
    else if t.quotaKey == Some(0) then
      t.(queuePaused := true, messages := Dropped(t.messages, id, DROPPED_QUOTA, fault))
    else AfterRoute(t, id, now, gateway, fault)
  }

  /** The row of a message that was marked in flight. */
  function MessageAfter(m: Message, gateway: Gateway, fault: Fault): Message {
    if fault == RecordThrows || gateway == Threw then m.(status := PENDING)
    else if gateway == Accepted then m.(status := SENT)
    else m.(status := FAILED, retryCount := m.retryCount + 1)
  }

  lemma MessageAfterCases(m: Message, gateway: Gateway, fault: Fault)
    ensures fault == RecordThrows || gateway == Threw ==> MessageAfter(m, gateway, fault) == m.(status := PENDING)
    ensures fault != RecordThrows && gateway == Accepted ==> MessageAfter(m, gateway, fault) == m.(status := SENT)
    ensures fault != RecordThrows && gateway == Rejected ==>
              MessageAfter(m, gateway, fault) == m.(status := FAILED, retryCount := m.retryCount + 1)
  {
  }

  /** The tenant after a job that passed every gate: one unit is kept when the message went out, or when a
      write threw before the outcome was known. */
  function AfterRoute(t: Tenant, id: MessageId, now: int, gateway: Gateway, fault: Fault): Tenant
    requires id in t.messages
  {
    var marked, counted := fault != MarkThrows, Counted(gateway, fault);
    var keeps := Charged(t) && (gateway == Accepted || !marked);
    t.(quotaKey := if keeps then Some(t.quotaKey.value - 1) else t.quotaKey,
       lost := if keeps && !counted then t.lost + 1 else t.lost,
       used := if counted then t.used + 1 else t.used,
       history := if marked then t.history + [Route(id, now)] else t.history,
       messages := if marked then t.messages[id := MessageAfter(t.messages[id], gateway, fault)] else t.messages)
  }

  function SyncTier(t: Tenant, tier: Tier): Tenant {
    t.(quotaKey := Some(TierQuota(tier)), synced := TierQuota(tier))
  }

  datatype Event =
    | Job(id: MessageId, now: int, gateway: Gateway, fault: Fault)
    | Create(newId: MessageId, message: Message)
    | Acknowledge(ackId: MessageId, status: MessageStatus)
    | SetCustomer(customerId: CustomerId, customer: Customer)
    | SetCooldown(hours: Option<int>)
    | PauseExpires
    | InvoicePaid(tier: Tier)
    | SubscriptionUpdated(newTier: Tier, active: bool)
    | SubscriptionDeleted

  predicate Enabled(t: Tenant, e: Event) {
    match e
    case Job(id, _, _, _) => id in t.messages
    case Create(id, _) => id !in t.messages
    case Acknowledge(id, _) => id in t.messages
    case _ => true
  }

  function Step(t: Tenant, e: Event): Tenant
    requires Enabled(t, e)
  {
    match e
    case Job(id, now, gateway, fault) => AfterJob(t, id, now, gateway, fault)
    case Create(id, message) => t.(messages := t.messages[id := message])
    case Acknowledge(id, status) => t.(messages := SetStatus(t.messages, id, status))
    case SetCustomer(id, customer) => t.(customers := t.customers[id := customer])
    case SetCooldown(hours) => t.(cooldownHours := hours)
    case PauseExpires => t.(queuePaused := false)
    case InvoicePaid(tier) =>
      SyncTier(t.(tier := tier, used := 0, lost := 0, granted := 0), tier).(queuePaused := false)
    case SubscriptionUpdated(tier, active) =>
      if active then SyncTier(t.(tier := tier, granted := t.used + t.lost), tier) else t.(tier := tier)
    case SubscriptionDeleted => SyncTier(t.(tier := FREE, granted := t.used + t.lost), FREE)
  }

  /** The states of a run: the start and the state after each event. */
  ghost predicate IsRun(states: seq<Tenant>, events: seq<Event>) {
    && |states| == |events| + 1
    && forall i :: 0 <= i < |events| ==> Enabled(states[i], events[i]) && states[i + 1] == Step(states[i], events[i])
  }

  // ---- Quota -------------------------------------------------------------------------------------

  /** The quota account of a tenant: what is left, used and lost adds up to what was granted. */
  predicate Balanced(t: Tenant) {
    && t.quotaKey.Some?
    && (t.synced == UNLIMITED ==> t.quotaKey.value == UNLIMITED)
    && (t.synced != UNLIMITED ==>
          t.quotaKey.value >= 0 && t.quotaKey.value + t.used + t.lost == t.synced + t.granted)
  }

  lemma StepBalanced(t: Tenant, e: Event)
    requires Enabled(t, e) && Balanced(t)
    ensures Balanced(Step(t, e))
  {
    hide Gate;
  }

  lemma {:induction false} RunBalanced(states: seq<Tenant>, events: seq<Event>, k: nat)
    requires IsRun(states, events) && Balanced(states[0]) && k < |states|
    ensures Balanced(states[k])
  {
    if k > 0 {
      RunBalanced(states, events, k - 1);
      StepBalanced(states[k - 1], events[k - 1]);
    }
  }

  /** No database write throws once a unit has been taken, and billing only pays invoices. */
  predicate Plain(e: Event) {
    (e.Job? ==> e.fault == NoFault || e.fault == DropThrows) && !e.SubscriptionUpdated? && !e.SubscriptionDeleted?
  }

  /** A tenant at the start of a billing period. */
  predicate Fresh(t: Tenant) {
    t.quotaKey == Some(TierQuota(t.tier)) && t.used == 0 && t.lost == 0 && t.granted == 0
    && t.synced == TierQuota(t.tier)
  }

  lemma PlainStepKeepsAccounts(t: Tenant, e: Event)
    requires Enabled(t, e) && Plain(e) && t.lost == 0 && t.granted == 0 && t.synced == TierQuota(t.tier)
    ensures var t' := Step(t, e); t'.lost == 0 && t'.granted == 0 && t'.synced == TierQuota(t'.tier)
  {
    hide Gate;
  }

  /** Over any run of jobs, retries, acknowledgements and paid invoices in which no write throws once a unit is
      taken: an unlimited key stays unlimited; on a finite tier the key is never negative, and what remains plus
      what is used is the tier's quota. */
  lemma {:induction false} QuotaConserved(states: seq<Tenant>, events: seq<Event>, k: nat)
    requires IsRun(states, events) && Fresh(states[0]) && k < |states|
    requires forall e :: e in events ==> Plain(e)
    ensures var t := states[k];
            && t.quotaKey.Some?
            && if t.tier == ENTERPRISE then t.quotaKey.value == UNLIMITED
               else t.quotaKey.value >= 0 && t.quotaKey.value + t.used == TierQuota(t.tier)
  {
    RunBalanced(states, events, k);
    AccountsStayEmpty(states, events, k);
  }

  lemma {:induction false} AccountsStayEmpty(states: seq<Tenant>, events: seq<Event>, k: nat)
    requires IsRun(states, events) && Fresh(states[0]) && k < |states|
    requires forall e :: e in events ==> Plain(e)
    ensures states[k].lost == 0 && states[k].granted == 0 && states[k].synced == TierQuota(states[k].tier)
  {
    if k > 0 {
      AccountsStayEmpty(states, events, k - 1);
      PlainStepKeepsAccounts(states[k - 1], events[k - 1]);
    }
  }

  predicate ResetsQuota(e: Event) {
    e.InvoicePaid? || (e.SubscriptionUpdated? && e.active) || e.SubscriptionDeleted?
  }

  /** Once the key is 0, nothing is routed until billing writes the key again, whatever expires meanwhile. */
  lemma {:induction false} ExhaustedRoutesNothing(states: seq<Tenant>, events: seq<Event>, i: nat, j: nat)
    requires IsRun(states, events) && i <= j < |states| && states[i].quotaKey == Some(0)
    requires forall k :: i <= k < j ==> !ResetsQuota(events[k])
    ensures states[j].quotaKey == Some(0) && states[j].history == states[i].history
    decreases j - i
  {
    hide Gate;
    if i < j {
      ExhaustedRoutesNothing(states, events, i, j - 1);
      assert Enabled(states[j - 1], events[j - 1]);
    }
  }

  // ---- Cooldown ----------------------------------------------------------------------------------

  predicate SameCreation(before: Message, after: Message) {
    && after.customerId == before.customerId
    && after.isPromotional == before.isPromotional
    && after.createdAt == before.createdAt
  }

  lemma StepKeepsCreation(t: Tenant, e: Event, id: MessageId)
    requires Enabled(t, e) && id in t.messages
    ensures id in Step(t, e).messages && SameCreation(t.messages[id], Step(t, e).messages[id])
  {
    hide Gate;
  }

  /** What a message was created with never changes. */
  lemma {:induction false} CreationIsFixed(states: seq<Tenant>, events: seq<Event>, id: MessageId, i: nat, j: nat)
    requires IsRun(states, events) && i <= j < |states| && id in states[i].messages
    ensures id in states[j].messages && SameCreation(states[i].messages[id], states[j].messages[id])
    decreases j - i
  {
    hide Step, Enabled;
    if i < j {
      CreationIsFixed(states, events, id, i, j - 1);
      assert Enabled(states[j - 1], events[j - 1]);
      StepKeepsCreation(states[j - 1], events[j - 1], id);
    }
  }

  predicate RoutedAt(t: Tenant, e: Event, id: MessageId) {
    e.Job? && e.id == id && id in t.messages && Routes(t, id, e.now, e.fault)
  }

  /** When a promotional message is routed, every other promotional message to that customer that is sent,
      delivered or read, by this run or before it, was created more than the cooldown then in force ago; so if
      it was routed in this run, no more than `wait` after its creation, the two routings are more than
      cooldown - wait apart. */
  lemma CooldownSpacing(states: seq<Tenant>, events: seq<Event>, i: nat, j: nat, first: MessageId, second: MessageId,
                        wait: int)
    requires IsRun(states, events) && j < |events| && first != second
    requires RoutedAt(states[j], events[j], second) && states[j].messages[second].isPromotional
    requires first in states[j].messages && Delivered(states[j].messages[first].status)
    requires states[j].messages[first].isPromotional
    requires states[j].messages[first].customerId == states[j].messages[second].customerId
    ensures var cooldown := CooldownMs(states[j].cooldownHours);
            && events[j].now - states[j].messages[first].createdAt > cooldown
            && (i < j && RoutedAt(states[i], events[i], first)
                && events[i].now - states[i].messages[first].createdAt <= wait ==>
                  events[j].now - events[i].now > cooldown - wait)
  {
    assert !RecentPromotion(states[j].messages, second, events[j].now - CooldownMs(states[j].cooldownHours));
    if i < j && RoutedAt(states[i], events[i], first) {
      CreationIsFixed(states, events, first, i, j);
    }
  }

  /** A message dropped by one of the first six gates costs nothing and stands in nobody's way: the quota, the
      use and the history stay, and no gate that was open to another message closes. */
  lemma DropIsInert(t: Tenant, id: MessageId, now: int, gateway: Gateway, fault: Fault, other: MessageId, at: int)
    requires id in t.messages && Gate(t, id, now).Some? && other in t.messages && other != id
    ensures var t' := AfterJob(t, id, now, gateway, fault);
      && t'.quotaKey == t.quotaKey && t'.used == t.used && t'.lost == t.lost && t'.history == t.history
      && other in t'.messages && t'.messages[other] == t.messages[other]
      && (Gate(t, other, at).None? ==> Gate(t', other, at).None?)
  {
    var t' := AfterJob(t, id, now, gateway, fault);
    hide AfterJob, Gate;
    DroppedStatus(t, id, now);
    OnlyThat(t, id, now, gateway, fault);
    var start := at - CooldownMs(t.cooldownHours);
    if RecentPromotion(t'.messages, other, start) {
      var blocker :| blocker in t'.messages && blocker != other && t'.messages[blocker].isPromotional
                     && t'.messages[blocker].customerId == t'.messages[other].customerId
                     && Delivered(t'.messages[blocker].status) && t'.messages[blocker].createdAt >= start;
      assert fault != DropThrows ==> blocker != id;
      assert RecentPromotion(t.messages, other, start);
    }
    SameGates(t, t', other, at);
  }

  /** A unit is lost, taken from the key and neither returned nor counted, exactly when a charged job that passed
      every gate is cut short by the in-flight write, or by the write that records a message the gateway took. */
  lemma LostIff(t: Tenant, id: MessageId, now: int, gateway: Gateway, fault: Fault)
    requires id in t.messages
    ensures AfterJob(t, id, now, gateway, fault).lost
         == t.lost + if Gate(t, id, now).None? && t.quotaKey != Some(0) && Charged(t)
                        && (fault == MarkThrows || (fault == RecordThrows && gateway == Accepted)) then 1 else 0
  {
    hide Gate;
  }

  lemma DroppedStatus(t: Tenant, id: MessageId, now: int)
    requires id in t.messages && Gate(t, id, now).Some?
    ensures !Delivered(Gate(t, id, now).value)
  {
  }

  lemma OnlyThat(t: Tenant, id: MessageId, now: int, gateway: Gateway, fault: Fault)
    requires id in t.messages && Gate(t, id, now).Some?
    ensures AfterJob(t, id, now, gateway, fault)
         == t.(messages := Dropped(t.messages, id, Gate(t, id, now).value, fault))
  {
  }

  /** The gates look at the message, its customer and the recent promotions only. */
  lemma SameGates(t: Tenant, t': Tenant, id: MessageId, now: int)
    requires id in t.messages && id in t'.messages && t'.messages[id] == t.messages[id]
    requires t'.customers == t.customers && t'.queuePaused == t.queuePaused && t'.cooldownHours == t.cooldownHours
    requires RecentPromotion(t'.messages, id, now - CooldownMs(t.cooldownHours)) ==>
               RecentPromotion(t.messages, id, now - CooldownMs(t.cooldownHours))
    ensures Gate(t, id, now).None? ==> Gate(t', id, now).None?
  {
    hide RecentPromotion, HasConsent;
  }

  /** What must hold of a tenant for message `id` to reach the gateway at time `now`. */
  predicate Allowed(t: Tenant, id: MessageId, now: int) {
    && id in t.messages
    && !t.queuePaused
    && t.messages[id].customerId in t.customers
    && t.quotaKey != Some(0)
    && var m, c := t.messages[id], t.customers[t.messages[id].customerId];
    && !c.isSuppressed
    && (m.isPromotional ==> HasConsent(c, m.channel))
    && (c.marketingPausedUntil.Some? ==> c.marketingPausedUntil.value <= now)
    && (m.isPromotional ==> !RecentPromotion(t.messages, id, now - CooldownMs(t.cooldownHours)))
  }

  lemma StepHistory(t: Tenant, e: Event)
    requires Enabled(t, e)
    ensures var h := Step(t, e).history;
            h == t.history || (e.Job? && h == t.history + [Route(e.id, e.now)] && Allowed(t, e.id, e.now))
  {
  }

  /** Over any run, every message handed to the gateway was allowed at the moment of some job for it. */
  lemma {:induction false} EveryRouteWasAllowed(states: seq<Tenant>, events: seq<Event>, n: nat, h: nat)
    returns (i: nat)
    requires IsRun(states, events) && states[0].history == [] && n < |states| && h < |states[n].history|
    ensures i < n && events[i].Job? && Route(events[i].id, events[i].now) == states[n].history[h]
    ensures Allowed(states[i], events[i].id, events[i].now)
    decreases n
  {
    hide Step, Allowed;
    assert Enabled(states[n - 1], events[n - 1]);
    StepHistory(states[n - 1], events[n - 1]);
    if h < |states[n - 1].history| {
      i := EveryRouteWasAllowed(states, events, n - 1, h);
    } else {
      i := n - 1;
    }
  }

  // ---- Worker and billing handlers ---------------------------------------------------------------

  datatype Outcome = Completed | Retry

  class MessageWorker {
    var quotaKey: Option<int>
    var queuePaused: bool
    var tier: Tier
    var used: int
    var cooldownHours: Option<int>
    var customers: map<CustomerId, Customer>
    var messages: map<MessageId, Message>
    ghost var history: seq<Route>
    ghost var lost: int
    ghost var synced: int
    ghost var granted: int

    ghost function Snapshot(): Tenant
      reads this
    {
      Tenant(quotaKey, queuePaused, tier, used, cooldownHours, customers, messages, history, lost, synced, granted)
    }

    /** Ends the job for good by a terminal status; if that write throws, the job is retried. */
    method ResolveDropped(id: MessageId, status: MessageStatus, fault: Fault) returns (outcome: Outcome)
      requires id in messages
      modifies this`messages
      ensures messages == Dropped(old(messages), id, status, fault)
      ensures outcome == Retry <==> fault == DropThrows
    {
      if fault == DropThrows {
        return Retry;
      }
      messages := messages[id := messages[id].(status := status)];
      return Completed;
    }

    /** Pre-flights 1 to 6, in order. */
    method PreFlight(id: MessageId, now: int) returns (verdict: Option<MessageStatus>)
      requires id in messages
      ensures verdict == Gate(Snapshot(), id, now)
    {
      hide RecentPromotion, HasConsent;
      var message := messages[id];
      if queuePaused {
        return Some(DROPPED_QUOTA);
      }
      if message.customerId !in customers {
        return Some(FAILED);
      }
      var customer := customers[message.customerId];
      if customer.isSuppressed {
        return Some(CONSENT_REVOKED);
      }
      if message.isPromotional {
        if !HasConsent(customer, message.channel) {
          return Some(CONSENT_REVOKED);
        }
      }
      if customer.marketingPausedUntil.Some? && now < customer.marketingPausedUntil.value {
        return Some(DROPPED_COOLDOWN);
      }
      if message.isPromotional {
        var cooldownWindowStart := now - CooldownMs(cooldownHours);
        if RecentPromotion(messages, id, cooldownWindowStart) {
          return Some(DROPPED_COOLDOWN);
        }
      }
      return None;
    }

    method ProcessMessageJob(id: MessageId, now: int, gateway: Gateway, fault: Fault) returns (outcome: Outcome)
      requires id in messages
      modifies this
      ensures Snapshot() == AfterJob(old(Snapshot()), id, now, gateway, fault)
      ensures outcome == Retry <==>
                if Gate(old(Snapshot()), id, now).Some? || old(quotaKey) == Some(0) then fault == DropThrows
                else !Counted(gateway, fault)
    {
      hide Gate;
      var verdict := PreFlight(id, now);
      if verdict.Some? {
        outcome := ResolveDropped(id, verdict.value, fault);
        return;
      }
      if quotaKey == Some(0) {
        queuePaused := true;
        outcome := ResolveDropped(id, DROPPED_QUOTA, fault);
        return;
      }
      outcome := ChargeAndRoute(id, now, gateway, fault);
    }

    /** Decrement, mark in flight, call the gateway, record the result or re-credit. */
    method ChargeAndRoute(id: MessageId, now: int, gateway: Gateway, fault: Fault) returns (outcome: Outcome)
      requires id in messages
      modifies this
      ensures Snapshot() == AfterRoute(old(Snapshot()), id, now, gateway, fault)
      ensures outcome == Retry <==> !Counted(gateway, fault)
    {
      hide MessageAfter;
      var m := messages[id];
      MessageAfterCases(m, gateway, fault);
      Overwrite(messages, id, m.(status := PENDING), MessageAfter(m, gateway, fault));
      var quota := quotaKey;
      var charged := quota.Some? && quota.value != UNLIMITED;
      if charged {
        quotaKey := Some(quotaKey.value - 1);
      }
      if fault == MarkThrows {
        lost := if charged then lost + 1 else lost;
        return Retry;
      }
      messages := messages[id := m.(status := PENDING)];
      history := history + [Route(id, now)];
      if gateway == Threw {
        if charged {
          quotaKey := Some(quotaKey.value + 1);
        }
        return Retry;
      }
      if gateway == Accepted {
        if fault == RecordThrows {
          lost := if charged then lost + 1 else lost;
          return Retry;
        }
        messages := messages[id := m.(status := SENT)];
        used := used + 1;
        return Completed;
      }
      if charged {
        quotaKey := Some(quotaKey.value + 1);
      }
      if fault == RecordThrows {
        return Retry;
      }
      messages := messages[id := m.(status := FAILED, retryCount := m.retryCount + 1)];
      return Retry;
    }

    method SyncTierToRedis(newTier: Tier)
      modifies this`quotaKey, this`synced
      ensures Snapshot() == SyncTier(old(Snapshot()), newTier)
    {
      quotaKey := Some(TierQuota(newTier));
      synced := TierQuota(newTier);
    }

    method HandleInvoicePaid(newTier: Tier)
      modifies this
      ensures Snapshot() == Step(old(Snapshot()), InvoicePaid(newTier))
    {
      tier, used := newTier, 0;
      lost, granted := 0, 0;
      SyncTierToRedis(newTier);
      queuePaused := false;
    }

    method HandleSubscriptionUpdated(newTier: Tier, active: bool)
      modifies this
      ensures Snapshot() == Step(old(Snapshot()), SubscriptionUpdated(newTier, active))
    {
      tier := newTier;
      if active {
        granted := used + lost;
        SyncTierToRedis(newTier);
      }
    }

    method HandleSubscriptionDeleted()
      modifies this
      ensures Snapshot() == Step(old(Snapshot()), SubscriptionDeleted)
    {
      tier := FREE;
      granted := used + lost;
      SyncTierToRedis(FREE);
    }
  }
}

/** When a message reaches the gateway and what becomes of it otherwise, read off the rows. */
module Consent {
  import opened Dispatch
  import opened Utils

  /** The customer's flag for the channel is set; other channels have no flag. */
  predicate FlagSet(c: Customer, channel: Channel) {
    && (channel in {WHATSAPP_META, WHATSAPP_WAHA} ==> c.consentWhatsapp)
    && (channel == EMAIL ==> c.consentEmail)
    && (channel == SMS ==> c.consentSms)
    && channel != OtherChannel
  }

  /** Another promotional message to the customer has gone out and was created in the cooldown before `now`. */
  ghost predicate Recent(t: Tenant, id: MessageId, now: int)
    requires id in t.messages
  {
    var hours := match t.cooldownHours case Some(h) => h case None => 72;
    exists other :: other in t.messages && other != id && t.messages[other].isPromotional
                    && t.messages[other].customerId == t.messages[id].customerId
                    && t.messages[other].status in {SENT, DELIVERED, READ}
                    && now - t.messages[other].createdAt <= hours * 3_600_000
  }

  lemma RecentIff(t: Tenant, id: MessageId, now: int)
    requires id in t.messages
    ensures RecentPromotion(t.messages, id, now - CooldownMs(t.cooldownHours)) <==> Recent(t, id, now)
  {
  }

  lemma HasConsentIff(c: Customer, channel: Channel)
    ensures HasConsent(c, channel) <==> FlagSet(c, channel)
  {
  }

  // ---- The verdict -------------------------------------------------------------------------------

  /** Every verdict of the six gates before the quota, and when each is given. */
  lemma VerdictIff(t: Tenant, id: MessageId, now: int)
    requires id in t.messages
    ensures var m, known := t.messages[id], t.messages[id].customerId in t.customers;
      && (Gate(t, id, now) == Some(DROPPED_QUOTA) <==> t.queuePaused)
      && (Gate(t, id, now) == Some(FAILED) <==> !t.queuePaused && !known)
      && (Gate(t, id, now) == Some(CONSENT_REVOKED) <==>
            !t.queuePaused && known
            && var c := t.customers[m.customerId]; c.isSuppressed || (m.isPromotional && !FlagSet(c, m.channel)))
      && (Gate(t, id, now) == Some(DROPPED_COOLDOWN) <==>
            !t.queuePaused && known
            && var c := t.customers[m.customerId];
               && !c.isSuppressed && (m.isPromotional ==> FlagSet(c, m.channel))
               && ((exists end :: c.marketingPausedUntil == Some(end) && now < end)
                   || (m.isPromotional && Recent(t, id, now))))
      && (Gate(t, id, now).Some? ==> Gate(t, id, now).value in
                                     {DROPPED_QUOTA, FAILED, CONSENT_REVOKED, DROPPED_COOLDOWN})
  {
    RecentIff(t, id, now);
    hide Recent, RecentPromotion, HasConsent, FlagSet;
    if t.messages[id].customerId in t.customers {
      var c := t.customers[t.messages[id].customerId];
      HasConsentIff(c, t.messages[id].channel);
      if c.marketingPausedUntil.Some? {
        assert c.marketingPausedUntil == Some(c.marketingPausedUntil.value);
      }
    }
  }

  /** What a message, its customer and its tenant must be like for the message to go out. */
  ghost predicate MayGoOut(t: Tenant, id: MessageId, now: int)
    requires id in t.messages
  {
    var m := t.messages[id];
    && !t.queuePaused && t.quotaKey != Some(0)
    && m.customerId in t.customers
    && var c := t.customers[m.customerId];
    && !c.isSuppressed
    && (forall end :: c.marketingPausedUntil == Some(end) ==> end <= now)
    && (m.isPromotional ==> FlagSet(c, m.channel) && !Recent(t, id, now))
  }

  lemma MayGoOutIff(t: Tenant, id: MessageId, now: int)
    requires id in t.messages
    ensures MayGoOut(t, id, now) <==> Gate(t, id, now).None? && t.quotaKey != Some(0)
  {
    VerdictIff(t, id, now);
    hide Gate, Recent, FlagSet;
    if t.messages[id].customerId in t.customers {
      var c := t.customers[t.messages[id].customerId];
      assert forall end :: c.marketingPausedUntil == Some(end) ==> end == c.marketingPausedUntil.value;
    }
  }

  /**
   * A job hands its message to the gateway if and only if the message may go out and the in-flight mark is
   * written. Then the row is SENT, FAILED with one more retry counted, or PENDING, by the gateway's answer and
   * the recording write; the use counts it exactly when it is SENT.
   */
  lemma GatewayIff(t: Tenant, id: MessageId, now: int, gateway: Gateway, fault: Fault)
    requires id in t.messages
    ensures var t', m := AfterJob(t, id, now, gateway, fault), t.messages[id];
      if MayGoOut(t, id, now) && fault != MarkThrows then
        && t'.history == t.history + [Route(id, now)]
        && t'.messages == t.messages[id :=
             if fault == RecordThrows || gateway == Threw then m.(status := PENDING)
             else if gateway == Accepted then m.(status := SENT)
             else m.(status := FAILED, retryCount := m.retryCount + 1)]
        && t'.used == t.used + (if gateway == Accepted && fault != RecordThrows then 1 else 0)
      else t'.history == t.history && t'.used == t.used
  {
    MayGoOutIff(t, id, now);
    MessageAfterCases(t.messages[id], gateway, fault);
    hide Gate, MayGoOut, MessageAfter;
  }

  /** A job takes one unit from a finite key if and only if its message may go out and either the gateway took it or
      the in-flight write threw. */
  lemma KeyIff(t: Tenant, id: MessageId, now: int, gateway: Gateway, fault: Fault)
    requires id in t.messages
    ensures var t' := AfterJob(t, id, now, gateway, fault);
      if MayGoOut(t, id, now) && t.quotaKey.Some? && t.quotaKey != Some(-1)
         && (gateway == Accepted || fault == MarkThrows)
      then t'.quotaKey == Some(t.quotaKey.value - 1)
      else t'.quotaKey == t.quotaKey
  {
    MayGoOutIff(t, id, now);
    hide Gate, MayGoOut, MessageAfter;
  }

  /** A message that may not go out ends by the first reason that applies, unless the write that says so throws; an
      empty quota pauses the queue either way. */
  lemma HeldBackRow(t: Tenant, id: MessageId, now: int, gateway: Gateway, fault: Fault)
    requires id in t.messages && !MayGoOut(t, id, now)
    ensures var t', m := AfterJob(t, id, now, gateway, fault), t.messages[id];
      var status := if t.queuePaused then DROPPED_QUOTA
                    else if m.customerId !in t.customers then FAILED
                    else var c := t.customers[m.customerId];
                      if c.isSuppressed || (m.isPromotional && !FlagSet(c, m.channel)) then CONSENT_REVOKED
                      else if (exists end :: c.marketingPausedUntil == Some(end) && now < end)
                              || (m.isPromotional && Recent(t, id, now)) then DROPPED_COOLDOWN
                      else DROPPED_QUOTA;
      && t'.messages == (if fault == DropThrows then t.messages else t.messages[id := m.(status := status)])
      && (t'.queuePaused <==> t.queuePaused || Gate(t, id, now).None?)
      && (Gate(t, id, now).None? ==> t.quotaKey == Some(0))
  {
    VerdictIff(t, id, now);
    MayGoOutIff(t, id, now);
    hide Gate, Recent, FlagSet, MayGoOut;
  }

  // ---- Whole runs --------------------------------------------------------------------------------

  /** What an event hands to the gateway. */
  ghost function Sends(t: Tenant, e: Event): seq<Route>
    requires Enabled(t, e)
  {
    if e.Job? && MayGoOut(t, e.id, e.now) && e.fault != MarkThrows then [Route(e.id, e.now)] else []
  }

  lemma StepSends(t: Tenant, e: Event)
    requires Enabled(t, e)
    ensures Step(t, e).history == t.history + Sends(t, e)
  {
    hide MayGoOut, AfterJob;
    if e.Job? {
      GatewayIff(t, e.id, e.now, e.gateway, e.fault);
    }
  }

  /** The messages that may go out at their jobs and are marked in flight, in the order of the first n events. */
  ghost function GoingOut(states: seq<Tenant>, events: seq<Event>, n: nat): seq<Route>
    requires IsRun(states, events) && n < |states|
  {
    if n == 0 then []
    else
      assert Enabled(states[n - 1], events[n - 1]);
      GoingOut(states, events, n - 1) + Sends(states[n - 1], events[n - 1])
  }

  /** Over any run, whatever else happens in it, exactly these messages reach the gateway, in this order. */
  lemma {:induction false} ExactlyTheseReachTheGateway(states: seq<Tenant>, events: seq<Event>, n: nat)
    requires IsRun(states, events) && n < |states|
    ensures states[n].history == states[0].history + GoingOut(states, events, n)
  {
    if n > 0 {
      hide Step, Enabled, Sends;
      ExactlyTheseReachTheGateway(states, events, n - 1);
      assert Enabled(states[n - 1], events[n - 1]);
      StepSends(states[n - 1], events[n - 1]);
    }
  }

  /** Over any run, at some job for it every message handed to the gateway had a customer who was not suppressed and
      whose flag for the message's channel was set if the message is promotional. */
  lemma EveryRouteHadConsent(states: seq<Tenant>, events: seq<Event>, n: nat, h: nat) returns (i: nat)
    requires IsRun(states, events) && states[0].history == [] && n < |states| && h < |states[n].history|
    ensures i < n && events[i].Job? && Route(events[i].id, events[i].now) == states[n].history[h]
    ensures var t, id := states[i], states[n].history[h].id;
      && id in t.messages && t.messages[id].customerId in t.customers
      && var m, c := t.messages[id], t.customers[t.messages[id].customerId];
      && !c.isSuppressed
      && (m.isPromotional && (m.channel == WHATSAPP_META || m.channel == WHATSAPP_WAHA) ==> c.consentWhatsapp)
      && (m.isPromotional && m.channel == EMAIL ==> c.consentEmail)
      && (m.isPromotional && m.channel == SMS ==> c.consentSms)
      && (m.isPromotional ==> m.channel != OtherChannel)
  {
    i := EveryRouteWasAllowed(states, events, n, h);
  }

  /** The flags of the channels a message does not use never matter to it. */
  lemma OtherFlagsDoNotMatter(t: Tenant, id: MessageId, now: int, changed: Customer)
    requires id in t.messages && t.messages[id].customerId in t.customers
    requires var m, c := t.messages[id], t.customers[t.messages[id].customerId];
      && changed.isSuppressed == c.isSuppressed && changed.marketingPausedUntil == c.marketingPausedUntil
      && (m.channel == WHATSAPP_META || m.channel == WHATSAPP_WAHA ==> changed.consentWhatsapp == c.consentWhatsapp)
      && (m.channel == EMAIL ==> changed.consentEmail == c.consentEmail)
      && (m.channel == SMS ==> changed.consentSms == c.consentSms)
    ensures Gate(Step(t, SetCustomer(t.messages[id].customerId, changed)), id, now) == Gate(t, id, now)
  {
    hide RecentPromotion;
  }

  // ---- Billing -----------------------------------------------------------------------------------

  /** What a tier grants, -1 standing for no limit. */
  predicate Grants(tier: Tier, quota: int) {
    && (tier == FREE ==> quota == 500)
    && (tier == STARTER ==> quota == 2_500)
    && (tier == GROWTH ==> quota == 10_000)
    && (tier == PROFESSIONAL ==> quota == 50_000)
    && (tier == ENTERPRISE ==> quota == -1)
  }

  /** A paid invoice writes the tier's quota to the key, zeroes the use and lifts the pause. An updated subscription
      writes the key only if it is active, a deleted one writes that of FREE, and neither touches use or pause. */
  lemma BillingWritesTheKey(t: Tenant, tier: Tier, active: bool)
    ensures var paid := Step(t, InvoicePaid(tier));
      paid.tier == tier && paid.quotaKey.Some? && Grants(tier, paid.quotaKey.value) && paid.used == 0
      && !paid.queuePaused
    ensures var updated := Step(t, SubscriptionUpdated(tier, active));
      && updated.tier == tier && updated.used == t.used && updated.queuePaused == t.queuePaused
      && if active then updated.quotaKey.Some? && Grants(tier, updated.quotaKey.value)
         else updated.quotaKey == t.quotaKey
    ensures var deleted := Step(t, SubscriptionDeleted);
      deleted.tier == FREE && deleted.quotaKey == Some(500) && deleted.used == t.used
      && deleted.queuePaused == t.queuePaused
  {
  }
}

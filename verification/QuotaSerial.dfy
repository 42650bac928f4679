/** A job run alone by the interleaved model does to the quota what the serial worker's specification says. */
module QuotaSerial {
  import opened Utils
  import D = Dispatch
  import R = QuotaRace

  /** The moves of a job that no other worker interrupts, from the read of the key on. */
  function Alone(s: R.System, gateway: D.Gateway, fault: D.Fault): (s': R.System)
    requires s.workers == [R.Idle]
    ensures s'.workers == [R.Idle]
  {
    var read := R.Step(s, 0, R.Get);
    var acted := R.Step(read, 0, R.Act);
    if acted.workers[0].Idle? then acted
    else if fault == D.MarkThrows || (fault == D.RecordThrows && gateway == D.Accepted) then R.Step(acted, 0, R.Throw)
    else if gateway == D.Accepted then R.Step(acted, 0, R.Send)
    else
      var rejected := R.Step(acted, 0, R.Reject);
      if rejected.workers[0].Crediting? then R.Step(rejected, 0, R.Credit) else rejected
  }

  /** The net effect of an uninterrupted job: one unit is kept unless the gateway fails without a throw. */
  lemma AloneNet(s: R.System, gateway: D.Gateway, fault: D.Fault)
    requires s.workers == [R.Idle] && s.key != 0
    ensures var s' := Alone(s, gateway, fault);
            var throws := fault == D.MarkThrows || (fault == D.RecordThrows && gateway == D.Accepted);
            var charged, sent := s.key != D.UNLIMITED, gateway == D.Accepted && !throws;
            && s'.key == (if charged && (throws || sent) then s.key - 1 else s.key)
            && s'.paidSends + s'.freeSends == s.paidSends + s.freeSends + (if sent then 1 else 0)
            && s'.leaked == s.leaked + (if charged && throws then 1 else 0)
  {
  }

  /** Key, counted sends and leaked units agree, for every gateway answer and every throwing write. */
  lemma SerialJobAgrees(t: D.Tenant, id: D.MessageId, now: int, gateway: D.Gateway, fault: D.Fault, s: R.System)
    requires id in t.messages && D.Gate(t, id, now).None?
    requires s.workers == [R.Idle] && t.quotaKey == Some(s.key)
    ensures var t', s' := D.AfterJob(t, id, now, gateway, fault), Alone(s, gateway, fault);
            && t'.quotaKey == Some(s'.key)
            && t'.used - t.used == (s'.paidSends + s'.freeSends) - (s.paidSends + s.freeSends)
            && t'.lost - t.lost == s'.leaked - s.leaked
  {
    hide D.Gate;
    if s.key != 0 {
      AloneNet(s, gateway, fault);
      hide Alone;
    }
  }
}

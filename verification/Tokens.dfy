/** Refresh tokens: issue, rotate with theft detection, revoke, password reset. Secrets are numbers that never
    repeat. */
module Tokens {
  import opened Utils

  type UserId = string

  /** An ideal hash: it tells nothing but whether a secret is the one it was made from. */
  datatype Hash = Hash(secret: nat)

  datatype Account = Account(isActive: bool, refreshTokenHash: Option<Hash>)

  datatype Error =
    | USER_NOT_FOUND
    | USER_NOT_FOUND_OR_INACTIVE
    | NO_ACTIVE_SESSION
    | REFRESH_TOKEN_INVALID
    | RESET_TOKEN_INVALID_OR_EXPIRED

  datatype Event =
    | Issue(user: UserId)
    | Rotate(user: UserId, raw: nat)
    | Revoke(user: UserId)
    | ForgotPassword(user: UserId)
    | ResetPassword(link: nat)
    | LinkExpires(link: nat)
    | SetActive(user: UserId, active: bool)

  datatype Reply = Issued(token: nat) | Linked(link: nat) | Reset(account: UserId) | Done | Failed(error: Error)

  datatype Entry = Entry(event: Event, reply: Reply)

  /** Accounts, outstanding reset links, the next secret, and the history of what was asked and answered. */
  datatype Store = Store(users: map<UserId, Account>, links: map<nat, UserId>, next: nat, log: seq<Entry>)

  function SetHash(s: Store, u: UserId, hash: Option<Hash>): map<UserId, Account>
    requires u in s.users
  {
    s.users[u := s.users[u].(refreshTokenHash := hash)]
  }

  function Replied(s: Store, e: Event, reply: Reply): Store {
    s.(log := s.log + [Entry(e, reply)])
  }

  /** A fresh secret is handed out and only its hash is kept, in place of the one before. */
  function IssueTo(s: Store, u: UserId, e: Event): Store
    requires u in s.users
  {
    Replied(s.(users := SetHash(s, u, Some(Hash(s.next))), next := s.next + 1), e, Issued(s.next))
  }

  function RotateError(s: Store, u: UserId, raw: nat): Option<Error> {
    if u !in s.users || !s.users[u].isActive then Some(USER_NOT_FOUND_OR_INACTIVE)
    else if s.users[u].refreshTokenHash.None? then Some(NO_ACTIVE_SESSION)
    else if s.users[u].refreshTokenHash.value != Hash(raw) then Some(REFRESH_TOKEN_INVALID)
    else None
  }

  function Apply(s: Store, e: Event): Store {
    match e
    case Issue(u) => if u !in s.users then Replied(s, e, Failed(USER_NOT_FOUND)) else IssueTo(s, u, e)
    case Rotate(u, raw) =>
      (match RotateError(s, u, raw)
       case None => IssueTo(s, u, e)
       case Some(REFRESH_TOKEN_INVALID) =>
         Replied(s.(users := SetHash(s, u, None)), e, Failed(REFRESH_TOKEN_INVALID))
       case Some(error) => Replied(s, e, Failed(error)))
    case Revoke(u) =>
      if u !in s.users then Replied(s, e, Failed(USER_NOT_FOUND))
      else Replied(s.(users := SetHash(s, u, None)), e, Done)
    case ForgotPassword(u) =>
      if u !in s.users || !s.users[u].isActive then Replied(s, e, Done)
      else Replied(s.(links := s.links[s.next := u], next := s.next + 1), e, Linked(s.next))
    case ResetPassword(link) =>
      if link !in s.links then Replied(s, e, Failed(RESET_TOKEN_INVALID_OR_EXPIRED))
      else
        var u := s.links[link];
        if u !in s.users then Replied(s, e, Failed(USER_NOT_FOUND))
        else Replied(s.(users := SetHash(s, u, None), links := s.links - {link}), e, Reset(u))
    case LinkExpires(link) => Replied(s.(links := s.links - {link}), e, Done)
    case SetActive(u, active) =>
      if u !in s.users then Replied(s, e, Failed(USER_NOT_FOUND))
      else Replied(s.(users := s.users[u := s.users[u].(isActive := active)]), e, Done)
  }

  function Run(s: Store, events: seq<Event>): Store {
    if events == [] then s else Apply(Run(s, events[..|events| - 1]), events[|events| - 1])
  }

  /** Before anything happens nobody has a session, a link or a secret. */
  ghost predicate Starts(s: Store) {
    s.links == map[] && s.log == [] && forall u :: u in s.users ==> s.users[u].refreshTokenHash == None
  }

  class TokenStore {
    var users: map<UserId, Account>
    var links: map<nat, UserId>
    var next: nat
    ghost var log: seq<Entry>

    ghost function Snapshot(): Store
      reads this
    {
      Store(users, links, next, log)
    }

    /** Called for a sign-in, `e == Issue(u)`, and at the end of a successful rotation. */
    method IssueTokenPair(u: UserId, ghost e: Event) returns (reply: Reply)
      modifies this
      ensures Snapshot() == if u in old(users) then IssueTo(old(Snapshot()), u, e)
                            else Replied(old(Snapshot()), e, Failed(USER_NOT_FOUND))
      ensures log == old(log) + [Entry(e, reply)]
    {
      reply := Failed(USER_NOT_FOUND);
      if u in users {
        var raw := next;
        next := next + 1;
        users := users[u := users[u].(refreshTokenHash := Some(Hash(raw)))];
        reply := Issued(raw);
      }
      log := log + [Entry(e, reply)];
    }

    method RotateRefreshToken(u: UserId, raw: nat) returns (reply: Reply)
      modifies this
      ensures Snapshot() == Apply(old(Snapshot()), Rotate(u, raw))
      ensures log == old(log) + [Entry(Rotate(u, raw), reply)]
    {
      if u !in users || !users[u].isActive {
        reply := Failed(USER_NOT_FOUND_OR_INACTIVE);
      } else if users[u].refreshTokenHash.None? {
        reply := Failed(NO_ACTIVE_SESSION);
      } else if users[u].refreshTokenHash.value != Hash(raw) {
        users := users[u := users[u].(refreshTokenHash := None)];
        reply := Failed(REFRESH_TOKEN_INVALID);
      } else {
        reply := IssueTokenPair(u, Rotate(u, raw));
        return;
      }
      log := log + [Entry(Rotate(u, raw), reply)];
    }

    method RevokeAllUserTokens(u: UserId) returns (reply: Reply)
      modifies this
      ensures Snapshot() == Apply(old(Snapshot()), Revoke(u))
      ensures log == old(log) + [Entry(Revoke(u), reply)]
    {
      reply := Failed(USER_NOT_FOUND);
      if u in users {
        users := users[u := users[u].(refreshTokenHash := None)];
        reply := Done;
      }
      log := log + [Entry(Revoke(u), reply)];
    }

    method ResetPasswordWith(link: nat) returns (reply: Reply)
      modifies this
      ensures Snapshot() == Apply(old(Snapshot()), ResetPassword(link))
      ensures log == old(log) + [Entry(ResetPassword(link), reply)]
    {
      reply := Failed(RESET_TOKEN_INVALID_OR_EXPIRED);
      if link in links {
        var u := links[link];
        reply := Failed(USER_NOT_FOUND);
        if u in users {
          users := users[u := users[u].(refreshTokenHash := None)];
          links := links - {link};
          reply := Reset(u);
        }
      }
      log := log + [Entry(ResetPassword(link), reply)];
    }
  }

  // ---- The history decides -----------------------------------------------------------------------

  predicate IssuedIn(e: Entry, u: UserId, t: nat) {
    e.reply == Issued(t) && (e.event == Issue(u) || (e.event.Rotate? && e.event.user == u))
  }

  /** The entries that end whatever session the user had. */
  predicate EndsSession(e: Entry, u: UserId) {
    match e.event
    case Issue(v) => v == u && e.reply.Issued?
    case Rotate(v, _) => v == u && (e.reply.Issued? || e.reply == Failed(REFRESH_TOKEN_INVALID))
    case Revoke(v) => v == u && e.reply == Done
    case ResetPassword(_) => e.reply == Reset(u)
    case _ => false
  }

  /** Token t was handed to u and nothing since has ended that session. */
  ghost predicate IsCurrent(log: seq<Entry>, u: UserId, t: nat) {
    exists i :: 0 <= i < |log| && IssuedIn(log[i], u, t) && forall j :: i < j < |log| ==> !EndsSession(log[j], u)
  }

  predicate Stored(s: Store, u: UserId, t: nat) {
    u in s.users && s.users[u].refreshTokenHash == Some(Hash(t))
  }

  /** Rotation would answer this token with a new pair. */
  predicate Accepted(s: Store, u: UserId, t: nat) {
    RotateError(s, u, t).None?
  }

  /** Appending an entry: a session-ending entry leaves only the token it issues, any other entry changes nothing. */
  lemma CurrentAfter(log: seq<Entry>, e: Entry, u: UserId, t: nat)
    ensures IsCurrent(log + [e], u, t) <==> if EndsSession(e, u) then IssuedIn(e, u, t) else IsCurrent(log, u, t)
  {
    var longer := log + [e];
    if EndsSession(e, u) {
      if IssuedIn(e, u, t) {
        assert IssuedIn(longer[|log|], u, t);
      }
      assert longer[|log|] == e;
    } else {
      assert !IssuedIn(e, u, t);
      if IsCurrent(log, u, t) {
        var i :| 0 <= i < |log| && IssuedIn(log[i], u, t) && forall j :: i < j < |log| ==> !EndsSession(log[j], u);
        assert IssuedIn(longer[i], u, t);
      }
      if IsCurrent(longer, u, t) {
        var i :| 0 <= i < |longer| && IssuedIn(longer[i], u, t)
                 && forall j :: i < j < |longer| ==> !EndsSession(longer[j], u);
        assert IssuedIn(log[i], u, t);
        forall j | i < j < |log| ensures !EndsSession(log[j], u) {
          assert longer[j] == log[j];
        }
      }
    }
  }

  lemma StepShape(s: Store, e: Event) returns (entry: Entry)
    ensures Apply(s, e).log == s.log + [entry] && entry.event == e
    ensures Apply(s, e).users.Keys == s.users.Keys && s.next <= Apply(s, e).next
  {
    entry := Apply(s, e).log[|s.log|];
  }

  /** What a step does to a user's stored hash can be read off the entry it appends. */
  lemma StepEffect(s: Store, e: Event, entry: Entry, u: UserId, t: nat)
    requires Apply(s, e).log == s.log + [entry]
    ensures Stored(Apply(s, e), u, t) <==>
            u in s.users && if EndsSession(entry, u) then IssuedIn(entry, u, t) else Stored(s, u, t)
    ensures IssuedIn(entry, u, t) ==> t == s.next
  {
    assert entry == Apply(s, e).log[|s.log|];
  }

  /** Over any run, the stored hash is that of the token the history says is current. */
  lemma {:induction false} StoredIffCurrent(s: Store, events: seq<Event>, u: UserId, t: nat)
    requires Starts(s)
    ensures Stored(Run(s, events), u, t) <==> u in s.users && IsCurrent(Run(s, events).log, u, t)
    ensures Run(s, events).users.Keys == s.users.Keys
  {
    if events != [] {
      hide Apply, IsCurrent, EndsSession, IssuedIn, Stored;
      var before, e := Run(s, events[..|events| - 1]), events[|events| - 1];
      StoredIffCurrent(s, events[..|events| - 1], u, t);
      var entry := StepShape(before, e);
      StepEffect(before, e, entry, u, t);
      CurrentAfter(before.log, entry, u, t);
      assert u in before.users <==> u in before.users.Keys;
    }
  }

  /** A token is accepted exactly when its user is active and it is the user's current one; so never two at once. */
  lemma AcceptedIffCurrent(s: Store, events: seq<Event>, u: UserId, t: nat)
    requires Starts(s)
    ensures var r := Run(s, events);
      Accepted(r, u, t) <==> u in r.users && r.users[u].isActive && IsCurrent(r.log, u, t)
  {
    StoredIffCurrent(s, events, u, t);
  }

  lemma AtMostOneAccepted(s: Store, events: seq<Event>, u: UserId, a: nat, b: nat)
    requires Starts(s) && IsCurrent(Run(s, events).log, u, a) && IsCurrent(Run(s, events).log, u, b) && u in s.users
    ensures a == b
  {
    StoredIffCurrent(s, events, u, a);
    StoredIffCurrent(s, events, u, b);
  }

  /** A sign-in, and a rotation by an accepted token, answer with a token that, for an active user, is accepted from
      then on, and is the only one. */
  lemma HandedOutIsAccepted(s: Store, u: UserId, t: nat, other: nat)
    requires u in s.users
    ensures var r := Apply(s, Issue(u));
      && r.log == s.log + [Entry(Issue(u), Issued(s.next))]
      && (Accepted(r, u, other) <==> s.users[u].isActive && other == s.next)
    ensures Accepted(s, u, t) ==>
              var r := Apply(s, Rotate(u, t));
              && r.log == s.log + [Entry(Rotate(u, t), Issued(s.next))]
              && (Accepted(r, u, other) <==> other == s.next)
  {
  }

  /** Which tokens a rotation takes, which error it answers otherwise, and that only a wrong secret changes the
      account. */
  lemma RotationAnswers(s: Store, u: UserId, raw: nat)
    ensures var r := Apply(s, Rotate(u, raw));
      var reply := r.log[|s.log|].reply;
      && |r.log| == |s.log| + 1
      && (reply == Failed(USER_NOT_FOUND_OR_INACTIVE) <==> u !in s.users || !s.users[u].isActive)
      && (reply == Failed(NO_ACTIVE_SESSION) <==>
            u in s.users && s.users[u].isActive && s.users[u].refreshTokenHash == None)
      && (reply == Failed(REFRESH_TOKEN_INVALID) <==>
            u in s.users && s.users[u].isActive
            && exists kept :: s.users[u].refreshTokenHash == Some(Hash(kept)) && kept != raw)
      && (reply.Issued? <==> u in s.users && s.users[u] == Account(true, Some(Hash(raw))))
      && (reply.Issued? || reply.Failed?)
      && (r.users != s.users ==> reply.Issued? || reply == Failed(REFRESH_TOKEN_INVALID))
  {
    if u in s.users && s.users[u].refreshTokenHash.Some? {
      assert s.users[u].refreshTokenHash == Some(Hash(s.users[u].refreshTokenHash.value.secret));
    }
  }

  // ---- Nothing old comes back --------------------------------------------------------------------

  lemma {:induction false} SecretsGrow(s: Store, events: seq<Event>)
    ensures s.next <= Run(s, events).next
    ensures s.log <= Run(s, events).log && |Run(s, events).log| == |s.log| + |events|
  {
    if events != [] {
      hide Apply;
      SecretsGrow(s, events[..|events| - 1]);
      var _ := StepShape(Run(s, events[..|events| - 1]), events[|events| - 1]);
    }
  }

  /** A secret already handed out that is not the stored one is never accepted for that user again. */
  lemma {:induction false} SupersededIsRefused(s: Store, events: seq<Event>, u: UserId, t: nat)
    requires t < s.next && !Stored(s, u, t)
    ensures !Stored(Run(s, events), u, t) && !Accepted(Run(s, events), u, t)
  {
    if events != [] {
      hide Apply, EndsSession, IssuedIn;
      SupersededIsRefused(s, events[..|events| - 1], u, t);
      SecretsGrow(s, events[..|events| - 1]);
      var entry := StepShape(Run(s, events[..|events| - 1]), events[|events| - 1]);
      StepEffect(Run(s, events[..|events| - 1]), events[|events| - 1], entry, u, t);
    }
  }

  /** A successful rotation retires the token it was given, for good. */
  lemma RotatedOnce(s: Store, u: UserId, t: nat, events: seq<Event>)
    requires t < s.next && Accepted(s, u, t)
    ensures !Accepted(Run(Apply(s, Rotate(u, t)), events), u, t)
  {
    SupersededIsRefused(Apply(s, Rotate(u, t)), events, u, t);
  }

  lemma {:induction false} NoSessionUntilIssued(s: Store, events: seq<Event>, u: UserId, t: nat)
    requires (u in s.users ==> s.users[u].refreshTokenHash == None) && Issue(u) !in events
    ensures var r := Run(s, events);
      (u in r.users ==> r.users[u].refreshTokenHash == None) && !Accepted(r, u, t)
  {
    if events != [] {
      NoSessionUntilIssued(s, events[..|events| - 1], u, t);
      assert events[|events| - 1] in events;
    }
  }

  /** Presenting any other secret ends the session: until the next sign-in every token is refused, the newest too. */
  lemma ReplayEndsSession(s: Store, u: UserId, wrong: nat, events: seq<Event>, t: nat)
    requires RotateError(s, u, wrong) == Some(REFRESH_TOKEN_INVALID) && Issue(u) !in events
    ensures !Accepted(Run(Apply(s, Rotate(u, wrong)), events), u, t)
  {
    NoSessionUntilIssued(Apply(s, Rotate(u, wrong)), events, u, t);
  }

  /** So do a revocation and a password reset. */
  lemma ResetEndsSession(s: Store, link: nat, events: seq<Event>, t: nat)
    requires link in s.links && s.links[link] in s.users && Issue(s.links[link]) !in events
    ensures !Accepted(Run(Apply(s, ResetPassword(link)), events), s.links[link], t)
    ensures !Accepted(Run(Apply(s, Revoke(s.links[link])), events), s.links[link], t)
  {
    NoSessionUntilIssued(Apply(s, ResetPassword(link)), events, s.links[link], t);
    NoSessionUntilIssued(Apply(s, Revoke(s.links[link])), events, s.links[link], t);
  }

  /** A reset link sent to an active user works: it ends the user's session, nobody else's, and is used up. */
  lemma LinkWorks(s: Store, u: UserId, t: nat)
    requires u in s.users && s.users[u].isActive
    ensures var sent := Apply(s, ForgotPassword(u));
      var done := Apply(sent, ResetPassword(s.next));
      && sent.log == s.log + [Entry(ForgotPassword(u), Linked(s.next))] && sent.users == s.users
      && done.log == sent.log + [Entry(ResetPassword(s.next), Reset(u))]
      && done.users == s.users[u := Account(true, None)] && s.next !in done.links && !Accepted(done, u, t)
  {
  }

  lemma StepKeepsDeadLink(s: Store, e: Event, link: nat)
    requires link < s.next && link !in s.links
    ensures link !in Apply(s, e).links && link < Apply(s, e).next
  {
  }

  /** A reset link works once: used or expired, it never resets anything again. */
  lemma {:induction false} LinkIsSingleUse(s: Store, link: nat, events: seq<Event>)
    requires link < s.next && link !in s.links
    ensures link !in Run(s, events).links && link < Run(s, events).next
    ensures Apply(Run(s, events), ResetPassword(link)).users == Run(s, events).users
  {
    if events != [] {
      LinkIsSingleUse(s, link, events[..|events| - 1]);
      StepKeepsDeadLink(Run(s, events[..|events| - 1]), events[|events| - 1], link);
    }
    hide Run;
  }
}

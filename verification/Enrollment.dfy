/**
 internal/enrollment/accept.go: what enrollment answers, over whole runs. A proof
 carries the lease of the first acceptance; a consumed invite is answered for one
 client only, and for the key and token that the client's rotations last gave it.
 */
module Enrollment {
  import opened KeyLines
  import opened Grants
  import opened GrantRuns

  //////////////////////////////////////////////////////////////////////////////
  // Leases
  //////////////////////////////////////////////////////////////////////////////

  /** A proof carries the lease of the stored record, which runs from the first acceptance. */
  lemma ProofCarriesLease(env: Env, s: State, q: Enroll, now: int)
    requires Kept(s)
    ensures var a := AcceptPlan(env, s, q, now);
            a.reply.Proof? ==>
              && a.plan.ok && a.reply.key == q.key && a.reply.clientID == env.idOf(q.invite, q.key)
              && (a.reply.clientID in s.clients ==> a.reply.lease == LeaseOf(s.clients[a.reply.clientID]))
              && a.reply.lease.notAfter == At(a.reply.lease.acceptedAt + a.reply.lease.duration)
              && a.reply.clientID in Final(s, a.plan).clients
              && LeaseOf(Final(s, a.plan).clients[a.reply.clientID]) == a.reply.lease
              && Final(s, a.plan).clients[a.reply.clientID].key == q.key
              && Final(s, a.plan).clients[a.reply.clientID].status.Active?
  {
    hide Appended, Entry, Kept, KeyAccepted;
    var a := AcceptPlan(env, s, q, now);
    if a.reply.Proof? {
      var i := s.invites[q.invite];
      KeptInvite(s, q.invite);
      var id := env.idOf(i.id, q.key);
      if id in s.clients {
        KeptClient(s, id);
      }
    }
  }

  /** The state answers the request with this proof: an active client, a consumed invite and an authorized key. */
  ghost predicate EnrolledAs(env: Env, s: State, q: Enroll, reply: Reply)
    requires reply.Proof?
  {
    && reply.key == q.key && reply.clientID == env.idOf(q.invite, q.key) && reply.clientID in s.clients
    && s.clients[reply.clientID].status.Active? && s.clients[reply.clientID].key == q.key
    && LeaseOf(s.clients[reply.clientID]) == reply.lease
    && q.invite in s.invites && s.invites[q.invite].status.Consumed? && s.invites[q.invite].clientID == reply.clientID
    && (Notation(env) ==> Count(s.lines, BlobOf(q.key)) >= 1)
  }

  lemma ProofMeans(env: Env, s: State, q: Enroll, now: int)
    requires Kept(s) && AcceptPlan(env, s, q, now).reply.Proof?
    ensures var a := AcceptPlan(env, s, q, now);
            EnrolledAs(env, Final(s, a.plan), q, a.reply)
  {
    hide Appended, Entry, Kept, KeyAccepted, AcceptPlan, Notation, Count, BlobOf;
    ProofCarriesLease(env, s, q, now);
    ProofConsumes(env, s, q, now);
    var a := AcceptPlan(env, s, q, now);
    if Notation(env) {
      ProofAuthorizes(env, s, q, now);
    }
  }

  lemma ProofConsumes(env: Env, s: State, q: Enroll, now: int)
    requires Kept(s) && AcceptPlan(env, s, q, now).reply.Proof?
    ensures var a := AcceptPlan(env, s, q, now);
            var t := Final(s, a.plan);
            && q.invite in t.invites && t.invites[q.invite].status.Consumed?
            && t.invites[q.invite].clientID == a.reply.clientID
            && KeyAccepted(q.key)
            && a.reply.lease.notAfter.At?
            && t.lines == Appended(s.lines, Entry(env, q.key, a.reply.lease.notAfter.time))
  {
    hide Appended, Entry, Kept, KeyAccepted;
    KeptInvite(s, q.invite);
  }

  lemma ProofAuthorizes(env: Env, s: State, q: Enroll, now: int)
    requires Kept(s) && Notation(env) && AcceptPlan(env, s, q, now).reply.Proof?
    ensures Count(Final(s, AcceptPlan(env, s, q, now).plan).lines, BlobOf(q.key)) >= 1
  {
    hide Appended, Entry, Kept, KeyAccepted, AcceptPlan, Count, BlobOf, Blankless;
    ProofConsumes(env, s, q, now);
    var until := AcceptPlan(env, s, q, now).reply.lease.notAfter.time;
    AcceptedBlob(q.key);
    EntryBlob(env, q.key, until);
    AppendedCount(s.lines, Entry(env, q.key, until));
  }

  /** A client once stored is answered with the same lease for ever, whatever happens in between. */
  lemma LeaseNeverExtended(env: Env, s: State, id: string, run: seq<Event>, q: Enroll, now: int)
    requires Kept(s) && id in s.clients && ValidRun(env, s, run)
    ensures var a := AcceptPlan(env, After(env, s, run), q, now);
            a.reply.Proof? && a.reply.clientID == id ==> a.reply.lease == LeaseOf(s.clients[id])
  {
    hide AcceptPlan, Kept, PlanOf;
    OutlivesItself(s);
    RunOutlives(env, s, s, run);
    ProofCarriesLease(env, After(env, s, run), q, now);
  }

  //////////////////////////////////////////////////////////////////////////////
  // The key and token of a client
  //////////////////////////////////////////////////////////////////////////////

  /** A key and the hash of a management token. */
  datatype Held = Held(key: string, token: string)

  function HeldBy(c: Client): (h: Held)
  {
    Held(c.key, c.token)
  }

  /** The event is a rotation of the client that is not already recorded, and all its writes happen. */
  predicate Rotates(env: Env, s: State, e: Event, id: string)
    requires id in s.clients
  {
    && e.op.Rotate? && e.op.manage.id == id && !RotationDone(env, s.clients[id], e.op.manage)
    && RotatePlan(env, s, e.op.manage, e.op.now).ok && e.writes == |RotatePlan(env, s, e.op.manage, e.op.now).writes|
  }

  /** What the client holds after the event, by the event alone. */
  function HeldNext(env: Env, s: State, e: Event, id: string, h: Held): (r: Held)
    requires id in s.clients
  {
    if Rotates(env, s, e, id) then Held(e.op.manage.newKey, env.hash(e.op.manage.nextToken)) else h
  }

  /** The key and token of the last rotation of the client in the run; h if there is none. */
  function LastHeld(env: Env, s: State, run: seq<Event>, id: string, h: Held): (r: Held)
    requires ValidRun(env, s, run)
    decreases run
  {
    if run == [] || id !in s.clients then h
    else
      var p := PlanOf(env, s, run[0].op);
      LastHeld(env, AtWrite(s, p, run[0].writes), run[1..], id, HeldNext(env, s, run[0], id, h))
  }

  /** The record holds h; the token of a terminal record is burned. */
  predicate Holds(c: Client, h: Held)
  {
    c.key == h.key && (Terminal(c.status) || c.token == h.token)
  }

  lemma RotateHolds(env: Env, s: State, e: Event)
    requires Kept(s) && e.op.Rotate? && e.op.manage.id in s.clients && e.writes <= |PlanOf(env, s, e.op).writes|
    ensures var t := AtWrite(s, PlanOf(env, s, e.op), e.writes);
            var id := e.op.manage.id;
            id in t.clients && Holds(t.clients[id], HeldNext(env, s, e, id, HeldBy(s.clients[id])))
  {
    hide Replaced, Entry, TokenMatches, KeyAccepted, Kept;
    KeptClient(s, e.op.manage.id);
  }

  lemma AcceptHolds(env: Env, s: State, q: Enroll, now: int, k: nat)
    requires Kept(s) && env.idOf(q.invite, q.key) in s.clients && k <= |AcceptPlan(env, s, q, now).plan.writes|
    ensures var t := AtWrite(s, AcceptPlan(env, s, q, now).plan, k);
            var id := env.idOf(q.invite, q.key);
            id in t.clients && HeldBy(t.clients[id]) == HeldBy(s.clients[id])
  {
    hide Appended, Entry, SameEnrollment, KeyAccepted, Kept;
    KeptClient(s, env.idOf(q.invite, q.key));
    if q.invite in s.invites {
      KeptInvite(s, q.invite);
    }
  }

  lemma RevokeHolds(env: Env, s: State, q: Manage, now: int, k: nat)
    requires Kept(s) && q.id in s.clients && k <= |RevokePlan(env, s, q, now).writes|
    ensures var t := AtWrite(s, RevokePlan(env, s, q, now), k);
            q.id in t.clients && Holds(t.clients[q.id], HeldBy(s.clients[q.id]))
  {
    hide Removed, TokenMatches, Kept;
    KeptClient(s, q.id);
  }

  lemma HostRevokeHolds(env: Env, s: State, id: string, now: int, k: nat)
    requires Kept(s) && id in s.clients && k <= |HostRevokePlan(env, s, id, now).writes|
    ensures var t := AtWrite(s, HostRevokePlan(env, s, id, now), k);
            id in t.clients && Holds(t.clients[id], HeldBy(s.clients[id]))
  {
    hide Removed, Kept;
    KeptClient(s, id);
  }

  lemma CompleteHolds(env: Env, s: State, id: string, now: int, k: nat)
    requires Kept(s) && id in s.clients && k <= |CompletePlan(env, s, id, now).writes|
    ensures var t := AtWrite(s, CompletePlan(env, s, id, now), k);
            id in t.clients && Holds(t.clients[id], HeldBy(s.clients[id]))
  {
    hide Removed, Kept;
    KeptClient(s, id);
  }

  lemma ExpireHolds(env: Env, s: State, id: string, now: int, k: nat)
    requires Kept(s) && id in s.clients && k <= |ExpirePlan(env, s, id, now).writes|
    ensures var t := AtWrite(s, ExpirePlan(env, s, id, now), k);
            id in t.clients && Holds(t.clients[id], HeldBy(s.clients[id]))
  {
    hide Removed, Absent, ExpiryAllowed, Kept;
    KeptClient(s, id);
  }

  /** Only a rotation of the client changes what it holds. */
  lemma EventHolds(env: Env, s: State, e: Event, id: string)
    requires Kept(s) && id in s.clients && e.writes <= |PlanOf(env, s, e.op).writes|
    ensures var t := AtWrite(s, PlanOf(env, s, e.op), e.writes);
            id in t.clients && Holds(t.clients[id], HeldNext(env, s, e, id, HeldBy(s.clients[id])))
  {
    hide Kept, AcceptPlan, RevokePlan, HostRevokePlan, CompletePlan, RotatePlan, ExpirePlan, AtWrite;
    if Target(env, e.op) != OfClient(id) {
      OnlyTarget(env, s, e.op, e.writes, id);
    } else {
      match e.op
      case Accept(q, now) => AcceptHolds(env, s, q, now, e.writes);
      case Revoke(q, now) => RevokeHolds(env, s, q, now, e.writes);
      case HostRevoke(_, now) => HostRevokeHolds(env, s, id, now, e.writes);
      case Complete(_, now) => CompleteHolds(env, s, id, now, e.writes);
      case Expire(_, now) => ExpireHolds(env, s, id, now, e.writes);
      case Rotate(_, _) => RotateHolds(env, s, e);
    }
  }

  /** A terminal record stays one, with its key. */
  lemma StillHolds(env: Env, s: State, e: Event, id: string, h: Held)
    requires Kept(s) && id in s.clients && e.writes <= |PlanOf(env, s, e.op).writes| && Holds(s.clients[id], h)
    ensures var t := AtWrite(s, PlanOf(env, s, e.op), e.writes);
            Kept(t) && id in t.clients && Holds(t.clients[id], HeldNext(env, s, e, id, h))
  {
    hide Kept, PlanOf, RotatePlan, AtWrite, Steps;
    EventHolds(env, s, e, id);
    OpSteps(env, s, e.op);
    OutlivesItself(s);
    PlanOutlives(s, s, PlanOf(env, s, e.op), e.writes);
  }

  /** Over every run: a client holds the key and token of its last completed rotation. */
  lemma {:induction false} RunHolds(env: Env, s: State, run: seq<Event>, id: string, h: Held)
    requires Kept(s) && id in s.clients && Holds(s.clients[id], h) && ValidRun(env, s, run)
    ensures var t := After(env, s, run);
            id in t.clients && Holds(t.clients[id], LastHeld(env, s, run, id, h))
    decreases run
  {
    hide Kept, Holds, PlanOf, AtWrite, HeldNext;
    if run != [] {
      StillHolds(env, s, run[0], id, h);
      RunHolds(env, AtWrite(s, PlanOf(env, s, run[0].op), run[0].writes), run[1..], id,
               HeldNext(env, s, run[0], id, h));
    }
  }

  //////////////////////////////////////////////////////////////////////////////
  // A consumed invite
  //////////////////////////////////////////////////////////////////////////////

  /** What a consumed invite is answered for, in one state. */
  lemma ResumeIff(env: Env, s: State, q: Enroll, now: int)
    requires Kept(s) && q.invite in s.invites && s.invites[q.invite].status.Consumed?
    ensures var i := s.invites[q.invite];
            var a := AcceptPlan(env, s, q, now);
            && i.clientID in s.clients
            && var c := s.clients[i.clientID];
               && (a.reply.Proof? <==>
                     && q.wellFormed && KeyAccepted(q.key) && env.idOf(q.invite, q.key) == i.clientID
                     && q.terms.published == i.terms.published && q.terms.published == c.terms.published
                     && q.tunnel == c.tunnel && c.status.Active? && HeldBy(c) == Held(q.key, env.hash(q.token)))
               && (a.reply.Proof? ==> a.reply == Proof(i.clientID, q.key, LeaseOf(c)))
               && Final(s, a.plan).clients == s.clients && Final(s, a.plan).invites == s.invites
  {
    hide Appended, Entry, KeyAccepted, Kept;
    KeptInvite(s, q.invite);
    KeptClient(s, s.invites[q.invite].clientID);
  }

  /**
   A consumed invite, over every run. A later proof is for the client it was
   consumed for, with that client's lease, and it is given exactly to requests with
   the key and token of the client's last rotation since: the key and token of the
   client in s if there was none.
   */
  lemma ConsumedAnswersOne(env: Env, s: State, run: seq<Event>, q: Enroll, now: int)
    requires Kept(s) && q.invite in s.invites && s.invites[q.invite].status.Consumed? && ValidRun(env, s, run)
    ensures var i := s.invites[q.invite];
            var t := After(env, s, run);
            var a := AcceptPlan(env, t, q, now);
            && i.clientID in s.clients && i.clientID in t.clients && q.invite in t.invites
            && var c := s.clients[i.clientID];
               && (a.reply.Proof? ==> a.reply == Proof(i.clientID, q.key, LeaseOf(c)))
               && (a.reply.Proof? <==>
                     && t.invites[q.invite].status.Consumed? && t.clients[i.clientID].status.Active?
                     && q.wellFormed && KeyAccepted(q.key) && env.idOf(q.invite, q.key) == i.clientID
                     && q.terms.published == i.terms.published && q.terms.published == c.terms.published
                     && q.tunnel == c.tunnel
                     && Held(q.key, env.hash(q.token)) == LastHeld(env, s, run, i.clientID, HeldBy(c)))
  {
    hide Kept, AcceptPlan, KeyAccepted, ValidRun, After, LastHeld, PlanOf;
    KeptInvite(s, q.invite);
    var id := s.invites[q.invite].clientID;
    OutlivesItself(s);
    RunOutlives(env, s, s, run);
    RunHolds(env, s, run, id, HeldBy(s.clients[id]));
    var t := After(env, s, run);
    if t.invites[q.invite].status.Consumed? {
      ResumeIff(env, t, q, now);
    } else {
      RevokedRefuses(env, t, q, now);
    }
  }

  lemma RevokedRefuses(env: Env, s: State, q: Enroll, now: int)
    requires q.invite in s.invites && s.invites[q.invite].status.InviteRevoked?
    ensures AcceptPlan(env, s, q, now).reply.Refused?
  {
  }

  /** Where client ids determine keys, every proof that a consumed invite is ever given has the same key. */
  lemma ConsumedOneKey(env: Env, s: State, run: seq<Event>, q: Enroll, q': Enroll, now: int, now': int)
    requires Kept(s) && q.invite in s.invites && s.invites[q.invite].status.Consumed? && ValidRun(env, s, run)
    requires forall k, k' :: env.idOf(q.invite, k) == env.idOf(q.invite, k') ==> k == k'
    requires q'.invite == q.invite
    requires AcceptPlan(env, s, q, now).reply.Proof? && AcceptPlan(env, After(env, s, run), q', now').reply.Proof?
    ensures q'.key == q.key
  {
    hide Kept, AcceptPlan, KeyAccepted, PlanOf;
    ResumeIff(env, s, q, now);
    ConsumedAnswersOne(env, s, run, q', now');
  }

  //////////////////////////////////////////////////////////////////////////////
  // Who is answered with a proof
  //////////////////////////////////////////////////////////////////////////////

  /** The request has the secret, the name and the terms of an issued invite whose grant has a duration. */
  predicate HasInvite(i: Invite, q: Enroll)
  {
    && q.wellFormed && KeyAccepted(q.key) && i.status == Issued
    && q.nonce == i.nonce && q.clientName == i.clientName && q.terms == i.terms
  }

  /** A record of an earlier, unfinished attempt of the same enrollment. */
  predicate SameAttempt(env: Env, c: Client, i: Invite, q: Enroll)
  {
    && (c.status == EnrollmentPending || c.status == Active)
    && c.invite == q.invite && c.tunnel == q.tunnel && c.key == q.key && c.token == env.hash(q.token)
    && c.terms.principal == i.terms.principal && c.terms.profile == i.terms.profile
    && c.terms.published == i.terms.published && c.terms.target == i.terms.target && c.duration == i.duration
  }

  predicate MayEnroll(env: Env, s: State, q: Enroll, now: int)
  {
    && q.invite in s.invites
    && var i := s.invites[q.invite];
       && HasInvite(i, q) && now < i.expiresAt && i.duration > 0
       && var id := env.idOf(q.invite, q.key);
          id in s.clients ==> SameAttempt(env, s.clients[id], i, q)
  }

  /** The record that an enrollment at time now leaves. */
  function EnrolledRecord(env: Env, s: State, i: Invite, q: Enroll, now: int): (c: Client)
  {
    var id := env.idOf(q.invite, q.key);
    if id in s.clients then s.clients[id].(status := Active)
    else Client(id := id, tunnel := q.tunnel, invite := q.invite, key := q.key, keyDigest := env.digest(q.key),
                token := env.hash(q.token), terms := q.terms, status := Active, acceptedAt := now,
                notAfter := At(now + i.duration), duration := i.duration, revokedAt := NoStamp, expiredAt := NoStamp,
                generation := At(now), prevKey := "", prevToken := "", pendingKey := "", pendingToken := "",
                opStarted := NoStamp)
  }

  /** An issued invite is answered with a proof exactly for a request that may enroll, and this is what it leaves. */
  lemma IssuedIff(env: Env, s: State, q: Enroll, now: int)
    requires Kept(s) && q.invite in s.invites && s.invites[q.invite].status.Issued?
    ensures var i, a := s.invites[q.invite], AcceptPlan(env, s, q, now);
            && (a.reply.Proof? <==> MayEnroll(env, s, q, now)) && (a.plan.ok <==> a.reply.Proof?)
            && |a.plan.writes| <= 4
            && (a.reply.Proof? ==>
                  var c := EnrolledRecord(env, s, i, q, now);
                  && c.notAfter.At? && a.reply == Proof(c.id, q.key, Lease(c.acceptedAt, c.notAfter, c.duration))
                  && Final(s, a.plan) == State(s.clients[c.id := c],
                                               s.invites[q.invite := i.(status := Consumed, consumedAt := At(now),
                                                                        clientID := c.id)],
                                               Appended(s.lines, Entry(env, q.key, c.notAfter.time))))
            && (a.reply.Refused? ==>
                  Final(s, a.plan) == if HasInvite(i, q) && i.expiresAt <= now
                                      then s.(invites := s.invites[q.invite := i.(status := InviteExpired)]) else s)
  {
    hide Appended, Entry, KeyAccepted, Kept, Sound;
    KeptInvite(s, q.invite);
    var i := s.invites[q.invite];
    var id := env.idOf(q.invite, q.key);
    if id in s.clients {
      KeptClient(s, id);
      StoredLease(s.clients[id]);
      assert s.clients[id := s.clients[id]] == s.clients;
    }
  }

  lemma StoredLease(c: Client)
    requires Sound(c)
    ensures c.notAfter.At?
  {
  }

  /** An exact retry after the invite was consumed. */
  predicate MayResume(env: Env, s: State, q: Enroll)
  {
    && q.invite in s.invites && s.invites[q.invite].status == Consumed
    && q.wellFormed && KeyAccepted(q.key) && env.idOf(q.invite, q.key) == s.invites[q.invite].clientID
    && s.invites[q.invite].clientID in s.clients
    && var c := s.clients[s.invites[q.invite].clientID];
       && c.status == Active && c.key == q.key && c.token == env.hash(q.token) && c.tunnel == q.tunnel
       && q.terms.published == s.invites[q.invite].terms.published && q.terms.published == c.terms.published
  }

  /** A proof exactly for a request that may enroll or resume; no other one touches a client or the file. */
  lemma AcceptIff(env: Env, s: State, q: Enroll, now: int)
    requires Kept(s)
    ensures var a := AcceptPlan(env, s, q, now);
            && (a.reply.Proof? <==> MayEnroll(env, s, q, now) || MayResume(env, s, q))
            && (a.plan.ok <==> a.reply.Proof?) && |a.plan.writes| <= 4
            && (a.reply.Refused? ==> forall k :: 0 <= k <= |a.plan.writes| ==>
                  AtWrite(s, a.plan, k).clients == s.clients && AtWrite(s, a.plan, k).lines == s.lines)
  {
    hide Appended, Entry, KeyAccepted, Kept, AcceptPlan;
    if q.invite !in s.invites {
      NoInvite(env, s, q, now);
    } else if s.invites[q.invite].status.Issued? {
      IssuedIff(env, s, q, now);
      if AcceptPlan(env, s, q, now).reply.Refused? {
        RefusedWrites(env, s, q, now);
      }
    } else if s.invites[q.invite].status.Consumed? {
      ResumeIff(env, s, q, now);
      ResumeWrites(env, s, q, now);
    } else {
      NoInvite(env, s, q, now);
    }
  }

  lemma NoInvite(env: Env, s: State, q: Enroll, now: int)
    requires q.invite in s.invites ==> !s.invites[q.invite].status.Issued? && !s.invites[q.invite].status.Consumed?
    ensures AcceptPlan(env, s, q, now) == REFUSED
  {
  }

  lemma RefusedWrites(env: Env, s: State, q: Enroll, now: int)
    requires Kept(s) && q.invite in s.invites && s.invites[q.invite].status.Issued?
    requires AcceptPlan(env, s, q, now).reply.Refused?
    ensures |AcceptPlan(env, s, q, now).plan.writes| <= 1
    ensures var p := AcceptPlan(env, s, q, now).plan; Final(s, p).clients == s.clients && Final(s, p).lines == s.lines
  {
    hide Appended, Entry, KeyAccepted, Kept, Sound;
    KeptInvite(s, q.invite);
    var id := env.idOf(q.invite, q.key);
    if id in s.clients {
      KeptClient(s, id);
      StoredLease(s.clients[id]);
    }
  }

  lemma ResumeWrites(env: Env, s: State, q: Enroll, now: int)
    requires q.invite in s.invites && s.invites[q.invite].status.Consumed?
    ensures var a := AcceptPlan(env, s, q, now);
            (a.plan.ok <==> a.reply.Proof?) && |a.plan.writes| <= 1 && (a.reply.Refused? ==> a.plan.writes == [])
  {
    hide Appended, Entry, KeyAccepted;
  }

  /** At every cut: authorized only once stored, active only once authorized, consumed only once active. */
  lemma EnrollOrder(env: Env, s: State, q: Enroll, now: int, k: nat)
    requires Kept(s) && q.invite in s.invites && s.invites[q.invite].status.Issued?
    requires k <= |AcceptPlan(env, s, q, now).plan.writes|
    ensures var t, id := AtWrite(s, AcceptPlan(env, s, q, now).plan, k), env.idOf(q.invite, q.key);
            && (t.lines != s.lines ==> id in t.clients && t.clients[id].key == q.key)
            && (id in t.clients && t.clients[id].status.Active?
                && !(id in s.clients && s.clients[id].status.Active?) ==>
                  && t.clients[id].notAfter.At?
                  && t.lines == Appended(s.lines, Entry(env, q.key, t.clients[id].notAfter.time)))
            && (q.invite in t.invites && t.invites[q.invite].status.Consumed? ==>
                  id in t.clients && t.clients[id].status.Active?)
  {
    hide Appended, Entry, KeyAccepted, Kept, Sound;
    KeptInvite(s, q.invite);
    var id := env.idOf(q.invite, q.key);
    if id in s.clients {
      KeptClient(s, id);
      StoredLease(s.clients[id]);
    }
  }

  //////////////////////////////////////////////////////////////////////////////
  // A run after which the consumed token is refused
  //////////////////////////////////////////////////////////////////////////////

  /** The rotation of the enrolled client to its own key, with the next token. */
  function OwnKey(env: Env, i: Invite, q: Enroll, next: string): (m: Manage)
  {
    Manage(env.idOf(i.id, q.key), q.token, q.tunnel, q.key, next, true)
  }

  lemma OwnKeyRotated(env: Env, i: Invite, q: Enroll, now: int, next: string, at: int)
    requires Matches(i, q, now) && env.hash(q.token) != "" && env.hash(next) != env.hash(q.token)
    requires at < now + i.duration
    ensures var s := EnrolledState(env, i, q, now);
            var p := RotatePlan(env, s, OwnKey(env, i, q, next), at);
            && p.ok
            && var t := Final(s, p);
               && t.invites == s.invites && t.clients.Keys == {env.idOf(i.id, q.key)}
               && var c := t.clients[env.idOf(i.id, q.key)];
                  && c.status.Active? && HeldBy(c) == Held(q.key, env.hash(next)) && c.tunnel == q.tunnel
                  && c.terms == i.terms
  {
    hide Replaced, Entry, KeyAccepted;
  }

  /**
   A rotation may keep the key and change the token. The invite that was consumed
   with the first token is then answered for the next one, and no longer for the first.
   */
  lemma TokenReplaced(env: Env, i: Invite, q: Enroll, now: int, next: string, at: int, later: int)
    requires Matches(i, q, now) && env.hash(q.token) != "" && env.hash(next) != env.hash(q.token)
    requires at < now + i.duration
    ensures var s := EnrolledState(env, i, q, now);
            var t := Final(s, RotatePlan(env, s, OwnKey(env, i, q, next), at));
            && Reachable(env, s) && Reachable(env, t)
            && AcceptPlan(env, s, q, later).reply.Proof?
            && AcceptPlan(env, t, q, later).reply.Refused?
            && AcceptPlan(env, t, q.(token := next), later).reply.Proof?
  {
    hide Reachable, RotatePlan, AcceptPlan, KeyAccepted, Kept;
    Enrolled(env, i, q, now);
    OwnKeyRotated(env, i, q, now, next, at);
    var s := EnrolledState(env, i, q, now);
    var m := OwnKey(env, i, q, next);
    var p := RotatePlan(env, s, m, at);
    ReachableNext(env, s, Rotate(m, at), |p.writes|);
    var t := Final(s, p);
    ReachableKept(env, t);
    ResumeIff(env, s, q, later);
    ResumeIff(env, t, q, later);
    ResumeIff(env, t, q.(token := next), later);
  }
}

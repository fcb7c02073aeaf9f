/** What every durable write of every grant operation keeps, over all runs with crashes. */
module GrantRuns {
  import opened KeyLines
  import opened Grants

  //////////////////////////////////////////////////////////////////////////////
  // One write
  //////////////////////////////////////////////////////////////////////////////

  /** The transitions that occur: those of CanTransition, and one more. */
  predicate Occurs(from: Status, to: Status)
  {
    CanTransition(from, to) || (from.ExpirationPending? && to.Revoked?)
  }

  /** A client record before and after a write. */
  predicate ClientStep(c: Client, d: Client)
  {
    && d.id == c.id && d.invite == c.invite && d.tunnel == c.tunnel && d.terms == c.terms
    && LeaseOf(d) == LeaseOf(c)
    && Occurs(c.status, d.status)
    && (Terminal(c.status) ==> d == c)
  }

  /** An invite record before and after a write: once consumed it keeps its client. */
  predicate InviteStep(i: Invite, j: Invite)
  {
    && j.id == i.id && j.terms == i.terms && j.duration == i.duration && j.expiresAt == i.expiresAt
    && (j.clientID != i.clientID ==> i.status.Issued? && j.status.Consumed?)
    && (i.status.Consumed? || i.status.InviteRevoked? ==> j.status.Consumed? || j.status.InviteRevoked?)
  }

  /** A lease runs from acceptance for the granted duration. */
  predicate SoundLease(c: Client)
  {
    c.notAfter == At(c.acceptedAt + c.duration) && c.duration > 0
  }

  /** A record with a sound lease whose keys are key lines. */
  predicate Sound(c: Client)
  {
    SoundLease(c) && KeyAccepted(c.key) && (c.pendingKey != "" ==> KeyAccepted(c.pendingKey))
  }

  predicate StateStep(s: State, t: State)
  {
    && (forall id :: id in s.clients ==> id in t.clients && ClientStep(s.clients[id], t.clients[id]))
    && (forall id :: id in s.invites ==> id in t.invites && InviteStep(s.invites[id], t.invites[id]))
    && (forall id :: id in t.clients && id !in s.clients ==> t.clients[id].status.EnrollmentPending?)
  }

  /** A consumed invite names a stored client that was enrolled with it. */
  predicate NamesClient(s: State, i: Invite)
  {
    i.status.Consumed? ==> i.clientID in s.clients && s.clients[i.clientID].invite == i.id
  }

  /** Sound records under their own ids; consumed invites with their clients. */
  predicate Kept(s: State)
  {
    && (forall id :: id in s.clients ==> s.clients[id].id == id && Sound(s.clients[id]))
    && (forall id :: id in s.invites ==> s.invites[id].id == id && NamesClient(s, s.invites[id]))
  }

  /** Every write of a plan is a step between kept states. */
  ghost predicate Steps(s: State, p: Plan)
  {
    forall k :: 0 <= k < |p.writes| ==> StateStep(AtWrite(s, p, k), p.writes[k]) && Kept(p.writes[k])
  }

  lemma LinesStep(s: State, lines: seq<string>)
    requires Kept(s)
    ensures StateStep(s, s.(lines := lines)) && Kept(s.(lines := lines))
  {
    hide Sound;
  }

  lemma PutStep(s: State, c: Client)
    requires Kept(s) && Sound(c)
    requires c.id in s.clients ==> ClientStep(s.clients[c.id], c)
    requires c.id !in s.clients ==> c.status.EnrollmentPending?
    ensures StateStep(s, Put(s, c)) && Kept(Put(s, c))
  {
    hide Sound;
  }

  lemma InvitePut(s: State, i: Invite)
    requires Kept(s) && NamesClient(s, i) && (i.id in s.invites ==> InviteStep(s.invites[i.id], i))
    ensures StateStep(s, PutInvite(s, i)) && Kept(PutInvite(s, i))
  {
    hide Sound;
  }

  //////////////////////////////////////////////////////////////////////////////
  // The operations
  //////////////////////////////////////////////////////////////////////////////

  lemma RevokeSteps(env: Env, s: State, q: Manage, now: int)
    requires Kept(s)
    ensures Steps(s, RevokePlan(env, s, q, now))
  {
    hide StateStep, Kept, KeyAccepted, Removed;
    var p := RevokePlan(env, s, q, now);
    if |p.writes| > 0 {
      KeptClient(s, q.id);
      var c := s.clients[q.id];
      LinesStep(s, Removed(s.lines, c.key));
      if !c.status.Revoked? {
        var d := if c.status.Active? then Begun(c, RevocationPending, now) else c;
        PutStep(s, d);
        var s1 := Put(s, d);
        LinesStep(s1, Removed(s1.lines, c.key));
        PutStep(RemovedKey(s1, c.key), RevokedRecord(env, d, now));
        SamePut(s, c);
      }
    }
  }

  lemma KeptClient(s: State, id: string)
    requires Kept(s) && id in s.clients
    ensures s.clients[id].id == id && Sound(s.clients[id])
  {
  }

  lemma KeptInvite(s: State, id: string)
    requires Kept(s) && id in s.invites
    ensures s.invites[id].id == id && NamesClient(s, s.invites[id])
  {
  }

  /** Writing a record back unchanged. */
  lemma SamePut(s: State, c: Client)
    requires c.id in s.clients && s.clients[c.id] == c
    ensures Put(s, c) == s
  {
  }

  lemma HostRevokeSteps(env: Env, s: State, id: string, now: int)
    requires Kept(s)
    ensures Steps(s, HostRevokePlan(env, s, id, now))
  {
    hide StateStep, Kept, KeyAccepted, Removed;
    var p := HostRevokePlan(env, s, id, now);
    if |p.writes| > 0 {
      KeptClient(s, id);
      var c := s.clients[id];
      LinesStep(s, Removed(s.lines, c.key));
      if !c.status.Revoked? {
        var d := if c.status.Active? || c.status.RotationPending? then Begun(c, RevocationPending, now) else c;
        PutStep(s, d);
        SamePut(s, c);
        var s1 := Put(s, d);
        LinesStep(s1, Removed(s1.lines, c.key));
        var s2 := RemovedKey(s1, c.key);
        LinesStep(s2, Removed(s2.lines, c.pendingKey));
        var e := RevokedRecord(env, d, now).(pendingKey := "", pendingToken := "");
        PutStep(s2, e);
        PutStep(RemovedKey(s2, c.pendingKey), e);
      }
    }
  }

  lemma CompleteSteps(env: Env, s: State, id: string, now: int)
    requires Kept(s)
    ensures Steps(s, CompletePlan(env, s, id, now))
  {
    hide StateStep, Kept, KeyAccepted, Removed;
    if |CompletePlan(env, s, id, now).writes| > 0 {
      KeptClient(s, id);
      var c := s.clients[id];
      LinesStep(s, Removed(s.lines, c.key));
      PutStep(RemovedKey(s, c.key), RevokedRecord(env, c, now));
    }
  }

  lemma RotateSteps(env: Env, s: State, q: Manage, now: int)
    requires Kept(s)
    ensures Steps(s, RotatePlan(env, s, q, now))
  {
    hide StateStep, Kept, KeyAccepted, Replaced, Entry, TokenMatches;
    if |RotatePlan(env, s, q, now).writes| > 0 {
      KeptClient(s, q.id);
      var c := s.clients[q.id];
      var entry := Entry(env, q.newKey, c.notAfter.time);
      if RotationDone(env, c, q) {
        LinesStep(s, Replaced(s.lines, c.prevKey, entry));
      } else {
        var d := if c.status.Active?
                 then Begun(c, RotationPending, now).(pendingKey := q.newKey, pendingToken := env.hash(q.nextToken))
                 else c;
        PutStep(s, d);
        SamePut(s, c);
        var s1 := Put(s, d);
        LinesStep(s1, Replaced(s1.lines, c.key, entry));
        PutStep(s1.(lines := Replaced(s1.lines, c.key, entry)), RotatedRecord(env, d, q, now));
      }
    }
  }

  lemma ExpireSteps(env: Env, s: State, id: string, now: int)
    requires Kept(s)
    ensures Steps(s, ExpirePlan(env, s, id, now))
  {
    hide StateStep, Kept, KeyAccepted, Removed, Absent;
    if |ExpirePlan(env, s, id, now).writes| > 0 {
      KeptClient(s, id);
      var c := s.clients[id];
      var d := if c.status.ExpirationPending? then c else Begun(c, ExpirationPending, now);
      PutStep(s, d);
      SamePut(s, c);
      var s1 := Put(s, d);
      LinesStep(s1, Removed(s1.lines, c.key));
      var e := BurnedToken(env, d, now).(status := Expired, expiredAt := At(now), opStarted := NoStamp);
      PutStep(RemovedKey(s1, c.key), e);
    }
  }

  lemma AcceptSteps(env: Env, s: State, q: Enroll, now: int)
    requires Kept(s)
    ensures Steps(s, AcceptPlan(env, s, q, now).plan)
  {
    hide StateStep, Kept, KeyAccepted, Appended, Entry, Steps, ResumeAccepted;
    if q.invite in s.invites {
      var i := s.invites[q.invite];
      KeptInvite(s, q.invite);
      if i.status.Consumed? {
        ResumeSteps(env, s, i, q);
        NoSteps(s);
      } else if q.wellFormed && KeyAccepted(q.key) && i.status.Issued? && i.terms == q.terms {
        InvitePut(s, i.(status := InviteExpired));
        OneStep(s, PutInvite(s, i.(status := InviteExpired)), false);
        NoSteps(s);
        if i.duration > 0 && now < i.expiresAt {
          FreshSteps(env, s, i, q, now);
        }
      } else {
        NoSteps(s);
      }
    } else {
      NoSteps(s);
    }
  }

  lemma NoSteps(s: State)
    ensures Steps(s, REFUSE)
  {
  }

  lemma OneStep(s: State, t: State, ok: bool)
    requires StateStep(s, t) && Kept(t)
    ensures Steps(s, Plan([t], ok))
  {
    hide StateStep, Kept, KeyAccepted;
  }

  lemma ResumeSteps(env: Env, s: State, i: Invite, q: Enroll)
    requires Kept(s)
    ensures Steps(s, ResumeAccepted(env, s, i, q).plan)
  {
    hide StateStep, Kept, KeyAccepted, Appended, Entry;
    var id := env.idOf(i.id, q.key);
    if id in s.clients && s.clients[id].notAfter.At? {
      LinesStep(s, Appended(s.lines, Entry(env, q.key, s.clients[id].notAfter.time)));
    }
  }

  lemma FreshSteps(env: Env, s: State, i: Invite, q: Enroll, now: int)
    requires Kept(s) && q.wellFormed && KeyAccepted(q.key) && q.invite in s.invites && i == s.invites[q.invite]
             && i.id == q.invite
    requires i.status.Issued? && i.terms == q.terms && i.duration > 0 && now < i.expiresAt
    ensures Steps(s, AcceptPlan(env, s, q, now).plan)
  {
    hide StateStep, Kept, KeyAccepted, Appended, Entry;
    var want := PendingClient(env, i, q, now);
    if want.id in s.clients {
      KeptClient(s, want.id);
    } else {
      PutStep(s, want);
    }
    var c := EnrollmentRecord(s, want);
    if c.notAfter.At? && (want.id in s.clients ==> SameEnrollment(c, want)) {
      var s1 := if want.id in s.clients then s else Put(s, want);
      var s2 := s1.(lines := Appended(s1.lines, Entry(env, q.key, c.notAfter.time)));
      LinesStep(s1, s2.lines);
      if c.status.EnrollmentPending? {
        PutStep(s2, c.(status := Active));
        InvitePut(Put(s2, c.(status := Active)), ConsumedInvite(i, want.id, now));
      } else {
        InvitePut(s2, ConsumedInvite(i, want.id, now));
      }
    }
  }

  lemma IssueSteps(s: State, i: Invite)
    requires Kept(s)
    ensures Steps(s, IssuePlan(s, i))
  {
    hide StateStep, Kept;
    if i.id !in s.invites && i.status.Issued? {
      InvitePut(s, i);
    }
  }

  lemma CancelSteps(s: State, id: string, now: int)
    requires Kept(s)
    ensures Steps(s, CancelPlan(s, id, now))
  {
    hide StateStep, Kept;
    if id in s.invites && !s.invites[id].status.Consumed? && !s.invites[id].status.InviteRevoked? {
      KeptInvite(s, id);
      InvitePut(s, s.invites[id].(status := Cancelled, revokedAt := At(now)));
    }
  }

  lemma RevokeInviteSteps(s: State, id: string, now: int)
    requires Kept(s)
    ensures Steps(s, RevokeInvitePlan(s, id, now))
  {
    hide StateStep, Kept;
    if id in s.invites {
      KeptInvite(s, id);
      InvitePut(s, s.invites[id].(status := InviteRevoked, revokedAt := At(now)));
    }
  }

  lemma LapseSteps(s: State, id: string, now: int)
    requires Kept(s)
    ensures Steps(s, LapsePlan(s, id, now))
  {
    hide StateStep, Kept;
    if id in s.invites && s.invites[id].status.Issued? {
      KeptInvite(s, id);
      InvitePut(s, s.invites[id].(status := InviteExpired));
    }
  }

  /** Every write of every operation is a step: leases, bindings and terminal records are kept. */
  lemma OpSteps(env: Env, s: State, op: Op)
    requires Kept(s)
    ensures Steps(s, PlanOf(env, s, op))
  {
    hide Kept, Steps, AcceptPlan, RevokePlan, HostRevokePlan, CompletePlan, RotatePlan, ExpirePlan;
    hide IssuePlan, CancelPlan, RevokeInvitePlan, LapsePlan;
    match op
    case Accept(q, now) => AcceptSteps(env, s, q, now);
    case Revoke(q, now) => RevokeSteps(env, s, q, now);
    case HostRevoke(id, now) => HostRevokeSteps(env, s, id, now);
    case Complete(id, now) => CompleteSteps(env, s, id, now);
    case Rotate(q, now) => RotateSteps(env, s, q, now);
    case Expire(id, now) => ExpireSteps(env, s, id, now);
    case Issue(i) => IssueSteps(s, i);
    case Cancel(id, now) => CancelSteps(s, id, now);
    case RevokeInvite(id, now) => RevokeInviteSteps(s, id, now);
    case Lapse(id, now) => LapseSteps(s, id, now);
    case Rewrite(lines) =>
      LinesStep(s, lines);
      OneStep(s, s.(lines := lines), true);
  }

  //////////////////////////////////////////////////////////////////////////////
  // Runs
  //////////////////////////////////////////////////////////////////////////////

  /** What any later state keeps of an earlier one. */
  predicate Outlives(s: State, t: State)
  {
    && (forall id :: id in s.clients ==>
          && id in t.clients && LeaseOf(t.clients[id]) == LeaseOf(s.clients[id])
          && t.clients[id].invite == s.clients[id].invite && t.clients[id].tunnel == s.clients[id].tunnel
          && t.clients[id].terms == s.clients[id].terms
          && (Terminal(s.clients[id].status) ==> t.clients[id] == s.clients[id]))
    && (forall id :: id in s.invites ==>
          && id in t.invites && t.invites[id].terms == s.invites[id].terms
          && (s.invites[id].status.Consumed? || s.invites[id].status.InviteRevoked? ==>
                t.invites[id].clientID == s.invites[id].clientID
                && (t.invites[id].status.Consumed? || t.invites[id].status.InviteRevoked?)))
  }

  lemma OutlivesItself(s: State)
    ensures Outlives(s, s)
  {
  }

  lemma StepOutlives(s: State, t: State, u: State)
    requires Outlives(s, t) && StateStep(t, u)
    ensures Outlives(s, u)
  {
    forall id | id in s.clients
      ensures id in u.clients && LeaseOf(u.clients[id]) == LeaseOf(s.clients[id])
      ensures u.clients[id].invite == s.clients[id].invite && u.clients[id].tunnel == s.clients[id].tunnel
      ensures u.clients[id].terms == s.clients[id].terms
      ensures Terminal(s.clients[id].status) ==> u.clients[id] == s.clients[id]
    {
      assert ClientStep(t.clients[id], u.clients[id]);
    }
    forall id | id in s.invites
      ensures id in u.invites && u.invites[id].terms == s.invites[id].terms
      ensures s.invites[id].status.Consumed? || s.invites[id].status.InviteRevoked? ==>
                u.invites[id].clientID == s.invites[id].clientID
                && (u.invites[id].status.Consumed? || u.invites[id].status.InviteRevoked?)
    {
      assert InviteStep(t.invites[id], u.invites[id]);
    }
  }

  lemma {:induction false} PlanOutlives(s0: State, s: State, p: Plan, k: nat)
    requires Kept(s) && Steps(s, p) && k <= |p.writes| && Outlives(s0, s)
    ensures Outlives(s0, AtWrite(s, p, k)) && Kept(AtWrite(s, p, k))
    decreases k
  {
    hide Outlives, Kept, StateStep;
    if k > 0 {
      PlanOutlives(s0, s, p, k - 1);
      StepOutlives(s0, AtWrite(s, p, k - 1), p.writes[k - 1]);
    }
  }

  /**
   Over every run of operations with crashes between any two writes: the lease, the
   invite, the tunnel and the terms of a client never change, terminal records are never written again,
   and a consumed invite stays bound to its client.
   */
  lemma {:induction false} RunOutlives(env: Env, s0: State, s: State, run: seq<Event>)
    requires Kept(s) && Outlives(s0, s) && ValidRun(env, s, run)
    ensures Outlives(s0, After(env, s, run)) && Kept(After(env, s, run))
    decreases run
  {
    hide Kept, Outlives, PlanOf, AtWrite, Steps;
    if run != [] {
      var p := PlanOf(env, s, run[0].op);
      OpSteps(env, s, run[0].op);
      PlanOutlives(s0, s, p, run[0].writes);
      RunOutlives(env, s0, AtWrite(s, p, run[0].writes), run[1..]);
    }
  }

  //////////////////////////////////////////////////////////////////////////////
  // Whose record an operation writes
  //////////////////////////////////////////////////////////////////////////////

  datatype Writes = OfNone | OfClient(id: string)

  /** The one client whose record the operation may write. */
  function Target(env: Env, op: Op): (w: Writes)
  {
    match op
    case Accept(q, _) => OfClient(env.idOf(q.invite, q.key))
    case Revoke(q, _) => OfClient(q.id)
    case HostRevoke(id, _) => OfClient(id)
    case Complete(id, _) => OfClient(id)
    case Rotate(q, _) => OfClient(q.id)
    case Expire(id, _) => OfClient(id)
    case _ => OfNone
  }

  /** Whatever happens to them, the other records are untouched. */
  predicate Untouched(s: State, p: Plan, k: nat, id: string)
  {
    && k <= |p.writes| && id in s.clients
    && id in AtWrite(s, p, k).clients && AtWrite(s, p, k).clients[id] == s.clients[id]
  }

  lemma AcceptTarget(env: Env, s: State, q: Enroll, now: int, k: nat, id: string)
    requires Kept(s) && id in s.clients && k <= |AcceptPlan(env, s, q, now).plan.writes|
             && id != env.idOf(q.invite, q.key)
    ensures Untouched(s, AcceptPlan(env, s, q, now).plan, k, id)
  {
    hide Appended, Entry, SameEnrollment, KeyAccepted, Kept;
    if q.invite in s.invites {
      KeptInvite(s, q.invite);
      if env.idOf(q.invite, q.key) in s.clients {
        KeptClient(s, env.idOf(q.invite, q.key));
      }
    }
  }

  lemma HostRevokeTarget(env: Env, s: State, id0: string, now: int, k: nat, id: string)
    requires Kept(s) && id in s.clients && k <= |HostRevokePlan(env, s, id0, now).writes| && id != id0
    ensures Untouched(s, HostRevokePlan(env, s, id0, now), k, id)
  {
    hide Removed, Kept;
    if id0 in s.clients {
      KeptClient(s, id0);
    }
  }

  lemma RotateTarget(env: Env, s: State, q: Manage, now: int, k: nat, id: string)
    requires Kept(s) && id in s.clients && k <= |RotatePlan(env, s, q, now).writes| && id != q.id
    ensures Untouched(s, RotatePlan(env, s, q, now), k, id)
  {
    hide Replaced, Entry, TokenMatches, KeyAccepted, Kept;
    if q.id in s.clients {
      KeptClient(s, q.id);
    }
  }

  lemma RevokeTarget(env: Env, s: State, q: Manage, now: int, k: nat, id: string)
    requires Kept(s) && id in s.clients && k <= |RevokePlan(env, s, q, now).writes| && id != q.id
    ensures Untouched(s, RevokePlan(env, s, q, now), k, id)
  {
    hide Removed, TokenMatches, Kept;
    if q.id in s.clients {
      KeptClient(s, q.id);
    }
  }

  lemma ExpireTarget(env: Env, s: State, id0: string, now: int, k: nat, id: string)
    requires Kept(s) && id in s.clients && k <= |ExpirePlan(env, s, id0, now).writes| && id != id0
    ensures Untouched(s, ExpirePlan(env, s, id0, now), k, id)
  {
    hide Removed, Absent, ExpiryAllowed, Kept;
    if id0 in s.clients {
      KeptClient(s, id0);
    }
  }

  lemma CompleteTarget(env: Env, s: State, id0: string, now: int, k: nat, id: string)
    requires Kept(s) && id in s.clients && k <= |CompletePlan(env, s, id0, now).writes| && id != id0
    ensures Untouched(s, CompletePlan(env, s, id0, now), k, id)
  {
    hide Removed, Kept;
    if id0 in s.clients {
      KeptClient(s, id0);
    }
  }

  /** An operation writes, at most, the record of its own client. */
  lemma OnlyTarget(env: Env, s: State, op: Op, k: nat, id: string)
    requires Kept(s) && id in s.clients && k <= |PlanOf(env, s, op).writes| && Target(env, op) != OfClient(id)
    ensures Untouched(s, PlanOf(env, s, op), k, id)
  {
    hide Kept, AcceptPlan, RevokePlan, HostRevokePlan, CompletePlan, RotatePlan, ExpirePlan;
    match op
    case Accept(q, now) => AcceptTarget(env, s, q, now, k, id);
    case Revoke(q, now) => RevokeTarget(env, s, q, now, k, id);
    case HostRevoke(id0, now) => HostRevokeTarget(env, s, id0, now, k, id);
    case Complete(id0, now) => CompleteTarget(env, s, id0, now, k, id);
    case Rotate(q, now) => RotateTarget(env, s, q, now, k, id);
    case Expire(id0, now) => ExpireTarget(env, s, id0, now, k, id);
    case _ =>
  }

  //////////////////////////////////////////////////////////////////////////////
  // The transition table
  //////////////////////////////////////////////////////////////////////////////

  /** Every write of the plan follows CanTransition, for every client. */
  ghost predicate Follows(s: State, p: Plan)
  {
    forall k, id :: 0 <= k < |p.writes| && id in AtWrite(s, p, k).clients && id in p.writes[k].clients ==>
      CanTransition(AtWrite(s, p, k).clients[id].status, p.writes[k].clients[id].status)
  }

  /** The operation is a revocation that its guards admit, of a client whose expiry has begun. */
  predicate RevokesExpiring(env: Env, s: State, op: Op)
  {
    match op
    case Revoke(q, _) =>
      q.wellFormed && q.id in s.clients && s.clients[q.id].tunnel == q.tunnel
      && s.clients[q.id].status.ExpirationPending? && TokenMatches(env, s.clients[q.id].token, q.token)
    case HostRevoke(id, _) => id in s.clients && s.clients[id].status.ExpirationPending?
    case _ => false
  }

  /** Write k of the plan takes client id from expiration_pending to revoked. */
  predicate Skips(s: State, p: Plan, k: nat, id: string)
  {
    && k < |p.writes| && id in AtWrite(s, p, k).clients && id in p.writes[k].clients
    && AtWrite(s, p, k).clients[id].status.ExpirationPending? && p.writes[k].clients[id].status.Revoked?
  }

  lemma AcceptNeverRevokes(env: Env, s: State, q: Enroll, now: int, k: nat, id: string)
    requires var p := AcceptPlan(env, s, q, now).plan;
             k < |p.writes| && id in p.writes[k].clients && p.writes[k].clients[id].status.Revoked?
    ensures id in s.clients && s.clients[id].status.Revoked?
  {
    hide Appended, Entry, SameEnrollment, KeyAccepted;
  }

  lemma AcceptNeverSkips(env: Env, s: State, q: Enroll, now: int, k: nat, id: string)
    requires Kept(s)
    ensures !Skips(s, AcceptPlan(env, s, q, now).plan, k, id)
  {
    hide AcceptPlan, Steps, Kept;
    var p := AcceptPlan(env, s, q, now).plan;
    if k < |p.writes| && id in p.writes[k].clients && p.writes[k].clients[id].status.Revoked? {
      AcceptNeverRevokes(env, s, q, now, k, id);
      AcceptSteps(env, s, q, now);
      OutlivesItself(s);
      PlanOutlives(s, s, p, k);
    }
  }

  lemma RotateNeverSkips(env: Env, s: State, q: Manage, now: int, k: nat, id: string)
    requires Kept(s)
    ensures !Skips(s, RotatePlan(env, s, q, now), k, id)
  {
    hide Replaced, Entry, TokenMatches, KeyAccepted, Kept, Sound;
    if q.id in s.clients {
      KeptClient(s, q.id);
    }
  }

  lemma ExpireNeverSkips(env: Env, s: State, id0: string, now: int, k: nat, id: string)
    requires Kept(s)
    ensures !Skips(s, ExpirePlan(env, s, id0, now), k, id)
  {
    hide Removed, Absent, Kept, Sound;
    if id0 in s.clients {
      KeptClient(s, id0);
    }
  }

  lemma CompleteNeverSkips(env: Env, s: State, id0: string, now: int, k: nat, id: string)
    requires Kept(s)
    ensures !Skips(s, CompletePlan(env, s, id0, now), k, id)
  {
    hide Removed, Kept, Sound;
    if id0 in s.clients {
      KeptClient(s, id0);
    }
  }

  lemma RevokeSkips(env: Env, s: State, q: Manage, now: int, k: nat, id: string)
    requires Kept(s) && Skips(s, RevokePlan(env, s, q, now), k, id)
    ensures RevokesExpiring(env, s, Revoke(q, now))
  {
    hide Removed, Kept, Sound;
    if q.id in s.clients {
      KeptClient(s, q.id);
    }
  }

  lemma HostRevokeSkips(env: Env, s: State, id0: string, now: int, k: nat, id: string)
    requires Kept(s) && Skips(s, HostRevokePlan(env, s, id0, now), k, id)
    ensures RevokesExpiring(env, s, HostRevoke(id0, now))
  {
    hide Removed, Kept, Sound;
    if id0 in s.clients {
      KeptClient(s, id0);
    }
  }

  lemma OthersNeverSkip(env: Env, s: State, op: Op, k: nat, id: string)
    requires op.Issue? || op.Cancel? || op.RevokeInvite? || op.Lapse? || op.Rewrite?
    ensures !Skips(s, PlanOf(env, s, op), k, id)
  {
  }

  /** The transition outside the table occurs only in such an operation. */
  lemma OnlyRevocations(env: Env, s: State, op: Op, k: nat, id: string)
    requires Kept(s) && Skips(s, PlanOf(env, s, op), k, id)
    ensures RevokesExpiring(env, s, op)
  {
    hide Kept, Skips, AcceptPlan, RevokePlan, HostRevokePlan, CompletePlan, RotatePlan, ExpirePlan, RevokesExpiring;
    match op
    case Accept(q, now) => AcceptNeverSkips(env, s, q, now, k, id);
    case Revoke(q, now) => RevokeSkips(env, s, q, now, k, id);
    case HostRevoke(id0, now) => HostRevokeSkips(env, s, id0, now, k, id);
    case Complete(id0, now) => CompleteNeverSkips(env, s, id0, now, k, id);
    case Rotate(q, now) => RotateNeverSkips(env, s, q, now, k, id);
    case Expire(id0, now) => ExpireNeverSkips(env, s, id0, now, k, id);
    case _ => OthersNeverSkip(env, s, op, k, id);
  }

  /** Such an operation does make that transition, in its last write. */
  lemma RevocationSkips(env: Env, s: State, op: Op) returns (k: nat, id: string)
    requires Kept(s) && RevokesExpiring(env, s, op)
    ensures Skips(s, PlanOf(env, s, op), k, id)
  {
    hide Removed, Kept, Sound;
    id := if op.Revoke? then op.manage.id else op.id;
    KeptClient(s, id);
    k := |PlanOf(env, s, op).writes| - 1;
  }

  /**
   Persisted status changes follow the transition table in every operation, at
   every write, except exactly when a revocation is admitted for a client in
   expiration_pending.
   */
  lemma TransitionsIff(env: Env, s: State, op: Op)
    requires Kept(s)
    ensures Follows(s, PlanOf(env, s, op)) <==> !RevokesExpiring(env, s, op)
  {
    hide Kept, PlanOf, RevokesExpiring, StateStep, CanTransition;
    var p := PlanOf(env, s, op);
    if RevokesExpiring(env, s, op) {
      var k, id := RevocationSkips(env, s, op);
      SkipIsOutside(s, p, k, id);
    } else {
      OpSteps(env, s, op);
      forall k, id | 0 <= k < |p.writes| && id in AtWrite(s, p, k).clients && id in p.writes[k].clients
        ensures CanTransition(AtWrite(s, p, k).clients[id].status, p.writes[k].clients[id].status)
      {
        StepOccurs(AtWrite(s, p, k), p.writes[k], id);
        if Skips(s, p, k, id) {
          OnlyRevocations(env, s, op, k, id);
        }
      }
    }
  }

  lemma SkipIsOutside(s: State, p: Plan, k: nat, id: string)
    requires Skips(s, p, k, id)
    ensures !Follows(s, p)
  {
  }

  lemma StepOccurs(s: State, t: State, id: string)
    requires StateStep(s, t) && id in s.clients && id in t.clients
    ensures CanTransition(s.clients[id].status, t.clients[id].status)
            || (s.clients[id].status.ExpirationPending? && t.clients[id].status.Revoked?)
  {
  }

  //////////////////////////////////////////////////////////////////////////////
  // A run that leaves the table
  //////////////////////////////////////////////////////////////////////////////

  const NOTHING: State := State(map[], map[], [])

  /** A state that a host can reach from empty stores. */
  ghost predicate Reachable(env: Env, s: State)
  {
    exists run :: ValidRun(env, NOTHING, run) && s == After(env, NOTHING, run)
  }

  lemma {:induction false} Extend(env: Env, s: State, run: seq<Event>, e: Event)
    requires ValidRun(env, s, run) && e.writes <= |PlanOf(env, After(env, s, run), e.op).writes|
    ensures ValidRun(env, s, run + [e])
    ensures After(env, s, run + [e]) == AtWrite(After(env, s, run), PlanOf(env, After(env, s, run), e.op), e.writes)
    decreases run
  {
    hide PlanOf, AtWrite;
    if run == [] {
      assert (run + [e])[1..] == [];
    } else {
      Extend(env, AtWrite(s, PlanOf(env, s, run[0].op), run[0].writes), run[1..], e);
      assert (run + [e])[1..] == run[1..] + [e];
    }
  }

  lemma ReachableNext(env: Env, s: State, op: Op, k: nat)
    requires Reachable(env, s) && k <= |PlanOf(env, s, op).writes|
    ensures Reachable(env, AtWrite(s, PlanOf(env, s, op), k))
  {
    hide PlanOf, AtWrite, ValidRun, After;
    var run :| ValidRun(env, NOTHING, run) && s == After(env, NOTHING, run);
    Extend(env, NOTHING, run, Event(op, k));
  }

  lemma ReachableNothing(env: Env)
    ensures Reachable(env, NOTHING)
  {
    assert ValidRun(env, NOTHING, []) && After(env, NOTHING, []) == NOTHING;
  }

  /** The request is good for the invite at time now. */
  predicate Matches(i: Invite, q: Enroll, now: int)
  {
    && i.status.Issued? && i.clientID == "" && now < i.expiresAt && i.duration > 0
    && q.wellFormed && KeyAccepted(q.key) && q.invite == i.id && q.nonce == i.nonce && q.clientName == i.clientName
    && q.terms == i.terms
  }

  function EnrolledClient(env: Env, i: Invite, q: Enroll, now: int): (c: Client)
  {
    PendingClient(env, i, q, now).(status := Active)
  }

  /** The first enrollment on a new host: the invite is issued and the request accepted. */
  function EnrolledState(env: Env, i: Invite, q: Enroll, now: int): (s: State)
  {
    var c := EnrolledClient(env, i, q, now);
    State(map[c.id := c], map[i.id := ConsumedInvite(i, c.id, now)], [Entry(env, q.key, now + i.duration)])
  }

  lemma Enrolled(env: Env, i: Invite, q: Enroll, now: int)
    requires Matches(i, q, now)
    ensures Reachable(env, EnrolledState(env, i, q, now)) && Kept(EnrolledState(env, i, q, now))
  {
    hide Reachable, Entry, Kept, KeyAccepted;
    ReachableNothing(env);
    ReachableNext(env, NOTHING, Issue(i), 1);
    var s1 := PutInvite(NOTHING, i);
    ReachableNext(env, s1, Accept(q, now), 4);
    assert AtWrite(s1, PlanOf(env, s1, Accept(q, now)), 4) == EnrolledState(env, i, q, now);
    ReachableKept(env, EnrolledState(env, i, q, now));
  }

  /** A host can revoke any client whose expiry was cut off after its first write. */
  lemma TransitionSkipped(env: Env, i: Invite, q: Enroll, now: int, late: int)
    requires Matches(i, q, now) && env.idOf(i.id, q.key) != "" && env.digest(q.key) != ""
    requires now + i.duration <= late
    ensures exists s, op :: Reachable(env, s) && Kept(s) && !Follows(s, PlanOf(env, s, op))
  {
    hide Reachable, Removed, Absent, Kept, Follows, Entry, KeyAccepted;
    AcceptedBlob(q.key);
    Enrolled(env, i, q, now);
    var s, c := EnrolledState(env, i, q, now), EnrolledClient(env, i, q, now);
    ReachableNext(env, s, Expire(c.id, late), 1);
    var t := AtWrite(s, PlanOf(env, s, Expire(c.id, late)), 1);
    assert t == Put(s, Begun(c, ExpirationPending, late));
    ReachableKept(env, t);
    TransitionsIff(env, t, HostRevoke(c.id, late));
  }

  lemma ReachableKept(env: Env, s: State)
    requires Reachable(env, s)
    ensures Kept(s)
  {
    hide PlanOf, ValidRun, After;
    var run :| ValidRun(env, NOTHING, run) && s == After(env, NOTHING, run);
    OutlivesItself(NOTHING);
    RunOutlives(env, NOTHING, NOTHING, run);
  }
}

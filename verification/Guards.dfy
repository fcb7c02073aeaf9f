/**
 internal/enrollment: who may do what. Every operation on a client or an invite succeeds exactly
 under conditions on the stored record and the request that are written out here, changes exactly
 what is written out, and is refused without a write otherwise. The order of the writes is what a
 crash between them depends on.
 */
module Guards {
  import opened KeyLines
  import opened Grants
  import opened GrantRuns
  import opened Removals

  //////////////////////////////////////////////////////////////////////////////
  // Rotation
  //////////////////////////////////////////////////////////////////////////////

  /** The record already shows this rotation. */
  predicate ShowsRotation(env: Env, c: Client, q: Manage)
  {
    && c.status == Active && c.key == q.newKey && c.token == env.hash(q.nextToken)
    && c.prevToken == env.hash(q.token)
  }

  /** The bearer of the client's token may start this rotation or go on with it, before the expiry. */
  predicate MayAdvance(env: Env, c: Client, q: Manage, now: int)
  {
    && c.notAfter.At? && now < c.notAfter.time && c.token != "" && c.token == env.hash(q.token)
    && (c.status == Active
        || (c.status == RotationPending && c.pendingKey == q.newKey && c.pendingToken == env.hash(q.nextToken)))
  }

  predicate MayRotate(env: Env, s: State, q: Manage, now: int)
  {
    && q.wellFormed && KeyAccepted(q.newKey) && q.id in s.clients
    && var c := s.clients[q.id];
       c.tunnel == q.tunnel && c.notAfter.At? && (ShowsRotation(env, c, q) || MayAdvance(env, c, q, now))
  }

  /** Rotation succeeds exactly for the bearer of the token or for a rotation already shown; else nothing is written. */
  lemma RotateIff(env: Env, s: State, q: Manage, now: int)
    requires Kept(s)
    ensures var p := RotatePlan(env, s, q, now);
            && (p.ok <==> MayRotate(env, s, q, now)) && (!p.ok ==> p.writes == []) && |p.writes| <= 3
            && (p.ok ==>
                  var c, t := s.clients[q.id], Final(s, p);
                  && t.invites == s.invites && q.id in t.clients && t.clients == s.clients[q.id := t.clients[q.id]]
                  && (ShowsRotation(env, c, q) ==>
                        && t.clients[q.id] == c
                        && t.lines == Replaced(s.lines, c.prevKey, Entry(env, q.newKey, c.notAfter.time)))
                  && (!ShowsRotation(env, c, q) ==>
                        && t.lines == Replaced(s.lines, c.key, Entry(env, q.newKey, c.notAfter.time))
                        && t.clients[q.id] == c.(key := q.newKey, keyDigest := env.digest(q.newKey),
                                                 token := env.hash(q.nextToken), prevKey := c.key, prevToken := c.token,
                                                 pendingKey := "", pendingToken := "", opStarted := NoStamp,
                                                 status := Active, generation := At(now))))
  {
    hide Replaced, Entry, KeyAccepted, Kept, Sound;
    if q.id in s.clients {
      KeptClient(s, q.id);
    }
  }

  /** At every cut: the file changes only once the record is pending, the record's key only once the file has it. */
  lemma RotateOrder(env: Env, s: State, q: Manage, now: int, k: nat)
    requires Kept(s) && q.id in s.clients && k <= |RotatePlan(env, s, q, now).writes|
    ensures var c, t := s.clients[q.id], AtWrite(s, RotatePlan(env, s, q, now), k);
            && q.id in t.clients
            && (t.lines != s.lines && !ShowsRotation(env, c, q) ==>
                  (t.clients[q.id].status == RotationPending && t.clients[q.id].pendingKey == q.newKey)
                  || t.clients[q.id].key == q.newKey)
            && (t.clients[q.id].key != c.key ==>
                  c.notAfter.At? && t.lines == Replaced(s.lines, c.key, Entry(env, q.newKey, c.notAfter.time)))
  {
    hide Replaced, Entry, KeyAccepted, Kept, Sound, TokenMatches;
    KeptClient(s, q.id);
  }

  //////////////////////////////////////////////////////////////////////////////
  // Revocation by the client
  //////////////////////////////////////////////////////////////////////////////

  predicate MayRevoke(env: Env, s: State, q: Manage)
  {
    && q.wellFormed && q.id in s.clients
    && var c := s.clients[q.id];
       && c.tunnel == q.tunnel
       && (if c.status == Revoked then c.prevToken != "" && c.prevToken == env.hash(q.token)
           else && (c.status == Active || c.status == RevocationPending || c.status == ExpirationPending)
                && c.token != "" && c.token == env.hash(q.token))
  }

  /** Revocation succeeds exactly for the bearer of the token, or of the last one once revoked. */
  lemma RevokeIff(env: Env, s: State, q: Manage, now: int)
    requires Kept(s)
    ensures var p := RevokePlan(env, s, q, now);
            && (p.ok <==> MayRevoke(env, s, q)) && (!p.ok ==> p.writes == []) && |p.writes| <= 3
            && (p.ok ==>
                  var c, t := s.clients[q.id], Final(s, p);
                  && t.invites == s.invites && t.lines == Removed(s.lines, c.key)
                  && t.clients == s.clients[q.id := if c.status == Revoked then c else
                                                     c.(status := Revoked, revokedAt := At(now), opStarted := NoStamp,
                                                        prevToken := c.token, token := env.burned(c.id, now))])
  {
    hide Removed, Kept, Sound;
    if q.id in s.clients {
      KeptClient(s, q.id);
      var c := s.clients[q.id];
      assert s.clients[q.id := c] == s.clients;
    }
  }

  /** A revocation may be repeated: the same request succeeds again, in the state that it left. */
  lemma RevokeRepeats(env: Env, s: State, q: Manage, now: int, later: int)
    requires Kept(s) && RevokePlan(env, s, q, now).ok
    ensures RevokePlan(env, Final(s, RevokePlan(env, s, q, now)), q, later).ok
  {
    hide Removed, Kept, RevokePlan, Final, AtWrite;
    RevokeIff(env, s, q, now);
    var t := Final(s, RevokePlan(env, s, q, now));
    RevokeSteps(env, s, q, now);
    PlanKeeps(s, RevokePlan(env, s, q, now));
    RevokeIff(env, t, q, later);
  }

  lemma PlanKeeps(s: State, p: Plan)
    requires Kept(s) && Steps(s, p)
    ensures Kept(Final(s, p))
  {
    hide Kept, Steps;
    OutlivesItself(s);
    PlanOutlives(s, s, p, |p.writes|);
  }

  //////////////////////////////////////////////////////////////////////////////
  // Revocation by the host
  //////////////////////////////////////////////////////////////////////////////

  predicate MayHostRevoke(s: State, id: string)
  {
    id in s.clients && s.clients[id].status != EnrollmentPending && s.clients[id].status != Expired
  }

  /** The lines without the key, and without the pending key of a rotation. */
  function WithoutBoth(lines: seq<string>, c: Client): (r: seq<string>)
  {
    var rest := Removed(lines, c.key);
    if c.status != Revoked && c.pendingKey != "" && c.pendingKey != c.key then Removed(rest, c.pendingKey) else rest
  }

  lemma HostRevokeIff(env: Env, s: State, id: string, now: int)
    requires Kept(s)
    ensures var p := HostRevokePlan(env, s, id, now);
            && (p.ok <==> MayHostRevoke(s, id)) && (!p.ok ==> p.writes == []) && |p.writes| <= 4
            && (p.ok ==>
                  var c, t := s.clients[id], Final(s, p);
                  && t.invites == s.invites && t.lines == WithoutBoth(s.lines, c)
                  && t.clients == s.clients[id := if c.status == Revoked then c else
                                                   c.(status := Revoked, revokedAt := At(now), opStarted := NoStamp,
                                                      prevToken := c.token, token := env.burned(c.id, now),
                                                      pendingKey := "", pendingToken := "")])
  {
    hide Removed, Kept, Sound;
    if id in s.clients {
      KeptClient(s, id);
      var c := s.clients[id];
      assert s.clients[id := c] == s.clients;
    }
  }

  predicate MayComplete(s: State, id: string)
  {
    id in s.clients && (s.clients[id].status == Revoked || s.clients[id].status == RevocationPending)
  }

  lemma CompleteIff(env: Env, s: State, id: string, now: int)
    requires Kept(s)
    ensures var p := CompletePlan(env, s, id, now);
            && (p.ok <==> MayComplete(s, id)) && (!p.ok ==> p.writes == []) && |p.writes| <= 2
            && (p.ok ==>
                  var c, t := s.clients[id], Final(s, p);
                  if c.status == Revoked then t == s
                  else && t.invites == s.invites && t.lines == Removed(s.lines, c.key)
                       && t.clients == s.clients[id := c.(status := Revoked, revokedAt := At(now), opStarted := NoStamp,
                                                          prevToken := c.token, token := env.burned(c.id, now))])
  {
    hide Removed, Kept, Sound;
    if id in s.clients {
      KeptClient(s, id);
    }
  }

  //////////////////////////////////////////////////////////////////////////////
  // Expiry
  //////////////////////////////////////////////////////////////////////////////

  /** The grant is due, or its expiry has begun; and the record is complete. */
  predicate MayExpire(s: State, id: string, now: int)
  {
    && id in s.clients
    && var c := s.clients[id];
       || c.status == Expired
       || (&& id != "" && c.generation != NoStamp && c.keyDigest != "" && c.notAfter.At?
           && (c.status == ExpirationPending
               || ((c.status == Active || c.status == RotationPending) && c.notAfter.time <= now)))
  }

  lemma ExpireIff(env: Env, s: State, id: string, now: int)
    requires Kept(s)
    ensures var p := ExpirePlan(env, s, id, now);
            && (p.ok <==> MayExpire(s, id, now)) && (!p.ok ==> p.writes == []) && |p.writes| <= 3
            && (p.ok ==>
                  var c, t := s.clients[id], Final(s, p);
                  if c.status == Expired then t == s
                  else && t.invites == s.invites && t.lines == Removed(s.lines, c.key)
                       && t.clients == s.clients[id := c.(status := Expired, expiredAt := At(now), opStarted := NoStamp,
                                                          prevToken := c.token, token := env.burned(c.id, now))])
  {
    hide Removed, Absent, Kept, KeyAccepted;
    if id in s.clients {
      KeptClient(s, id);
      var c := s.clients[id];
      AcceptedBlob(c.key);
      RemovedAbsent(s.lines, c.key);
    }
  }

  //////////////////////////////////////////////////////////////////////////////
  // The order of the writes that end a grant
  //////////////////////////////////////////////////////////////////////////////

  /** The end of a grant is recorded only with its key gone, and the key is removed only once its end has begun. */
  predicate EndsInOrder(s: State, t: State, id: string)
  {
    && id in s.clients && id in t.clients
    && (Terminal(t.clients[id].status) && !Terminal(s.clients[id].status) ==> Absent(t.lines, s.clients[id].key))
    && (t.lines != s.lines ==> t.clients[id].status != Active && t.clients[id].status != RotationPending)
  }

  lemma RecordStatus(env: Env, c: Client, status: Status, now: int)
    ensures Begun(c, status, now).status == status && Begun(c, status, now).id == c.id
    ensures RevokedRecord(env, c, now).status == Revoked && RevokedRecord(env, c, now).id == c.id
  {
  }

  lemma RevokeOrder(env: Env, s: State, q: Manage, now: int, k: nat)
    requires Kept(s) && q.id in s.clients && k <= |RevokePlan(env, s, q, now).writes|
    ensures EndsInOrder(s, AtWrite(s, RevokePlan(env, s, q, now), k), q.id)
  {
    hide Removed, Absent, Kept, TokenMatches, KeyAccepted, Begun, RevokedRecord;
    KeptClient(s, q.id);
    var c := s.clients[q.id];
    AcceptedBlob(c.key);
    RemovedAbsent(s.lines, c.key);
    RecordStatus(env, c, RevocationPending, now);
    RecordStatus(env, Begun(c, RevocationPending, now), RevocationPending, now);
  }

  lemma CompleteOrder(env: Env, s: State, id: string, now: int, k: nat)
    requires Kept(s) && id in s.clients && k <= |CompletePlan(env, s, id, now).writes|
    ensures EndsInOrder(s, AtWrite(s, CompletePlan(env, s, id, now), k), id)
  {
    hide Removed, Absent, Kept, KeyAccepted;
    KeptClient(s, id);
    AcceptedBlob(s.clients[id].key);
    RemovedAbsent(s.lines, s.clients[id].key);
  }

  lemma ExpireOrder(env: Env, s: State, id: string, now: int, k: nat)
    requires Kept(s) && id in s.clients && k <= |ExpirePlan(env, s, id, now).writes|
    ensures EndsInOrder(s, AtWrite(s, ExpirePlan(env, s, id, now), k), id)
  {
    hide Removed, Absent, Kept, ExpiryAllowed, KeyAccepted;
    KeptClient(s, id);
    AcceptedBlob(s.clients[id].key);
    RemovedAbsent(s.lines, s.clients[id].key);
  }

  lemma HostRevokeOrder(env: Env, s: State, id: string, now: int, k: nat)
    requires Kept(s) && id in s.clients && k <= |HostRevokePlan(env, s, id, now).writes|
    ensures EndsInOrder(s, AtWrite(s, HostRevokePlan(env, s, id, now), k), id)
  {
    hide Removed, Absent, Kept, Sound;
    KeptClient(s, id);
    BothGone(s.clients[id], s.lines);
  }

  //////////////////////////////////////////////////////////////////////////////
  // Invites
  //////////////////////////////////////////////////////////////////////////////

  /** Cancelling: any invite that is not consumed or revoked; again is allowed. */
  lemma CancelIff(s: State, id: string, now: int)
    requires Kept(s)
    ensures var p := CancelPlan(s, id, now);
            && (p.ok <==> id in s.invites && s.invites[id].status != Consumed && s.invites[id].status != InviteRevoked)
            && (!p.ok ==> p.writes == [])
            && (p.ok ==>
                  Final(s, p) == if s.invites[id].status == Cancelled then s else
                                 s.(invites := s.invites[id := s.invites[id].(status := Cancelled,
                                                                              revokedAt := At(now))]))
  {
    hide Kept;
    if id in s.invites {
      KeptInvite(s, id);
    }
  }

  /** Revoking: a consumed or expired invite; again is allowed. */
  lemma RevokeInviteIff(s: State, id: string, now: int)
    requires Kept(s)
    ensures var p := RevokeInvitePlan(s, id, now);
            && (p.ok <==> id in s.invites && s.invites[id].status != Issued && s.invites[id].status != Cancelled)
            && (!p.ok ==> p.writes == [])
            && (p.ok ==>
                  Final(s, p) == if s.invites[id].status == InviteRevoked then s else
                                 s.(invites := s.invites[id := s.invites[id].(status := InviteRevoked,
                                                                              revokedAt := At(now))]))
  {
    hide Kept;
    if id in s.invites {
      KeptInvite(s, id);
    }
  }

  /** Storing a new invite. */
  lemma IssueIff(s: State, i: Invite)
    ensures var p := IssuePlan(s, i);
            && (p.ok <==> i.id !in s.invites && i.status == Issued && i.clientID == "")
            && (!p.ok ==> p.writes == [])
            && (p.ok ==> Final(s, p) == s.(invites := s.invites[i.id := i]))
  {
  }

  /** An issued invite lapses at its expiry, and nothing else changes. */
  lemma LapseIff(s: State, id: string, now: int)
    requires Kept(s)
    ensures var p := LapsePlan(s, id, now);
            && p.ok
            && Final(s, p) == if id in s.invites && s.invites[id].status == Issued && s.invites[id].expiresAt <= now
                              then s.(invites := s.invites[id := s.invites[id].(status := InviteExpired)]) else s
  {
    hide Kept;
    if id in s.invites {
      KeptInvite(s, id);
    }
  }
}

/**
 internal/enrollment/clients.go: rotation converges. One rotation request may be
 retried after any number of crashes, and anything else may happen in between that
 leaves the client's record alone; an attempt before the expiry then completes it.
 */
module Rotation {
  import opened KeyLines
  import opened Grants
  import opened GrantRuns

  /** A rotation that the client with record r may make, and that is not already recorded. */
  predicate Startable(env: Env, r: Client, q: Manage)
  {
    && q.wellFormed && KeyAccepted(q.newKey) && r.id == q.id && r.status.Active? && r.tunnel == q.tunnel
    && r.notAfter.At? && TokenMatches(env, r.token, q.token) && !RotationDone(env, r, q)
  }

  function NewEntry(env: Env, r: Client, q: Manage): (line: string)
    requires r.notAfter.At?
  {
    Entry(env, q.newKey, r.notAfter.time)
  }

  /** The record of the rotation started at a given time. */
  function PendingRecord(env: Env, r: Client, q: Manage, at: int): (c: Client)
  {
    Begun(r, RotationPending, at).(pendingKey := q.newKey, pendingToken := env.hash(q.nextToken))
  }

  ghost predicate IsPending(env: Env, r: Client, q: Manage, c: Client)
  {
    exists at :: c == PendingRecord(env, r, q, at)
  }

  /** The completed record; only its generation depends on when the rotation completed. */
  ghost predicate IsRotated(env: Env, r: Client, q: Manage, c: Client)
  {
    exists at :: c == RotatedRecord(env, r, q, at)
  }

  /** The records that interrupted attempts can leave behind. */
  ghost predicate Underway(env: Env, r: Client, q: Manage, s: State)
  {
    && q.id in s.clients
    && var c := s.clients[q.id];
       c == r || IsPending(env, r, q, c) || IsRotated(env, r, q, c)
  }

  /** The outcome t of a rotation completed from the state s. */
  ghost predicate Completed(env: Env, r: Client, q: Manage, s: State, t: State)
    requires r.notAfter.At?
  {
    && q.id in t.clients && t.clients == s.clients[q.id := t.clients[q.id]] && t.invites == s.invites
    && IsRotated(env, r, q, t.clients[q.id]) && t.lines == Replaced(s.lines, r.key, NewEntry(env, r, q))
  }

  lemma RotatedFromPending(env: Env, r: Client, q: Manage, at: int, now: int)
    ensures RotatedRecord(env, PendingRecord(env, r, q, at), q, now) == RotatedRecord(env, r, q, now)
  {
  }

  //////////////////////////////////////////////////////////////////////////////
  // One attempt, from any authorized keys
  //////////////////////////////////////////////////////////////////////////////

  /** An attempt on the untouched record. */
  lemma FirstAttempt(env: Env, r: Client, q: Manage, s: State, now: int, k: nat)
    requires Startable(env, r, q) && !Due(r.notAfter, now) && q.id in s.clients && s.clients[q.id] == r
    ensures var p := RotatePlan(env, s, q, now);
            p.ok && |p.writes| == 3 && (k <= 3 ==> Underway(env, r, q, AtWrite(s, p, k)))
            && Completed(env, r, q, s, Final(s, p))
  {
    hide Replaced, Entry, TokenMatches, KeyAccepted;
    var d := PendingRecord(env, r, q, now);
    assert IsPending(env, r, q, d);
    RotatedFromPending(env, r, q, now, now);
    assert IsRotated(env, r, q, RotatedRecord(env, d, q, now));
  }

  /** An attempt on a record left pending. */
  lemma PendingAttempt(env: Env, r: Client, q: Manage, s: State, now: int, k: nat)
    requires Startable(env, r, q) && !Due(r.notAfter, now) && q.id in s.clients && IsPending(env, r, q, s.clients[q.id])
    ensures var p := RotatePlan(env, s, q, now);
            p.ok && |p.writes| == 2 && (k <= 2 ==> Underway(env, r, q, AtWrite(s, p, k)))
            && Completed(env, r, q, s, Final(s, p))
  {
    hide Replaced, Entry, TokenMatches, KeyAccepted;
    var c := s.clients[q.id];
    var at :| c == PendingRecord(env, r, q, at);
    RotatedFromPending(env, r, q, at, now);
    assert IsRotated(env, r, q, RotatedRecord(env, c, q, now));
  }

  /** An attempt on a record already rotated, at any time. */
  lemma DoneAttempt(env: Env, r: Client, q: Manage, s: State, now: int, k: nat)
    requires Startable(env, r, q) && q.id in s.clients && IsRotated(env, r, q, s.clients[q.id])
    ensures var p := RotatePlan(env, s, q, now);
            p.ok && |p.writes| == 1 && (k <= 1 ==> Underway(env, r, q, AtWrite(s, p, k)))
            && Completed(env, r, q, s, Final(s, p))
  {
    hide Replaced, Entry, KeyAccepted;
  }

  /** An attempt after the expiry is refused, unless the rotation is already recorded. */
  lemma LateAttempt(env: Env, r: Client, q: Manage, s: State, now: int)
    requires Startable(env, r, q) && Due(r.notAfter, now) && Underway(env, r, q, s)
    requires !IsRotated(env, r, q, s.clients[q.id])
    ensures RotatePlan(env, s, q, now) == REFUSE
  {
    hide Replaced, Entry, KeyAccepted, TokenMatches;
  }

  /** An attempt before the expiry succeeds and completes the rotation. */
  lemma Attempt(env: Env, r: Client, q: Manage, s: State, now: int)
    requires Startable(env, r, q) && !Due(r.notAfter, now) && Underway(env, r, q, s)
    ensures RotatePlan(env, s, q, now).ok && Completed(env, r, q, s, Final(s, RotatePlan(env, s, q, now)))
  {
    hide RotatePlan, Replaced, AtWrite, Completed, Startable, IsPending, IsRotated;
    if s.clients[q.id] == r {
      FirstAttempt(env, r, q, s, now, 0);
    } else if IsPending(env, r, q, s.clients[q.id]) {
      PendingAttempt(env, r, q, s, now, 0);
    } else {
      DoneAttempt(env, r, q, s, now, 0);
    }
  }

  /** An attempt at any time, cut off after any of its writes, leaves the rotation underway. */
  lemma CutAttempt(env: Env, r: Client, q: Manage, s: State, now: int, k: nat)
    requires Startable(env, r, q) && Underway(env, r, q, s) && k <= |RotatePlan(env, s, q, now).writes|
    ensures Underway(env, r, q, AtWrite(s, RotatePlan(env, s, q, now), k))
  {
    hide RotatePlan, Replaced, Startable, IsPending, IsRotated;
    if IsRotated(env, r, q, s.clients[q.id]) {
      DoneAttempt(env, r, q, s, now, k);
    } else if Due(r.notAfter, now) {
      LateAttempt(env, r, q, s, now);
    } else if s.clients[q.id] == r {
      FirstAttempt(env, r, q, s, now, k);
    } else {
      PendingAttempt(env, r, q, s, now, k);
    }
  }

  /** The client is active with the key and the next token of the request. */
  predicate RotatedTo(env: Env, s: State, q: Manage)
  {
    && q.id in s.clients && s.clients[q.id].status.Active? && s.clients[q.id].notAfter.At?
    && s.clients[q.id].key == q.newKey && s.clients[q.id].token == env.hash(q.nextToken)
  }

  /** What any successful rotation means. */
  lemma RotateMeans(env: Env, s: State, q: Manage, now: int)
    requires Kept(s) && RotatePlan(env, s, q, now).ok
    ensures var t := Final(s, RotatePlan(env, s, q, now));
            && RotatedTo(env, t, q)
            && t.lines == Replaced(s.lines, t.clients[q.id].prevKey,
                                   Entry(env, q.newKey, t.clients[q.id].notAfter.time))
  {
    hide Replaced, Entry, TokenMatches, KeyAccepted, Kept;
    KeptClient(s, q.id);
  }

  //////////////////////////////////////////////////////////////////////////////
  // Runs
  //////////////////////////////////////////////////////////////////////////////

  /** The event does not change the record of the client. */
  predicate Leaves(env: Env, s: State, e: Event, id: string)
    requires e.writes <= |PlanOf(env, s, e.op).writes|
  {
    var t := AtWrite(s, PlanOf(env, s, e.op), e.writes);
    id in s.clients && id in t.clients && t.clients[id] == s.clients[id]
  }

  /** Every event of the run is an attempt of this rotation, or leaves the client's record alone. */
  predicate Undisturbed(env: Env, s: State, run: seq<Event>, q: Manage)
    requires ValidRun(env, s, run)
    decreases run
  {
    run == [] ||
    (((run[0].op.Rotate? && run[0].op.manage == q) || Leaves(env, s, run[0], q.id))
     && Undisturbed(env, AtWrite(s, PlanOf(env, s, run[0].op), run[0].writes), run[1..], q))
  }

  /** Operations on other clients, enrollments, invites and rewrites of the keys leave the record alone. */
  lemma OthersLeave(env: Env, s: State, e: Event, id: string)
    requires Kept(s) && id in s.clients && e.writes <= |PlanOf(env, s, e.op).writes|
    requires s.clients[id].status.Active? || s.clients[id].status.RotationPending?
    requires Target(env, e.op) != OfClient(id) || e.op.Accept? || e.op.Complete?
    ensures Leaves(env, s, e, id)
  {
    hide Kept, PlanOf;
    if Target(env, e.op) != OfClient(id) {
      OnlyTarget(env, s, e.op, e.writes, id);
    } else {
      NotWritten(env, s, e.op, e.writes, id);
    }
  }

  lemma NotWritten(env: Env, s: State, op: Op, k: nat, id: string)
    requires Kept(s) && id in s.clients && k <= |PlanOf(env, s, op).writes| && (op.Accept? || op.Complete?)
    requires Target(env, op) == OfClient(id)
    requires s.clients[id].status.Active? || s.clients[id].status.RotationPending?
    ensures var t := AtWrite(s, PlanOf(env, s, op), k); id in t.clients && t.clients[id] == s.clients[id]
  {
    hide Kept, Appended, Entry, KeyAccepted, SameEnrollment, Removed;
    KeptClient(s, id);
    if op.Accept? && op.enroll.invite in s.invites {
      KeptInvite(s, op.enroll.invite);
    }
  }

  lemma {:induction false} RunUnderway(env: Env, r: Client, q: Manage, s: State, run: seq<Event>)
    requires Startable(env, r, q) && Underway(env, r, q, s) && ValidRun(env, s, run) && Undisturbed(env, s, run, q)
    ensures Underway(env, r, q, After(env, s, run))
    decreases run
  {
    hide Startable, RotatePlan, AtWrite, IsPending, IsRotated;
    if run != [] {
      var e := run[0];
      if e.op.Rotate? && e.op.manage == q {
        CutAttempt(env, r, q, s, e.op.now, e.writes);
      }
      RunUnderway(env, r, q, AtWrite(s, PlanOf(env, s, e.op), e.writes), run[1..]);
    }
  }

  /**
   After any run that mixes attempts of one rotation, each cut off after any of its
   writes, with events that leave the client's record alone, one more attempt before
   the expiry succeeds. It leaves the rotated record, and replaces the old key by the
   new one in the authorized keys as it found them.
   */
  lemma RotationConverges(env: Env, s0: State, q: Manage, run: seq<Event>, now: int)
    requires q.id in s0.clients && Startable(env, s0.clients[q.id], q) && !Due(s0.clients[q.id].notAfter, now)
    requires ValidRun(env, s0, run) && Undisturbed(env, s0, run, q)
    ensures var s := After(env, s0, run);
            var p := RotatePlan(env, s, q, now);
            p.ok && Completed(env, s0.clients[q.id], q, s, Final(s, p))
  {
    hide Startable, RotatePlan, AtWrite, Completed, PlanOf, ValidRun, After, Undisturbed;
    RunUnderway(env, s0.clients[q.id], q, s0, run);
    Attempt(env, s0.clients[q.id], q, After(env, s0, run), now);
  }

  /**
   What a completed rotation means: the client is active with the new key and the
   next token; the new blob is authorized exactly once, the old one not at all
   unless it is the same blob, and the other lines are kept in their order.
   */
  lemma CompletedMeans(env: Env, r: Client, q: Manage, s: State, t: State, blob: string)
    requires Startable(env, r, q) && Completed(env, r, q, s, t) && Notation(env) && blob != ""
    ensures var c := t.clients[q.id];
            && c.status.Active? && c.key == q.newKey && c.token == env.hash(q.nextToken)
            && c.prevKey == r.key && LeaseOf(c) == LeaseOf(r)
            && Count(t.lines, blob) ==
               (if blob == BlobOf(q.newKey) then 1 else if blob == BlobOf(r.key) then 0 else Count(s.lines, blob))
    ensures t.lines == Without(s.lines, BlobOf(r.key), BlobOf(q.newKey)) + [NewEntry(env, r, q)]
  {
    hide Entry, BlobOf, Count, Without, KeyAccepted, Blankless;
    AcceptedBlob(q.newKey);
    EntryBlob(env, q.newKey, r.notAfter.time);
    ReplacedCount(s.lines, r.key, NewEntry(env, r, q), blob);
  }
}

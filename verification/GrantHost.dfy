/**
 internal/enrollment and internal/command/enroll_server.go: the operations as they
 run, write by write. The field budget is the number of durable writes that still
 succeed; when it is used up the next write fails and the operation ends there.
 */
module GrantHost {
  import opened KeyLines
  import opened Grants
  import opened GrantRuns
  import opened Enrollment
  import opened Guards
  import opened Removals
  import opened Rotation
  import opened Reconcile
  import opened Sessions

  /** The state that a budget of b writes brings a plan to. */
  function Reached(s: State, p: Plan, b: nat): (t: State)
  {
    AtWrite(s, p, if b < |p.writes| then b else |p.writes|)
  }

  /** A plan performed with a budget of b writes: its first writes, and its success if they were all made. */
  ghost predicate Performed(s: State, p: Plan, b: nat, t: State, b': nat, ok: bool)
  {
    && t == Reached(s, p, b) && b' == (if b < |p.writes| then 0 else b - |p.writes|)
    && ok == (p.ok && b >= |p.writes|)
  }

  /** A plan performed in part or whole keeps the invariant and what runs keep. */
  lemma PlanKept(s: State, p: Plan, b: nat)
    requires Kept(s) && Steps(s, p)
    ensures Kept(Reached(s, p, b)) && Outlives(s, Reached(s, p, b))
  {
    hide Kept, Outlives, Steps;
    OutlivesItself(s);
    PlanOutlives(s, s, p, if b < |p.writes| then b else |p.writes|);
  }

  lemma OpKept(env: Env, s: State, op: Op, b: nat)
    requires Kept(s)
    ensures Kept(Reached(s, PlanOf(env, s, op), b)) && Outlives(s, Reached(s, PlanOf(env, s, op), b))
  {
    hide Kept, Outlives, PlanOf, Steps, Reached;
    OpSteps(env, s, op);
    PlanKept(s, PlanOf(env, s, op), b);
  }

  class Host {
    var clients: map<string, Client>
    var invites: map<string, Invite>
    var lines: seq<string>
    var budget: nat

    ghost function View(): (s: State)
      reads this
    {
      State(clients, invites, lines)
    }

    /** writeClientAtomic. */
    method WriteClient(c: Client) returns (ok: bool)
      modifies this
      ensures ok == (old(budget) > 0) && budget == (if ok then old(budget) - 1 else 0)
      ensures View() == if ok then Put(old(View()), c) else old(View())
    {
      ok := budget > 0;
      if ok {
        clients, budget := clients[c.id := c], budget - 1;
      }
    }

    method WriteInvite(i: Invite) returns (ok: bool)
      modifies this
      ensures ok == (old(budget) > 0) && budget == (if ok then old(budget) - 1 else 0)
      ensures View() == if ok then PutInvite(old(View()), i) else old(View())
    {
      ok := budget > 0;
      if ok {
        invites, budget := invites[i.id := i], budget - 1;
      }
    }

    /** writeAuthorizedKeyLines. */
    method WriteLines(ls: seq<string>) returns (ok: bool)
      modifies this
      ensures ok == (old(budget) > 0) && budget == (if ok then old(budget) - 1 else 0)
      ensures View() == if ok then old(View()).(lines := ls) else old(View())
    {
      ok := budget > 0;
      if ok {
        lines, budget := ls, budget - 1;
      }
    }

    /** removeAuthorizedKeyForPublicKey. */
    method RemoveAuthorization(key: string) returns (ok: bool)
      modifies this
      ensures ok == (old(budget) > 0) && budget == (if ok then old(budget) - 1 else 0)
      ensures View() == if ok then RemovedKey(old(View()), key) else old(View())
    {
      var filtered := RemoveLine(lines, key);
      ok := WriteLines(filtered);
    }

    /** completePendingRevocation. */
    method CompletePendingRevocation(env: Env, id: string, now: int) returns (ok: bool)
      requires Kept(View())
      modifies this
      ensures Performed(old(View()), CompletePlan(env, old(View()), id, now), old(budget), View(), budget, ok)
      ensures Kept(View()) && Outlives(old(View()), View())
      ensures ok ==> id in clients && clients[id].status.Revoked?
      ensures ok && !old(clients)[id].status.Revoked? ==> KeyGone(old(clients)[id], old(lines), lines)
      ensures ok ==> MayComplete(old(View()), id)
      ensures MayComplete(old(View()), id) && old(budget) >= 2 ==> ok
      ensures !MayComplete(old(View()), id) ==> View() == old(View())
    {
      hide MayComplete, Kept, Outlives, KeyGone, Removed;
      CompleteIff(env, View(), id, now);
      OpKept(env, View(), Op.Complete(id, now), budget);
      if id in clients && clients[id].status.RevocationPending? {
        CompleteRemoves(env, View(), id, now);
      }
      if id !in clients {
        return false;
      }
      var c := clients[id];
      if c.status.Revoked? {
        return true;
      }
      if !c.status.RevocationPending? {
        return false;
      }
      ok := RemoveAuthorization(c.key);
      if !ok {
        return false;
      }
      ok := WriteClient(RevokedRecord(env, c, now));
    }

    /** RevokeClient. */
    method RevokeClient(env: Env, q: Manage, now: int) returns (ok: bool)
      requires Kept(View())
      modifies this
      ensures Performed(old(View()), RevokePlan(env, old(View()), q, now), old(budget), View(), budget, ok)
      ensures Kept(View()) && Outlives(old(View()), View())
      ensures ok ==> q.id in clients && clients[q.id].status.Revoked? && KeyGone(old(clients)[q.id], old(lines), lines)
      ensures ok ==> MayRevoke(env, old(View()), q)
      ensures MayRevoke(env, old(View()), q) && old(budget) >= 3 ==> ok
      ensures !MayRevoke(env, old(View()), q) ==> View() == old(View())
    {
      hide MayRevoke, Kept, Outlives, KeyGone, Removed;
      RevokeIff(env, View(), q, now);
      OpKept(env, View(), Op.Revoke(q, now), budget);
      if RevokePlan(env, View(), q, now).ok {
        RevokeRemoves(env, View(), q, now);
      }
      if !q.wellFormed || q.id !in clients {
        return false;
      }
      var c := clients[q.id];
      if c.tunnel != q.tunnel {
        return false;
      }
      if c.status.Revoked? {
        if !TokenMatches(env, c.prevToken, q.token) {
          return false;
        }
        ok := RemoveAuthorization(c.key);
        return;
      }
      if !c.status.Active? && !c.status.RevocationPending? && !c.status.ExpirationPending? {
        return false;
      }
      if !TokenMatches(env, c.token, q.token) {
        return false;
      }
      var record := c;
      if c.status.Active? {
        record := Begun(c, RevocationPending, now);
        ok := WriteClient(record);
        if !ok {
          return false;
        }
      }
      ok := RemoveAuthorization(c.key);
      if !ok {
        return false;
      }
      ok := WriteClient(RevokedRecord(env, record, now));
    }

    /** RevokeClientAsHost. */
    method RevokeClientAsHost(env: Env, id: string, now: int) returns (ok: bool)
      requires Kept(View())
      modifies this
      ensures Performed(old(View()), HostRevokePlan(env, old(View()), id, now), old(budget), View(), budget, ok)
      ensures Kept(View()) && Outlives(old(View()), View())
      ensures ok ==> id in old(clients) && BothRemoved(old(clients)[id], View())
      ensures ok ==> MayHostRevoke(old(View()), id)
      ensures MayHostRevoke(old(View()), id) && old(budget) >= 4 ==> ok
      ensures !MayHostRevoke(old(View()), id) ==> View() == old(View())
    {
      hide MayHostRevoke, WithoutBoth, Kept, Outlives, BothRemoved, Removed;
      HostRevokeIff(env, View(), id, now);
      OpKept(env, View(), Op.HostRevoke(id, now), budget);
      if HostRevokePlan(env, View(), id, now).ok {
        HostRevokeRemoves(env, View(), id, now);
      }
      if id !in clients {
        return false;
      }
      var c := clients[id];
      if c.status.Revoked? {
        ok := RemoveAuthorization(c.key);
        return;
      }
      if c.status.EnrollmentPending? || c.status.Expired? {
        return false;
      }
      var record := c;
      if c.status.Active? || c.status.RotationPending? {
        record := Begun(c, RevocationPending, now);
        ok := WriteClient(record);
        if !ok {
          return false;
        }
      }
      ok := RemoveAuthorization(c.key);
      if !ok {
        return false;
      }
      if c.pendingKey != "" && c.pendingKey != c.key {
        ok := RemoveAuthorization(c.pendingKey);
        if !ok {
          return false;
        }
      }
      ok := WriteClient(RevokedRecord(env, record, now).(pendingKey := "", pendingToken := ""));
    }

    /** RotateClientPublicKey, called with the line rendered for the new key. */
    method RotateClientPublicKey(env: Env, q: Manage, now: int) returns (ok: bool)
      requires Kept(View())
      modifies this
      ensures Performed(old(View()), RotatePlan(env, old(View()), q, now), old(budget), View(), budget, ok)
      ensures Kept(View()) && Outlives(old(View()), View())
      ensures ok ==> RotatedTo(env, View(), q)
      ensures ok ==> lines == Replaced(old(lines), clients[q.id].prevKey,
                                       Entry(env, q.newKey, clients[q.id].notAfter.time))
      ensures ok ==> MayRotate(env, old(View()), q, now)
      ensures MayRotate(env, old(View()), q, now) && old(budget) >= 3 ==> ok
      ensures !MayRotate(env, old(View()), q, now) ==> View() == old(View())
    {
      hide MayRotate, Kept, Outlives, RotatedTo, KeyAccepted, Replaced, Entry, TokenMatches;
      RotateIff(env, View(), q, now);
      OpKept(env, View(), Op.Rotate(q, now), budget);
      if RotatePlan(env, View(), q, now).ok {
        RotateMeans(env, View(), q, now);
      }
      if !q.wellFormed || !KeyAccepted(q.newKey) || q.id !in clients {
        return false;
      }
      var c := clients[q.id];
      if !c.notAfter.At? || c.tunnel != q.tunnel {
        return false;
      }
      var entry := Entry(env, q.newKey, c.notAfter.time);
      if RotationDone(env, c, q) {
        var again := ReplaceLine(lines, c.prevKey, entry);
        ok := WriteLines(again);
        return;
      }
      if Due(c.notAfter, now) || (!c.status.Active? && !c.status.RotationPending?)
         || !TokenMatches(env, c.token, q.token) {
        return false;
      }
      var record := c;
      if c.status.Active? {
        record := Begun(c, RotationPending, now).(pendingKey := q.newKey, pendingToken := env.hash(q.nextToken));
        ok := WriteClient(record);
        if !ok {
          return false;
        }
      } else if c.pendingKey != q.newKey || c.pendingToken != env.hash(q.nextToken) {
        return false;
      }
      var replaced := ReplaceLine(lines, c.key, entry);
      ok := WriteLines(replaced);
      if !ok {
        return false;
      }
      ok := WriteClient(RotatedRecord(env, record, q, now));
    }

    /** ExpireClient with ExecuteExpire. */
    method ExpireClient(env: Env, id: string, now: int) returns (ok: bool)
      requires Kept(View())
      modifies this
      ensures Performed(old(View()), ExpirePlan(env, old(View()), id, now), old(budget), View(), budget, ok)
      ensures Kept(View()) && Outlives(old(View()), View())
      ensures ok ==> id in clients && clients[id].status.Expired?
      ensures ok && !old(clients)[id].status.Expired? ==> KeyGone(old(clients)[id], old(lines), lines)
      ensures ok ==> MayExpire(old(View()), id, now)
      ensures MayExpire(old(View()), id, now) && old(budget) >= 3 ==> ok
      ensures !MayExpire(old(View()), id, now) ==> View() == old(View())
    {
      hide MayExpire, Kept, Outlives, KeyGone, Removed, Absent, ExpiryAllowed;
      ExpireIff(env, View(), id, now);
      OpKept(env, View(), Op.Expire(id, now), budget);
      if id in clients && !clients[id].status.Expired? {
        ExpireRemoves(env, View(), id, now);
      }
      if id !in clients {
        return false;
      }
      var c := clients[id];
      if c.status.Expired? {
        return true;
      }
      if !c.notAfter.At? || !ExpiryAllowed(c, now) {
        return false;
      }
      var record := c;
      if !c.status.ExpirationPending? {
        record := Begun(c, ExpirationPending, now);
        ok := WriteClient(record);
        if !ok {
          return false;
        }
      }
      ok := RemoveAuthorization(c.key);
      if !ok {
        return false;
      }
      if !Absent(lines, c.key) {
        return false;
      }
      ok := WriteClient(BurnedToken(env, record, now).(status := Expired, expiredAt := At(now), opStarted := NoStamp));
    }

    /** resumeAcceptedEnrollment. */
    method ResumeAcceptedEnrollment(env: Env, i: Invite, q: Enroll) returns (reply: Reply)
      modifies this
      ensures var a := ResumeAccepted(env, old(View()), i, q);
              && Performed(old(View()), a.plan, old(budget), View(), budget, reply.Proof?)
              && (reply.Proof? ==> reply == a.reply)
    {
      hide Appended, Entry;
      var id := env.idOf(i.id, q.key);
      if i.clientID != id || id !in clients {
        return Refused;
      }
      var c := clients[id];
      if !c.status.Active? || c.invite != i.id || c.tunnel != q.tunnel || c.key != q.key
         || c.token != env.hash(q.token) || c.terms.published != q.terms.published || !c.notAfter.At? {
        return Refused;
      }
      var appended := AppendLine(lines, Entry(env, q.key, c.notAfter.time));
      var ok := WriteLines(appended);
      return if ok then Proof(id, q.key, LeaseOf(c)) else Refused;
    }

    /** The writes of Accept once the invite is found good: client, line, activation, consumption. */
    method Enrol(env: Env, i: Invite, q: Enroll, now: int) returns (reply: Reply)
      requires q.wellFormed && KeyAccepted(q.key) && q.invite in invites && invites[q.invite] == i && i.status.Issued?
      requires i.nonce == q.nonce && i.clientName == q.clientName && i.terms == q.terms
      requires now < i.expiresAt && i.duration > 0
      modifies this
      ensures var a := AcceptPlan(env, old(View()), q, now);
              && Performed(old(View()), a.plan, old(budget), View(), budget, reply.Proof?)
              && (reply.Proof? ==> reply == a.reply)
    {
      hide Appended, Entry, SameEnrollment, KeyAccepted;
      var want := PendingClient(env, i, q, now);
      var c := want;
      if want.id in clients {
        c := clients[want.id];
        if !SameEnrollment(c, want) || !c.notAfter.At? {
          return Refused;
        }
      } else {
        var stored := WriteClient(want);
        if !stored {
          return Refused;
        }
      }
      var appended := AppendLine(lines, Entry(env, q.key, c.notAfter.time));
      var ok := WriteLines(appended);
      if !ok {
        return Refused;
      }
      if c.status.EnrollmentPending? {
        ok := WriteClient(c.(status := Active));
        if !ok {
          return Refused;
        }
      }
      ok := WriteInvite(ConsumedInvite(i, want.id, now));
      return if ok then Proof(want.id, q.key, LeaseOf(c)) else Refused;
    }

    /** Accept. */
    method Accept(env: Env, q: Enroll, now: int) returns (reply: Reply)
      requires Kept(View())
      modifies this
      ensures var a := AcceptPlan(env, old(View()), q, now);
              && Performed(old(View()), a.plan, old(budget), View(), budget, reply.Proof?)
              && (reply.Proof? ==> reply == a.reply)
      ensures Kept(View()) && Outlives(old(View()), View())
      ensures reply.Proof? ==> EnrolledAs(env, View(), q, reply)
      ensures reply.Proof? ==> MayEnroll(env, old(View()), q, now) || MayResume(env, old(View()), q)
      ensures (MayEnroll(env, old(View()), q, now) || MayResume(env, old(View()), q)) && old(budget) >= 4 ==>
                reply.Proof?
      ensures !MayEnroll(env, old(View()), q, now) && !MayResume(env, old(View()), q) ==>
                clients == old(clients) && lines == old(lines)
    {
      hide MayEnroll, MayResume, Kept, Outlives, EnrolledAs, KeyAccepted, Appended, Entry, SameEnrollment;
      hide ResumeAccepted;
      AcceptIff(env, View(), q, now);
      OpKept(env, View(), Op.Accept(q, now), budget);
      if AcceptPlan(env, View(), q, now).reply.Proof? {
        ProofMeans(env, View(), q, now);
      }
      if !q.wellFormed || !KeyAccepted(q.key) || q.invite !in invites {
        return Refused;
      }
      var i := invites[q.invite];
      if i.terms.published != q.terms.published {
        return Refused;
      }
      if i.status.Consumed? {
        reply := ResumeAcceptedEnrollment(env, i, q);
        return;
      }
      if !i.status.Issued? || i.nonce != q.nonce || i.clientName != q.clientName || i.terms != q.terms {
        return Refused;
      }
      if i.expiresAt <= now {
        var lapsed := WriteInvite(i.(status := InviteExpired));
        return Refused;
      }
      if i.duration <= 0 {
        return Refused;
      }
      reply := Enrol(env, i, q, now);
    }

    /** Cancel. */
    method CancelInvite(id: string, now: int) returns (ok: bool)
      requires Kept(View())
      modifies this
      ensures Performed(old(View()), CancelPlan(old(View()), id, now), old(budget), View(), budget, ok)
      ensures Kept(View()) && Outlives(old(View()), View())
      ensures ok ==> id in invites && invites[id].status.Cancelled?
    {
      hide Kept, Outlives;
      if id in invites {
        KeptInvite(View(), id);
      }
      CancelSteps(View(), id, now);
      PlanKept(View(), CancelPlan(View(), id, now), budget);
      if id !in invites {
        return false;
      }
      var i := invites[id];
      if i.status.Cancelled? {
        return true;
      }
      if i.status.Consumed? || i.status.InviteRevoked? {
        return false;
      }
      ok := WriteInvite(i.(status := Cancelled, revokedAt := At(now)));
    }

    /** Revoke. */
    method RevokeInvite(id: string, now: int) returns (ok: bool)
      requires Kept(View())
      modifies this
      ensures Performed(old(View()), RevokeInvitePlan(old(View()), id, now), old(budget), View(), budget, ok)
      ensures Kept(View()) && Outlives(old(View()), View())
      ensures ok ==> id in invites && invites[id].status.InviteRevoked?
    {
      hide Kept, Outlives;
      if id in invites {
        KeptInvite(View(), id);
      }
      RevokeInviteSteps(View(), id, now);
      PlanKept(View(), RevokeInvitePlan(View(), id, now), budget);
      if id !in invites {
        return false;
      }
      var i := invites[id];
      if i.status.InviteRevoked? {
        return true;
      }
      if i.status.Issued? || i.status.Cancelled? {
        return false;
      }
      ok := WriteInvite(i.(status := InviteRevoked, revokedAt := At(now)));
    }

    /** ReconcilePendingRevocations over a listing. */
    method ReconcilePendingRevocations(env: Env, records: seq<Client>, now: int) returns (ok: bool)
      requires Kept(View())
      modifies this
      ensures Performed(old(View()), Revocations(env, old(View()), records, now, |records|), old(budget),
                        View(), budget, ok)
      ensures Kept(View()) && Outlives(old(View()), View())
      ensures ok && Listing(old(View()), records) ==>
                forall id :: id in clients ==> id in old(clients) && Revised(false, old(clients)[id], clients[id], now)
    {
      hide Kept, Outlives, CompletePlan, Performed, KeyGone, Revised, Listing;
      ghost var s := View();
      NothingPerformed(s, budget);
      OutlivesItself(s);
      ok := true;
      for n := 0 to |records|
        invariant Kept(View()) && Outlives(s, View())
        invariant Performed(s, Revocations(env, s, records, now, n), old(budget), View(), budget, ok)
      {
        if !records[n].status.RevocationPending? {
          continue;
        }
        ghost var t, b := View(), budget;
        var done := CompletePendingRevocation(env, records[n].id, now);
        OutlivesThen(s, t, View());
        ghost var p := Revocations(env, s, records, now, n);
        PerformedThen(s, p, old(budget), t, b, ok, CompletePlan(env, t, records[n].id, now),
                      CompletePlan(env, Final(s, p), records[n].id, now), View(), budget, done);
        ok := ok && done;
      }
      if ok && Listing(s, records) {
        PerformedWhole(s, Revocations(env, s, records, now, |records|), old(budget), View(), budget);
        RevocationsProgress(env, s, records, now, |records|);
        AllRevised(false, s, View(), records, now);
      }
    }

    /** ReconcileExpiredClients over a listing. */
    method ReconcileExpiredClients(env: Env, records: seq<Client>, now: int) returns (ok: bool)
      requires Kept(View())
      modifies this
      ensures Performed(old(View()), Expiries(env, old(View()), records, now, |records|).plan, old(budget),
                        View(), budget, ok)
      ensures Kept(View()) && Outlives(old(View()), View())
      ensures ok && Listing(old(View()), records) ==>
                forall id :: id in clients ==> id in old(clients) && Revised(true, old(clients)[id], clients[id], now)
    {
      hide Kept, Outlives, ExpirePlan, Performed, KeyGone, Revised, Listing, Unreadable, ToExpire;
      ghost var s := View();
      NothingPerformed(s, budget);
      OutlivesItself(s);
      ok := true;
      for n := 0 to |records|
        invariant Kept(View()) && Outlives(s, View())
        invariant !Expiries(env, s, records, now, n).stopped
        invariant Performed(s, Expiries(env, s, records, now, n).plan, old(budget), View(), budget, ok)
      {
        ghost var p := Expiries(env, s, records, now, n).plan;
        if Unreadable(records[n]) {
          StoppedStays(env, s, records, now, n + 1, |records|);
          PerformedFails(s, p, old(budget), View(), budget, ok);
          return false;
        }
        if !ToExpire(records[n], now) {
          continue;
        }
        ghost var t, b := View(), budget;
        var done := ExpireClient(env, records[n].id, now);
        OutlivesThen(s, t, View());
        PerformedThen(s, p, old(budget), t, b, ok, ExpirePlan(env, t, records[n].id, now),
                      ExpirePlan(env, Final(s, p), records[n].id, now), View(), budget, done);
        ok := ok && done;
      }
      if ok && Listing(s, records) {
        PerformedWhole(s, Expiries(env, s, records, now, |records|).plan, old(budget), View(), budget);
        ExpiriesProgress(env, s, records, now, |records|);
        AllRevised(true, s, View(), records, now);
      }
    }

    /** reconcileManagedAuthorizations over a listing, with its readings of the clock. */
    method ReconcileManagedAuthorizations(env: Env, records: seq<Client>, clock: seq<int>) returns (ok: bool)
      requires Kept(View()) && |clock| == |records|
      modifies this
      ensures Kept(View()) && Outlives(old(View()), View())
      ensures var r := RebuiltLines(env, records, clock, |records|);
              && ok == (r.Rebuilt? && old(budget) > 0)
              && View() == if ok then old(View()).(lines := r.lines) else old(View())
    {
      hide Entry, BlobOf, Count, Kept, Outlives;
      ghost var s := View();
      OutlivesItself(s);
      var rebuilt: seq<string> := [];
      for n := 0 to |records|
        invariant RebuiltLines(env, records, clock, n) == Rebuilt(rebuilt) && View() == s && budget == old(budget)
      {
        var c := records[n];
        if (!c.status.Active? && !c.status.RotationPending?) || c.notAfter.NoStamp? {
          continue;
        }
        if c.notAfter.BadStamp? {
          FailureStays(env, records, clock, n + 1, |records|);
          return false;
        }
        if Due(c.notAfter, clock[n]) {
          continue;
        }
        if c.terms.target != env.target {
          FailureStays(env, records, clock, n + 1, |records|);
          return false;
        }
        var entry := EntryOf(env, c);
        if Count(rebuilt, BlobOf(entry)) > 0 {
          continue;
        }
        rebuilt := rebuilt + [entry];
      }
      LinesStep(s, rebuilt);
      StepOutlives(s, s, s.(lines := rebuilt));
      ok := WriteLines(rebuilt);
    }
  }

  lemma NothingPerformed(s: State, b: nat)
    ensures Performed(s, Plan([], true), b, s, b, true)
  {
  }

  /** A failure is reported whatever follows. */
  lemma PerformedFails(s: State, p: Plan, b: nat, t: State, b': nat, ok: bool)
    requires Performed(s, p, b, t, b', ok)
    ensures Performed(s, p.(ok := false), b, t, b', false)
  {
  }

  lemma PerformedWhole(s: State, p: Plan, b: nat, t: State, b': nat)
    requires Performed(s, p, b, t, b', true)
    ensures p.ok && t == Final(s, p)
  {
  }

  /**
   Two plans one after the other; once a write failed, the second plan, made for the state reached,
   writes nothing.
   */
  lemma PerformedThen(s: State, p: Plan, b: nat, t: State, b': nat, ok: bool, made: Plan, q: Plan, u: State, b'': nat,
                      done: bool)
    requires Performed(s, p, b, t, b', ok) && Performed(t, made, b', u, b'', done)
    requires t == Final(s, p) ==> made == q
    ensures Performed(s, Then(p, q), b, u, b'', ok && done)
  {
    var k := if b < |p.writes| + |q.writes| then b else |p.writes| + |q.writes|;
    ThenAt(s, p, q, k);
  }

  lemma OutlivesThen(s: State, t: State, u: State)
    requires Outlives(s, t) && Outlives(t, u)
    ensures Outlives(s, u)
  {
  }

  lemma {:induction false} StoppedStays(env: Env, s: State, records: seq<Client>, now: int, i: nat, n: nat)
    requires i <= n <= |records| && Expiries(env, s, records, now, i).stopped
    ensures Expiries(env, s, records, now, n) == Expiries(env, s, records, now, i)
    decreases n
  {
    hide ExpirePlan;
    if i < n {
      StoppedStays(env, s, records, now, i, n - 1);
    }
  }

  lemma {:induction false} FailureStays(env: Env, records: seq<Client>, clock: seq<int>, i: nat, n: nat)
    requires i <= n <= |records| == |clock| && RebuiltLines(env, records, clock, i).RebuildFailed?
    ensures RebuiltLines(env, records, clock, n).RebuildFailed?
    decreases n
  {
    hide BlobOf, Entry, Count;
    if i < n {
      FailureStays(env, records, clock, i, n - 1);
    }
  }
}

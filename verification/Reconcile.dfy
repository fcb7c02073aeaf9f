/**
 internal/enrollment/clients.go and internal/command/enroll_server.go: the
 reconcile pass that runs before the host reports ready, and what it leaves.
 */
module Reconcile {
  import opened KeyLines
  import opened Grants
  import opened GrantRuns
  import opened Sessions

  /** One plan after another. */
  function Then(p: Plan, q: Plan): (r: Plan)
  {
    Plan(p.writes + q.writes, p.ok && q.ok)
  }

  lemma ThenAt(s: State, p: Plan, q: Plan, k: nat)
    requires k <= |p.writes| + |q.writes|
    ensures AtWrite(s, Then(p, q), k)
            == if k <= |p.writes| then AtWrite(s, p, k) else AtWrite(Final(s, p), q, k - |p.writes|)
    ensures Final(s, Then(p, q)) == Final(Final(s, p), q)
  {
  }

  lemma ThenSteps(s: State, p: Plan, q: Plan)
    requires Steps(s, p) && Steps(Final(s, p), q)
    ensures Steps(s, Then(p, q))
  {
    hide StateStep, Kept;
    var r := Then(p, q);
    forall k | 0 <= k < |r.writes|
      ensures StateStep(AtWrite(s, r, k), r.writes[k]) && Kept(r.writes[k])
    {
      ThenAt(s, p, q, k);
      if k >= |p.writes| {
        assert r.writes[k] == q.writes[k - |p.writes|];
      }
    }
  }

  /** The writes of a loop over the records, and whether it stopped early. */
  datatype Pass = Pass(plan: Plan, stopped: bool)

  //////////////////////////////////////////////////////////////////////////////
  // One record
  //////////////////////////////////////////////////////////////////////////////

  lemma CompleteOne(env: Env, s: State, c: Client, now: int)
    requires c.id in s.clients && s.clients[c.id] == c && c.status.RevocationPending?
    ensures var p := CompletePlan(env, s, c.id, now);
            p.ok && Final(s, p).clients == s.clients[c.id := RevokedRecord(env, c, now)]
  {
    hide Removed;
  }

  function ExpiredRecord(env: Env, c: Client, now: int): (d: Client)
  {
    var b := if c.status.ExpirationPending? then c else Begun(c, ExpirationPending, now);
    BurnedToken(env, b, now).(status := Expired, expiredAt := At(now), opStarted := NoStamp)
  }

  lemma ExpireOne(env: Env, s: State, c: Client, now: int)
    requires c.id in s.clients && s.clients[c.id] == c && !c.status.Expired?
    ensures var p := ExpirePlan(env, s, c.id, now);
            p.ok ==> Final(s, p).clients == s.clients[c.id := ExpiredRecord(env, c, now)]
  {
    hide Removed, Absent, ExpiryAllowed;
    var p := ExpirePlan(env, s, c.id, now);
    if p.ok {
      var d := if c.status.ExpirationPending? then c else Begun(c, ExpirationPending, now);
      var s2 := RemovedKey(Put(s, d), c.key);
      assert Final(s, p) == Put(s2, ExpiredRecord(env, c, now));
    }
  }

  //////////////////////////////////////////////////////////////////////////////
  // The two loops
  //////////////////////////////////////////////////////////////////////////////

  /** ReconcilePendingRevocations over the first n records of the listing. */
  function Revocations(env: Env, s: State, records: seq<Client>, now: int, n: nat): (p: Plan)
    requires n <= |records|
  {
    if n == 0 then Plan([], true)
    else
      var before := Revocations(env, s, records, now, n - 1);
      var c := records[n - 1];
      if !c.status.RevocationPending? then before
      else Then(before, CompletePlan(env, Final(s, before), c.id, now))
  }

  /** The records ReconcileExpiredClients expires: due, or already on the way. */
  predicate ToExpire(c: Client, now: int)
  {
    && (c.status.Active? || c.status.ExpirationPending? || c.status.RotationPending?)
    && c.notAfter.At? && (c.status.ExpirationPending? || Due(c.notAfter, now))
  }

  /** A record whose expiry the loop must read and cannot. */
  predicate Unreadable(c: Client)
  {
    c.notAfter.BadStamp? && (c.status.Active? || c.status.ExpirationPending? || c.status.RotationPending?)
  }

  /** ReconcileExpiredClients over the first n records; an unparsable expiry stops it. */
  function Expiries(env: Env, s: State, records: seq<Client>, now: int, n: nat): (p: Pass)
    requires n <= |records|
  {
    if n == 0 then Pass(Plan([], true), false)
    else
      var before := Expiries(env, s, records, now, n - 1);
      var c := records[n - 1];
      if before.stopped then before
      else if Unreadable(c) then Pass(before.plan.(ok := false), true)
      else if !ToExpire(c, now) then before
      else Pass(Then(before.plan, ExpirePlan(env, Final(s, before.plan), c.id, now)), false)
  }

  /** Every write of the loops is a step between kept states, so leases and terminal records are kept. */
  lemma {:induction false} RevocationsSteps(env: Env, s: State, records: seq<Client>, now: int, n: nat)
    requires Kept(s) && n <= |records|
    ensures Steps(s, Revocations(env, s, records, now, n)) && Kept(Final(s, Revocations(env, s, records, now, n)))
  {
    hide Kept, CompletePlan, Then, StateStep;
    if n > 0 {
      RevocationsSteps(env, s, records, now, n - 1);
      var before := Revocations(env, s, records, now, n - 1);
      var c := records[n - 1];
      if c.status.RevocationPending? {
        var t := Final(s, before);
        CompleteSteps(env, t, c.id, now);
        ThenKept(s, before, CompletePlan(env, t, c.id, now));
      }
    }
  }

  lemma {:induction false} ExpiriesSteps(env: Env, s: State, records: seq<Client>, now: int, n: nat)
    requires Kept(s) && n <= |records|
    ensures Steps(s, Expiries(env, s, records, now, n).plan) && Kept(Final(s, Expiries(env, s, records, now, n).plan))
  {
    hide Kept, ExpirePlan, Then, StateStep, Unreadable, ToExpire;
    if n > 0 {
      ExpiriesSteps(env, s, records, now, n - 1);
      var before := Expiries(env, s, records, now, n - 1);
      var c := records[n - 1];
      if !before.stopped && !Unreadable(c) && ToExpire(c, now) {
        var t := Final(s, before.plan);
        ExpireSteps(env, t, c.id, now);
        ThenKept(s, before.plan, ExpirePlan(env, t, c.id, now));
      }
    }
  }

  lemma ThenKept(s: State, p: Plan, q: Plan)
    requires Kept(s) && Steps(s, p) && Steps(Final(s, p), q)
    ensures Steps(s, Then(p, q)) && Kept(Final(s, Then(p, q)))
  {
    hide Kept, Then, StateStep;
    ThenSteps(s, p, q);
    OutlivesItself(s);
    PlanOutlives(s, s, Then(p, q), |Then(p, q).writes|);
  }

  /** The two records are of one grant: its key, lease and terms are the same. */
  predicate SameGrant(c: Client, d: Client)
  {
    d.id == c.id && d.key == c.key && LeaseOf(d) == LeaseOf(c) && d.terms == c.terms
  }

  /** What a loop makes of the record c: d. */
  predicate Revised(expiring: bool, c: Client, d: Client, now: int)
  {
    && SameGrant(c, d)
    && if expiring then (if ToExpire(c, now) then d.status.Expired? else d == c && !Unreadable(c))
       else (if c.status.RevocationPending? then d.status.Revoked? else d == c)
  }

  /** The first n records are revised, the others untouched. */
  predicate Progress(expiring: bool, s: State, t: State, records: seq<Client>, now: int, n: nat)
  {
    && t.clients.Keys == s.clients.Keys
    && forall i :: 0 <= i < |records| ==>
         && records[i].id in t.clients
         && (i < n ==> Revised(expiring, records[i], t.clients[records[i].id], now))
         && (i >= n ==> t.clients[records[i].id] == records[i])
  }

  lemma StartProgress(expiring: bool, s: State, records: seq<Client>, now: int)
    requires Listing(s, records)
    ensures Progress(expiring, s, s, records, now, 0)
  {
    hide Revised;
  }

  /** One more record is revised in place. */
  lemma Advance(expiring: bool, s: State, t: State, u: State, records: seq<Client>, now: int, n: nat)
    requires Listing(s, records) && n < |records| && Progress(expiring, s, t, records, now, n)
    requires var id := records[n].id;
             id in u.clients && u.clients == t.clients[id := u.clients[id]]
             && Revised(expiring, records[n], u.clients[id], now)
    ensures Progress(expiring, s, u, records, now, n + 1)
  {
    hide Revised;
    var id := records[n].id;
    assert u.clients.Keys == t.clients.Keys;
    forall i | 0 <= i < |records|
      ensures records[i].id in u.clients
      ensures i < n + 1 ==> Revised(expiring, records[i], u.clients[records[i].id], now)
      ensures i >= n + 1 ==> u.clients[records[i].id] == records[i]
    {
      assert i != n ==> records[i].id != id;
    }
  }

  lemma {:induction false} RevocationsProgress(env: Env, s: State, records: seq<Client>, now: int, n: nat)
    requires Listing(s, records) && n <= |records|
    ensures var p := Revocations(env, s, records, now, n);
            p.ok && Progress(false, s, Final(s, p), records, now, n)
  {
    hide Listing, Progress, CompletePlan, Final, Then;
    if n == 0 {
      assert Final(s, Plan([], true)) == s by {
        NoWrites(s);
      }
      StartProgress(false, s, records, now);
    } else {
      RevocationsProgress(env, s, records, now, n - 1);
      var before := Revocations(env, s, records, now, n - 1);
      var t := Final(s, before);
      var c := records[n - 1];
      NotReached(false, s, t, records, now, n - 1);
      if c.status.RevocationPending? {
        CompleteOne(env, t, c, now);
        ThenFinal(s, before, CompletePlan(env, t, c.id, now));
      }
      Advance(false, s, t, Final(s, Revocations(env, s, records, now, n)), records, now, n - 1);
    }
  }

  lemma NoWrites(s: State)
    ensures Final(s, Plan([], true)) == s
  {
  }

  lemma ThenFinal(s: State, p: Plan, q: Plan)
    ensures Final(s, Then(p, q)) == Final(Final(s, p), q) && Then(p, q).ok == (p.ok && q.ok)
  {
    ThenAt(s, p, q, 0);
  }

  lemma NotReached(expiring: bool, s: State, t: State, records: seq<Client>, now: int, n: nat)
    requires n < |records| && Progress(expiring, s, t, records, now, n)
    ensures records[n].id in t.clients && t.clients[records[n].id] == records[n]
    ensures t.clients == t.clients[records[n].id := t.clients[records[n].id]]
  {
    hide Revised;
  }

  lemma {:induction false} ExpiriesProgress(env: Env, s: State, records: seq<Client>, now: int, n: nat)
    requires Listing(s, records) && n <= |records|
    ensures var p := Expiries(env, s, records, now, n);
            (p.stopped ==> !p.plan.ok) && (p.plan.ok ==> Progress(true, s, Final(s, p.plan), records, now, n))
  {
    hide Listing, Progress, ExpirePlan, Final, Then;
    if n == 0 {
      NoWrites(s);
      StartProgress(true, s, records, now);
    } else {
      ExpiriesProgress(env, s, records, now, n - 1);
      var before := Expiries(env, s, records, now, n - 1);
      var t := Final(s, before.plan);
      var c := records[n - 1];
      ThenFinal(s, before.plan, ExpirePlan(env, t, c.id, now));
      if Expiries(env, s, records, now, n).plan.ok {
        NotReached(true, s, t, records, now, n - 1);
        if ToExpire(c, now) {
          ExpireOne(env, t, c, now);
        }
        Advance(true, s, t, Final(s, Expiries(env, s, records, now, n).plan), records, now, n - 1);
      }
    }
  }

  /** The records that a loop leaves, for every client. */
  lemma AllRevised(expiring: bool, s: State, t: State, records: seq<Client>, now: int)
    requires Listing(s, records) && Progress(expiring, s, t, records, now, |records|)
    ensures forall id :: id in t.clients ==> id in s.clients && Revised(expiring, s.clients[id], t.clients[id], now)
  {
    hide Revised;
    forall id | id in t.clients
      ensures id in s.clients && Revised(expiring, s.clients[id], t.clients[id], now)
    {
      assert id in s.clients;
      var i :| 0 <= i < |records| && records[i].id == id;
      assert s.clients[id] == records[i];
    }
  }

  /** No pending removal, and nothing effective past its time. */
  predicate Settled(c: Client, now: int)
  {
    && !c.status.RevocationPending? && !c.status.ExpirationPending?
    && (c.status.Active? || c.status.RotationPending? ==> !Due(c.notAfter, now) && !c.notAfter.BadStamp?)
  }

  /** What both loops make of a record with a readable expiry. */
  predicate Reconciled(c: Client, d: Client, now: int)
  {
    && SameGrant(c, d) && Settled(d, now)
    && (if c.status == RevocationPending then d.status.Revoked?
        else if && c.notAfter.At?
                && (c.status == ExpirationPending
                    || ((c.status == Active || c.status == RotationPending) && c.notAfter.time <= now))
        then d.status.Expired?
        else d == c)
  }

  lemma RevisedTwice(c: Client, d: Client, e: Client, now: int)
    requires !c.notAfter.NoStamp? && Revised(false, c, d, now) && Revised(true, d, e, now)
    ensures Reconciled(c, e, now)
  {
  }

  /**
   After both loops succeeded at time now over records with nonempty expiries: no
   record is revocation_pending or expiration_pending, none is both due and active or
   rotation_pending, and every other record is as it was.
   */
  lemma PassSettles(env: Env, s: State, records: seq<Client>, r: State, records': seq<Client>, now: int)
    requires Listing(s, records) && (forall id :: id in s.clients ==> !s.clients[id].notAfter.NoStamp?)
    requires r == Final(s, Revocations(env, s, records, now, |records|)) && Listing(r, records')
    requires Expiries(env, r, records', now, |records'|).plan.ok
    ensures var t := Final(r, Expiries(env, r, records', now, |records'|).plan);
            && t.clients.Keys == s.clients.Keys
            && forall id :: id in t.clients ==> Reconciled(s.clients[id], t.clients[id], now)
  {
    hide Listing, Progress, Revocations, Expiries, Revised, Reconciled, Final;
    RevocationsProgress(env, s, records, now, |records|);
    AllRevised(false, s, r, records, now);
    SameKeys(false, s, r, records, now, |records|);
    ExpiriesProgress(env, r, records', now, |records'|);
    var t := Final(r, Expiries(env, r, records', now, |records'|).plan);
    AllRevised(true, r, t, records', now);
    SameKeys(true, r, t, records', now, |records'|);
    forall id | id in t.clients
      ensures Reconciled(s.clients[id], t.clients[id], now)
    {
      RevisedTwice(s.clients[id], r.clients[id], t.clients[id], now);
    }
  }

  lemma SameKeys(expiring: bool, s: State, t: State, records: seq<Client>, now: int, n: nat)
    requires Progress(expiring, s, t, records, now, n)
    ensures t.clients.Keys == s.clients.Keys
  {
  }

  //////////////////////////////////////////////////////////////////////////////
  // The authorized keys
  //////////////////////////////////////////////////////////////////////////////

  /** The records whose key reconcileManagedAuthorizations writes at time now. */
  predicate Effective(c: Client, now: int)
  {
    (c.status.Active? || c.status.RotationPending?) && c.notAfter.At? && !Due(c.notAfter, now)
  }

  function EntryOf(env: Env, c: Client): (line: string)
    requires c.notAfter.At?
  {
    Entry(env, c.key, c.notAfter.time)
  }

  datatype Rebuild = Rebuilt(lines: seq<string>) | RebuildFailed

  /**
   reconcileManagedAuthorizations: one line per effective record and blob; it fails on
   a bad expiry or a foreign target. It reads the clock for every record.
   */
  function RebuiltLines(env: Env, records: seq<Client>, clock: seq<int>, n: nat): (r: Rebuild)
    requires n <= |records| == |clock|
  {
    if n == 0 then Rebuilt([])
    else
      var before := RebuiltLines(env, records, clock, n - 1);
      var c := records[n - 1];
      if before.RebuildFailed? then before
      else if !c.status.Active? && !c.status.RotationPending? then before
      else if c.notAfter.NoStamp? then before
      else if c.notAfter.BadStamp? then RebuildFailed
      else if Due(c.notAfter, clock[n - 1]) then before
      else if c.terms.target != env.target then RebuildFailed
      else
        var entry := EntryOf(env, c);
        if Count(before.lines, BlobOf(entry)) > 0 then before else Rebuilt(before.lines + [entry])
  }

  /** The record is effective and its line has this blob. */
  predicate Authorizes(env: Env, c: Client, now: int, blob: string)
  {
    Effective(c, now) && BlobOf(EntryOf(env, c)) == blob
  }

  /** Each blob is written once if some effective record has it, and not at all otherwise. */
  lemma {:induction false} RebuiltExactly(env: Env, records: seq<Client>, clock: seq<int>, n: nat, blob: string)
    requires n <= |records| == |clock| && RebuiltLines(env, records, clock, n).Rebuilt?
    ensures Count(RebuiltLines(env, records, clock, n).lines, blob)
            == if exists i :: 0 <= i < n && Authorizes(env, records[i], clock[i], blob) then 1 else 0
  {
    hide BlobOf, Entry, Count;
    if n == 0 {
      NothingCounted(blob);
    } else {
      RebuiltExactly(env, records, clock, n - 1, blob);
      var before := RebuiltLines(env, records, clock, n - 1).lines;
      var c := records[n - 1];
      if Effective(c, clock[n - 1]) {
        CountAppended(before, EntryOf(env, c), blob);
      }
      assert (exists i :: 0 <= i < n && Authorizes(env, records[i], clock[i], blob)) <==>
             (exists i :: 0 <= i < n - 1 && Authorizes(env, records[i], clock[i], blob))
             || Authorizes(env, c, clock[n - 1], blob);
    }
  }

  /** A record that the rebuild must refuse: in force with an unreadable expiry, or with the target of another host. */
  predicate Refuses(env: Env, c: Client, now: int)
  {
    && (c.status == Active || c.status == RotationPending)
    && (c.notAfter == BadStamp || (c.notAfter.At? && now < c.notAfter.time && c.terms.target != env.target))
  }

  /** The rebuild fails exactly when there is such a record. */
  lemma {:induction false} RebuildsIff(env: Env, records: seq<Client>, clock: seq<int>, n: nat)
    requires n <= |records| == |clock|
    ensures RebuiltLines(env, records, clock, n).Rebuilt? <==>
              forall i :: 0 <= i < n ==> !Refuses(env, records[i], clock[i])
  {
    hide BlobOf, Entry, Count;
    if n > 0 {
      RebuildsIff(env, records, clock, n - 1);
    }
  }

  lemma NothingCounted(blob: string)
    ensures Count([], blob) == 0
  {
  }

  //////////////////////////////////////////////////////////////////////////////
  // The whole pass
  //////////////////////////////////////////////////////////////////////////////

  /** The client's grant is in force at the time, and its key has this blob. */
  predicate Authorized(c: Client, now: int, blob: string)
  {
    && (c.status == Active || c.status == RotationPending) && c.notAfter.At? && now < c.notAfter.time
    && BlobOf(c.key) == blob
  }

  /** A record left by the loops authorizes what its record before the pass does. */
  lemma SameKey(env: Env, c: Client, d: Client, now: int, later: int, blob: string)
    requires Notation(env) && Sound(c) && Reconciled(c, d, now) && now <= later
    ensures Authorizes(env, d, later, blob) <==> Authorized(c, later, blob)
  {
    hide BlobOf, Entry, KeyAccepted, Blankless;
    AcceptedBlob(c.key);
    EntryBlob(env, c.key, c.notAfter.time);
  }

  /**
   The reconcile pass from any kept state s: both loops at time now, then the rebuild
   at later readings of the clock. The file then holds exactly the key blobs of the
   grants that were active or rotation_pending in s and not yet due when they were
   read, each once; keys left by a crashed rotation are gone.
   */
  lemma ReconciledKeys(env: Env, s: State, records: seq<Client>, r: State, records': seq<Client>,
                       t: State, records'': seq<Client>, now: int, clock: seq<int>, blob: string)
    requires Kept(s) && Notation(env)
    requires Listing(s, records) && r == Final(s, Revocations(env, s, records, now, |records|))
    requires Listing(r, records') && Expiries(env, r, records', now, |records'|).plan.ok
    requires t == Final(r, Expiries(env, r, records', now, |records'|).plan) && Listing(t, records'')
    requires |clock| == |records''| && forall i :: 0 <= i < |clock| ==> now <= clock[i]
    requires RebuiltLines(env, records'', clock, |records''|).Rebuilt?
    ensures t.clients.Keys == s.clients.Keys
    ensures forall i :: 0 <= i < |records''| ==> records''[i].id in s.clients
    ensures Count(RebuiltLines(env, records'', clock, |records''|).lines, blob)
            == if exists i :: 0 <= i < |records''| && Authorized(s.clients[records''[i].id], clock[i], blob)
               then 1 else 0
  {
    hide Revocations, Expiries, Final, RebuiltLines, BlobOf, Entry, Count;
    hide Reconciled, Notation, Kept, Sound, Authorized, Authorizes;
    forall id | id in s.clients
      ensures Sound(s.clients[id]) && !s.clients[id].notAfter.NoStamp?
    {
      KeptClient(s, id);
      SoundExpiry(s.clients[id]);
    }
    PassSettles(env, s, records, r, records', now);
    RebuiltExactly(env, records'', clock, |records''|, blob);
    forall i | 0 <= i < |records''|
      ensures records''[i].id in s.clients
      ensures Authorizes(env, records''[i], clock[i], blob) <==> Authorized(s.clients[records''[i].id], clock[i], blob)
    {
      assert records''[i].id in t.clients;
      SameKey(env, s.clients[records''[i].id], records''[i], now, clock[i], blob);
    }
  }

  lemma SoundExpiry(c: Client)
    requires Sound(c)
    ensures c.notAfter.At?
  {
  }
}

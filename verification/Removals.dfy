/**
 internal/enrollment/clients.go and internal/grant/expire.go: what a successful
 revocation or expiry leaves of the client's keys in the authorized_keys file.
 */
module Removals {
  import opened KeyLines
  import opened Grants
  import opened GrantRuns

  /** Removing one key takes another one out exactly when they have the same blob. */
  lemma RemovedLeaves(lines: seq<string>, key: string, other: string)
    requires BlobOf(other) != ""
    ensures Absent(Removed(lines, key), other) <==> BlobOf(other) == BlobOf(key) || Absent(lines, other)
  {
    hide BlobOf, Absent, Count, Without;
    AbsentIff(lines, other);
    AbsentIff(Removed(lines, key), other);
    WithoutCount(lines, BlobOf(key), "", BlobOf(other));
  }

  /**
   The lines without the client's key. Its pending key is gone too exactly if it has the same blob
   or was never written.
   */
  ghost predicate KeyGone(c: Client, before: seq<string>, after: seq<string>)
  {
    && after == Removed(before, c.key) && Absent(after, c.key)
    && (c.pendingKey != "" ==>
          (Absent(after, c.pendingKey) <==> BlobOf(c.pendingKey) == BlobOf(c.key) || Absent(before, c.pendingKey)))
  }

  lemma RemovedGone(c: Client, lines: seq<string>)
    requires Sound(c)
    ensures KeyGone(c, lines, Removed(lines, c.key))
  {
    hide Removed, Absent, BlobOf, KeyAccepted;
    AcceptedBlob(c.key);
    RemovedAbsent(lines, c.key);
    if c.pendingKey != "" {
      AcceptedBlob(c.pendingKey);
      RemovedLeaves(lines, c.key, c.pendingKey);
    }
  }

  /** ExecuteExpire: the grant is recorded as expired only with its key gone. */
  lemma ExpireRemoves(env: Env, s: State, id: string, now: int)
    requires Kept(s) && id in s.clients && !s.clients[id].status.Expired?
    ensures var p := ExpirePlan(env, s, id, now);
            && (p.ok <==> ExpiryAllowed(s.clients[id], now))
            && (p.ok ==> && id in Final(s, p).clients && Final(s, p).clients[id].status.Expired?
                         && KeyGone(s.clients[id], s.lines, Final(s, p).lines))
  {
    hide Removed, Absent, ExpiryAllowed, Kept, KeyGone, Sound;
    KeptClient(s, id);
    var c := s.clients[id];
    RemovedGone(c, s.lines);
    GoneAbsent(c, s.lines, Removed(s.lines, c.key));
    SoundAt(c);
  }

  lemma GoneAbsent(c: Client, before: seq<string>, after: seq<string>)
    requires KeyGone(c, before, after)
    ensures Absent(after, c.key)
  {
  }

  lemma SoundAt(c: Client)
    requires Sound(c)
    ensures c.notAfter.At?
  {
  }

  /** RevokeClient, also when it is repeated. */
  lemma RevokeRemoves(env: Env, s: State, q: Manage, now: int)
    requires Kept(s) && RevokePlan(env, s, q, now).ok
    ensures var p := RevokePlan(env, s, q, now);
            && q.id in s.clients && q.id in Final(s, p).clients
            && Final(s, p).clients[q.id].status.Revoked? && KeyGone(s.clients[q.id], s.lines, Final(s, p).lines)
  {
    hide Removed, Kept, KeyGone, Sound, TokenMatches;
    KeptClient(s, q.id);
    RemovedGone(s.clients[q.id], s.lines);
  }

  /** completePendingRevocation. */
  lemma CompleteRemoves(env: Env, s: State, id: string, now: int)
    requires Kept(s) && id in s.clients && s.clients[id].status.RevocationPending?
    ensures var p := CompletePlan(env, s, id, now);
            && p.ok && id in Final(s, p).clients && Final(s, p).clients[id].status.Revoked?
            && KeyGone(s.clients[id], s.lines, Final(s, p).lines)
  {
    hide Removed, Kept, KeyGone, Sound;
    KeptClient(s, id);
    RemovedGone(s.clients[id], s.lines);
  }

  /** The client with record c is revoked, without its key and without the pending key of a rotation. */
  ghost predicate BothRemoved(c: Client, t: State)
  {
    && c.id in t.clients && t.clients[c.id].status.Revoked? && Absent(t.lines, c.key)
    && (!c.status.Revoked? && c.pendingKey != "" ==> Absent(t.lines, c.pendingKey))
  }

  /** RevokeClientAsHost takes out the pending key of a rotation as well. */
  lemma HostRevokeRemoves(env: Env, s: State, id: string, now: int)
    requires Kept(s) && HostRevokePlan(env, s, id, now).ok
    ensures id in s.clients && BothRemoved(s.clients[id], Final(s, HostRevokePlan(env, s, id, now)))
  {
    hide Removed, Absent, Kept, Sound;
    KeptClient(s, id);
    BothGone(s.clients[id], s.lines);
  }

  lemma BothGone(c: Client, lines: seq<string>)
    requires Sound(c)
    ensures Absent(Removed(lines, c.key), c.key)
    ensures c.pendingKey != "" ==>
              && Absent(Removed(Removed(lines, c.key), c.pendingKey), c.key)
              && Absent(Removed(Removed(lines, c.key), c.pendingKey), c.pendingKey)
  {
    hide Removed, Absent, BlobOf, KeyAccepted;
    AcceptedBlob(c.key);
    RemovedAbsent(lines, c.key);
    if c.pendingKey != "" {
      AcceptedBlob(c.pendingKey);
      RemovedAbsent(Removed(lines, c.key), c.pendingKey);
      RemovedLeaves(Removed(lines, c.key), c.pendingKey, c.key);
    }
  }

  //////////////////////////////////////////////////////////////////////////////
  // An expiry that leaves a key
  //////////////////////////////////////////////////////////////////////////////

  /** The state after the second of the three writes of a rotation by the enrolled client. */
  function CutRotation(env: Env, i: Invite, q: Enroll, now: int, m: Manage, at: int): (s: State)
  {
    var s := EnrolledState(env, i, q, now);
    var c := EnrolledClient(env, i, q, now);
    var d := Begun(c, RotationPending, at).(pendingKey := m.newKey, pendingToken := env.hash(m.nextToken));
    Put(s, d).(lines := Replaced(s.lines, c.key, Entry(env, m.newKey, now + i.duration)))
  }

  lemma CutReachable(env: Env, i: Invite, q: Enroll, now: int, m: Manage, at: int)
    requires Matches(i, q, now) && env.hash(q.token) != "" && at < now + i.duration
    requires m.wellFormed && KeyAccepted(m.newKey) && m.newKey != q.key
    requires m.id == env.idOf(i.id, q.key) && m.token == q.token && m.tunnel == q.tunnel
    ensures Reachable(env, CutRotation(env, i, q, now, m, at))
  {
    hide Reachable, Replaced, Entry, KeyAccepted, Kept;
    Enrolled(env, i, q, now);
    var s := EnrolledState(env, i, q, now);
    ReachableNext(env, s, Rotate(m, at), 2);
    assert AtWrite(s, PlanOf(env, s, Rotate(m, at)), 2) == CutRotation(env, i, q, now, m, at);
  }

  /**
   A rotation cut off between the file and the record leaves the new key in the file.
   The expiry of that grant then succeeds and the new key stays authorized, until the
   file is rebuilt.
   */
  lemma ExpiryLeavesPending(env: Env, i: Invite, q: Enroll, now: int, m: Manage, at: int, late: int)
    requires Matches(i, q, now) && env.hash(q.token) != "" && at < now + i.duration <= late
    requires m.wellFormed && KeyAccepted(m.newKey) && BlobOf(m.newKey) != BlobOf(q.key) && Notation(env)
    requires m.id == env.idOf(i.id, q.key) && m.token == q.token && m.tunnel == q.tunnel
    requires m.id != "" && env.digest(q.key) != ""
    ensures var s := CutRotation(env, i, q, now, m, at);
            var p := ExpirePlan(env, s, m.id, late);
            && Reachable(env, s) && p.ok
            && m.id in Final(s, p).clients && Final(s, p).clients[m.id].status.Expired?
            && Count(Final(s, p).lines, BlobOf(m.newKey)) == 1
  {
    hide Reachable, Replaced, Removed, Entry, KeyAccepted, Kept, BlobOf, Count, ExpirePlan, Absent, Blankless, KeyGone;
    CutReachable(env, i, q, now, m, at);
    var s := CutRotation(env, i, q, now, m, at);
    ReachableKept(env, s);
    AcceptedBlob(q.key);
    ExpireRemoves(env, s, m.id, late);
    PendingStays(env, EnrolledState(env, i, q, now).lines, q.key, m.newKey, now + i.duration);
    GoneLines(s.clients[m.id], s.lines, Final(s, ExpirePlan(env, s, m.id, late)).lines);
  }

  lemma GoneLines(c: Client, before: seq<string>, after: seq<string>)
    requires KeyGone(c, before, after)
    ensures after == Removed(before, c.key)
  {
  }

  lemma PendingStays(env: Env, lines: seq<string>, key: string, newKey: string, until: int)
    requires KeyAccepted(newKey) && BlobOf(newKey) != BlobOf(key) && Notation(env)
    ensures Count(Removed(Replaced(lines, key, Entry(env, newKey, until)), key), BlobOf(newKey)) == 1
  {
    hide KeyAccepted, BlobOf, Count, Replaced, Blankless, Entry, Without;
    AcceptedBlob(newKey);
    EntryBlob(env, newKey, until);
    var entry := Entry(env, newKey, until);
    ReplacedCount(lines, key, entry, BlobOf(newKey));
    WithoutCount(Replaced(lines, key, entry), BlobOf(key), "", BlobOf(newKey));
  }
}

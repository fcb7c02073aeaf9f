/**
 internal/grantsession/authority.go: matchingGrant, the decision behind Register.
 A key is admitted only through exactly one grant, active or rotating and not yet
 due; the key of a terminal grant is rejected for ever.
 */
module Sessions {
  import opened KeyLines
  import opened Grants
  import opened GrantRuns
  import opened Removals

  datatype KeyDigest = Unparsable | Digest(value: string)

  /** The record is for the key with this digest. */
  predicate ForKey(digestOf: string -> KeyDigest, c: Client, digest: string)
  {
    digestOf(c.key) == Digest(digest)
  }

  predicate Live(c: Client, now: int)
  {
    (c.status.Active? || c.status.RotationPending?) && c.notAfter.At? && !Due(c.notAfter, now)
  }

  /** The number of records for the key. */
  function Matching(digestOf: string -> KeyDigest, records: seq<Client>, digest: string): (n: nat)
  {
    if records == [] then 0
    else Matching(digestOf, records[..|records| - 1], digest)
         + (if ForKey(digestOf, records[|records| - 1], digest) then 1 else 0)
  }

  /** The key has exactly one grant, and that grant is live. */
  predicate Admitted(digestOf: string -> KeyDigest, records: seq<Client>, digest: string, now: int)
  {
    && Matching(digestOf, records, digest) == 1
    && forall i :: 0 <= i < |records| && ForKey(digestOf, records[i], digest) ==> Live(records[i], now)
  }

  datatype GrantMatch = Match(record: Client) | Rejected

  /** matchingGrant. */
  method MatchingGrant(digestOf: string -> KeyDigest, records: seq<Client>, digest: string, now: int)
    returns (r: GrantMatch)
    ensures r.Match? <==> Admitted(digestOf, records, digest, now)
    ensures r.Match? ==> r.record in records && ForKey(digestOf, r.record, digest) && Live(r.record, now)
  {
    var matches: seq<Client> := [];
    for i := 0 to |records|
      invariant |matches| == Matching(digestOf, records[..i], digest)
      invariant forall j :: 0 <= j < i && ForKey(digestOf, records[j], digest) ==> Live(records[j], now)
      invariant forall j :: 0 <= j < |matches| ==>
                  matches[j] in records && ForKey(digestOf, matches[j], digest) && Live(matches[j], now)
    {
      assert records[..i + 1][..i] == records[..i];
      var record := records[i];
      if digestOf(record.key) != Digest(digest) {
        continue;
      }
      if !record.status.Active? && !record.status.RotationPending? {
        return Rejected;
      }
      if !record.notAfter.At? || Due(record.notAfter, now) {
        return Rejected;
      }
      matches := matches + [record];
    }
    assert records[..|records|] == records;
    if |matches| != 1 {
      return Rejected;
    }
    return Match(matches[0]);
  }

  /** ListClients: every record once, in some order. */
  ghost predicate Listing(s: State, records: seq<Client>)
  {
    && (forall i :: 0 <= i < |records| ==> records[i].id in s.clients && s.clients[records[i].id] == records[i])
    && (forall i, j :: 0 <= i < j < |records| ==> records[i].id != records[j].id)
    && (forall id :: id in s.clients ==> exists i :: 0 <= i < |records| && records[i].id == id)
  }

  /** Once a grant is expired or revoked, its key is rejected in every later state of every run. */
  lemma TerminalRejected(env: Env, s: State, id: string, run: seq<Event>, digestOf: string -> KeyDigest, digest: string,
                         records: seq<Client>, now: int)
    requires Kept(s) && id in s.clients && Terminal(s.clients[id].status) && ForKey(digestOf, s.clients[id], digest)
    requires ValidRun(env, s, run) && Listing(After(env, s, run), records)
    ensures !Admitted(digestOf, records, digest, now)
  {
    hide Kept, PlanOf, ValidRun, After;
    OutlivesItself(s);
    RunOutlives(env, s, s, run);
    var t := After(env, s, run);
    var i :| 0 <= i < |records| && records[i].id == id;
    assert records[i] == s.clients[id];
  }

  //////////////////////////////////////////////////////////////////////////////
  // Which keys are admitted
  //////////////////////////////////////////////////////////////////////////////

  /** Exactly one record has the key as its own: that of client id. */
  ghost predicate Sole(digestOf: string -> KeyDigest, s: State, digest: string, id: string)
  {
    && id in s.clients && ForKey(digestOf, s.clients[id], digest)
    && forall other :: other in s.clients && ForKey(digestOf, s.clients[other], digest) ==> other == id
  }

  /** That record's grant is live. */
  ghost predicate SoleLive(digestOf: string -> KeyDigest, s: State, digest: string, id: string, now: int)
  {
    && Sole(digestOf, s, digest, id)
    && var c := s.clients[id];
       (c.status == Active || c.status == RotationPending) && c.notAfter.At? && now < c.notAfter.time
  }

  lemma {:induction false} NoneMatching(digestOf: string -> KeyDigest, records: seq<Client>, digest: string)
    ensures Matching(digestOf, records, digest) == 0 <==>
              forall i :: 0 <= i < |records| ==> !ForKey(digestOf, records[i], digest)
  {
    if records != [] {
      var front := records[..|records| - 1];
      NoneMatching(digestOf, front, digest);
      assert forall i :: 0 <= i < |front| ==> front[i] == records[i];
    }
  }

  /** Record i is for the key, and no other one is. */
  predicate OnlyAt(digestOf: string -> KeyDigest, records: seq<Client>, digest: string, i: nat)
  {
    && i < |records| && ForKey(digestOf, records[i], digest)
    && forall j :: 0 <= j < |records| && ForKey(digestOf, records[j], digest) ==> j == i
  }

  lemma {:induction false} OneMatching(digestOf: string -> KeyDigest, records: seq<Client>, digest: string)
    ensures Matching(digestOf, records, digest) == 1 <==> exists i: nat :: OnlyAt(digestOf, records, digest, i)
  {
    if records != [] {
      var n := |records| - 1;
      var front := records[..n];
      assert forall i :: 0 <= i < n ==> front[i] == records[i];
      OneMatching(digestOf, front, digest);
      NoneMatching(digestOf, front, digest);
      if ForKey(digestOf, records[n], digest) {
        if Matching(digestOf, records, digest) == 1 {
          assert OnlyAt(digestOf, records, digest, n);
        }
        forall i: nat | OnlyAt(digestOf, records, digest, i)
          ensures Matching(digestOf, front, digest) == 0
        {
          assert i == n;
        }
      } else {
        forall i: nat
          ensures OnlyAt(digestOf, records, digest, i) <==> OnlyAt(digestOf, front, digest, i)
        {
        }
      }
    }
  }

  lemma SoleAt(digestOf: string -> KeyDigest, s: State, records: seq<Client>, digest: string, i: nat)
    requires Listing(s, records) && i < |records|
    ensures OnlyAt(digestOf, records, digest, i) <==> Sole(digestOf, s, digest, records[i].id)
  {
    hide ForKey;
    if OnlyAt(digestOf, records, digest, i) {
      forall other | other in s.clients && ForKey(digestOf, s.clients[other], digest)
        ensures other == records[i].id
      {
        var j :| 0 <= j < |records| && records[j].id == other;
        assert ForKey(digestOf, records[j], digest);
      }
    }
    if Sole(digestOf, s, digest, records[i].id) {
      forall j | 0 <= j < |records| && ForKey(digestOf, records[j], digest)
        ensures j == i
      {
        assert records[j].id in s.clients && s.clients[records[j].id] == records[j];
      }
    }
  }

  /** A key is admitted exactly when one record has it as its own, and that grant is live. */
  lemma AdmittedIff(digestOf: string -> KeyDigest, s: State, records: seq<Client>, digest: string, now: int)
    requires Listing(s, records)
    ensures Admitted(digestOf, records, digest, now) <==>
              exists id :: SoleLive(digestOf, s, digest, id, now)
  {
    hide Matching, ForKey, OnlyAt;
    OneMatching(digestOf, records, digest);
    if Admitted(digestOf, records, digest, now) {
      var i: nat :| OnlyAt(digestOf, records, digest, i);
      OnlyIs(digestOf, records, digest, i);
      SoleAt(digestOf, s, records, digest, i);
      assert SoleLive(digestOf, s, digest, records[i].id, now);
    }
    if exists id :: SoleLive(digestOf, s, digest, id, now) {
      var id :| SoleLive(digestOf, s, digest, id, now);
      var i: nat :| i < |records| && records[i].id == id;
      SoleAt(digestOf, s, records, digest, i);
      forall j | 0 <= j < |records| && ForKey(digestOf, records[j], digest)
        ensures Live(records[j], now)
      {
        OnlyThere(digestOf, records, digest, i, j);
      }
    }
  }

  lemma OnlyIs(digestOf: string -> KeyDigest, records: seq<Client>, digest: string, i: nat)
    requires OnlyAt(digestOf, records, digest, i)
    ensures i < |records| && ForKey(digestOf, records[i], digest)
  {
  }

  lemma OnlyThere(digestOf: string -> KeyDigest, records: seq<Client>, digest: string, i: nat, j: nat)
    requires OnlyAt(digestOf, records, digest, i) && j < |records| && ForKey(digestOf, records[j], digest)
    ensures j == i
  {
  }

  /**
   A key left over from an ended grant, its own or the pending one of an interrupted
   rotation, whatever lines the file has: in every later state of every run it is
   admitted exactly when one other record has it as its own key, and that grant is live.
   */
  lemma LeftoverAdmittedIff(env: Env, s: State, id: string, run: seq<Event>, digestOf: string -> KeyDigest,
                            digest: string, records: seq<Client>, now: int)
    requires Kept(s) && id in s.clients && Terminal(s.clients[id].status)
    requires digestOf(s.clients[id].key) == Digest(digest) || digestOf(s.clients[id].pendingKey) == Digest(digest)
    requires ValidRun(env, s, run) && Listing(After(env, s, run), records)
    ensures var t := After(env, s, run);
            && id in t.clients && t.clients[id] == s.clients[id]
            && (Admitted(digestOf, records, digest, now) <==>
                  exists other :: other != id && SoleLive(digestOf, t, digest, other, now))
  {
    hide Kept, PlanOf, ValidRun, After, Admitted, Listing;
    OutlivesItself(s);
    RunOutlives(env, s, s, run);
    var t := After(env, s, run);
    AdmittedIff(digestOf, t, records, digest, now);
    if exists other :: SoleLive(digestOf, t, digest, other, now) {
      var other :| SoleLive(digestOf, t, digest, other, now);
      assert other != id;
    }
  }

  /**
   An expiry can leave the pending key's line in the file. As long as no other client
   has that key as its own, it is not admitted, at any time, although it is authorized.
   */
  lemma LeftoverRejected(env: Env, i: Invite, q: Enroll, now: int, m: Manage, at: int, late: int,
                         digestOf: string -> KeyDigest, digest: string, records: seq<Client>, later: int)
    requires Matches(i, q, now) && env.hash(q.token) != "" && at < now + i.duration <= late
    requires m.wellFormed && KeyAccepted(m.newKey) && BlobOf(m.newKey) != BlobOf(q.key) && Notation(env)
    requires m.id == env.idOf(i.id, q.key) && m.token == q.token && m.tunnel == q.tunnel
    requires m.id != "" && env.digest(q.key) != ""
    requires digestOf(m.newKey) == Digest(digest)
    requires var s := CutRotation(env, i, q, now, m, at);
             Listing(Final(s, ExpirePlan(env, s, m.id, late)), records)
    ensures var s := CutRotation(env, i, q, now, m, at);
            Count(Final(s, ExpirePlan(env, s, m.id, late)).lines, BlobOf(m.newKey)) == 1
    ensures !Admitted(digestOf, records, digest, later)
  {
    hide KeyAccepted, BlobOf, Count, Notation, ExpirePlan, CutRotation, Final, Admitted, Listing;
    ExpiryLeavesPending(env, i, q, now, m, at, late);
    var s := CutRotation(env, i, q, now, m, at);
    var t := Final(s, ExpirePlan(env, s, m.id, late));
    OneClient(env, i, q, now, m, at, late);
    AdmittedIff(digestOf, t, records, digest, later);
  }

  /** That run has one client. */
  lemma OneClient(env: Env, i: Invite, q: Enroll, now: int, m: Manage, at: int, late: int)
    requires m.id == env.idOf(i.id, q.key)
    ensures var s := CutRotation(env, i, q, now, m, at);
            Final(s, ExpirePlan(env, s, m.id, late)).clients.Keys == {m.id}
  {
    hide Replaced, Removed, Absent, Entry, ExpiryAllowed;
  }
}

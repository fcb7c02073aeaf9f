/**
 internal/grant, internal/enrollment: the durable state of the grants and the
 operations on it. Every operation is a plan: the states after each of its
 durable writes, in order. A crash, or a failed write, leaves the state after
 some prefix of the plan.
 */
module Grants {
  import opened KeyLines

  //////////////////////////////////////////////////////////////////////////////
  // Records
  //////////////////////////////////////////////////////////////////////////////

  datatype Status =
    | EnrollmentPending | Active | ExpirationPending | Expired
    | RotationPending | RevocationPending | Revoked

  predicate Terminal(s: Status)
  {
    s.Expired? || s.Revoked?
  }

  /** CanTransition of internal/grant/state.go. */
  predicate CanTransition(from: Status, to: Status)
  {
    from == to ||
    match from
    case EnrollmentPending => to.Active?
    case Active => to.ExpirationPending? || to.RotationPending? || to.RevocationPending?
    case ExpirationPending => to.Expired? || to.RevocationPending?
    case RotationPending => to.Active? || to.RevocationPending? || to.ExpirationPending?
    case RevocationPending => to.Revoked?
    case _ => false
  }

  /** The transitions that the table allows. */
  lemma TransitionTable(from: Status, to: Status)
    ensures CanTransition(from, to) <==>
              from == to || (from, to) in {
                (EnrollmentPending, Active),
                (Active, ExpirationPending), (Active, RotationPending), (Active, RevocationPending),
                (ExpirationPending, Expired), (ExpirationPending, RevocationPending),
                (RotationPending, Active), (RotationPending, RevocationPending), (RotationPending, ExpirationPending),
                (RevocationPending, Revoked)}
  {
  }

  /** A time stamp in a record: empty, unparsable, or a host time. */
  datatype Stamp = NoStamp | BadStamp | At(time: int)

  /** ReadyToExpire. */
  predicate Due(notAfter: Stamp, now: int)
  {
    notAfter.At? && notAfter.time <= now
  }

  /** What host, invite and request must agree on. */
  datatype Terms = Terms(profile: string, principal: string, target: string, hostKey: string, published: string)

  datatype Client = Client(
    id: string, tunnel: string, invite: string, key: string, keyDigest: string, token: string, terms: Terms,
    status: Status, acceptedAt: int, notAfter: Stamp, duration: int,
    revokedAt: Stamp, expiredAt: Stamp, generation: Stamp,
    prevKey: string, prevToken: string, pendingKey: string, pendingToken: string, opStarted: Stamp)

  datatype InviteStatus = Issued | Consumed | Cancelled | InviteRevoked | InviteExpired

  datatype Invite = Invite(
    id: string, nonce: string, clientName: string, terms: Terms, expiresAt: int, duration: int,
    status: InviteStatus, clientID: string, consumedAt: Stamp, revokedAt: Stamp)

  /** The three stores: client records, invite records and the lines of authorized_keys. */
  datatype State = State(clients: map<string, Client>, invites: map<string, Invite>, lines: seq<string>)

  /**
   Hashes, random tokens and the expiry notation, as functions of their inputs; and the target of
   the host's manifest.
   */
  datatype Env = Env(
    idOf: (string, string) -> string, hash: string -> string, digest: string -> string,
    burned: (string, int) -> string, expiry: int -> string, target: string)

  function Put(s: State, c: Client): (t: State)
  {
    s.(clients := s.clients[c.id := c])
  }

  function PutInvite(s: State, i: Invite): (t: State)
  {
    s.(invites := s.invites[i.id := i])
  }

  const KEY_TYPE: string := "ssh-mldsa44-ed25519@openssh.com"

  const PERMIT: string := "port-forwarding,permitopen=\""
  const MANAGE: string := "\",permitopen=\"127.0.0.1:29723"
  const UNTIL: string := "\",expiry-time=\""
  const QUOTE: string := "\""

  function Options(env: Env, notAfter: int): (o: string)
  {
    PERMIT + env.target + MANAGE + UNTIL + env.expiry(notAfter) + QUOTE
  }

  /** RenderAuthorizedKey: the managed line of a key, for the target of the manifest. */
  function Entry(env: Env, key: string, notAfter: int): (line: string)
  {
    Rendered(Options(env, notAfter), KEY_TYPE, BlobOf(key))
  }

  /** validatePublicKeyLine accepts the line: a type, which is the composite one, and a blob. */
  predicate KeyAccepted(key: string)
  {
    PlainKey(key, KEY_TYPE)
  }

  lemma AcceptedBlob(key: string)
    requires KeyAccepted(key)
    ensures BlobOf(key) != "" && key != ""
  {
    hide BlobOf, PlainKey, Word;
    var t := KEY_TYPE;
    assert t[0] == 's' && forall i :: 0 <= i < |t| ==> t[i] != ',';
    BlobOfPlain(key, KEY_TYPE);
  }

  predicate Blankless(s: string)
  {
    forall i :: 0 <= i < |s| ==> !Space(s[i])
  }

  /** The host's target and its expiry notation have no blanks. */
  ghost predicate Notation(env: Env)
  {
    Blankless(env.target) && forall t :: Blankless(env.expiry(t))
  }

  /** The line rendered for a key carries the key's blob. */
  lemma EntryBlob(env: Env, key: string, notAfter: int)
    requires BlobOf(key) != "" && Blankless(env.target) && Blankless(env.expiry(notAfter))
    ensures BlobOf(Entry(env, key, notAfter)) == BlobOf(key)
  {
    hide BlobOf, Rendered, Word;
    BlobIsWord(key);
    KeyTypeWord();
    OptionsBlankless(env, notAfter);
    BlobOfRendered(Options(env, notAfter), KEY_TYPE, BlobOf(key));
  }

  lemma KeyTypeWord()
    ensures Word(KEY_TYPE)
  {
    var t := KEY_TYPE;
    assert |t| == 31;
    assert forall i :: 0 <= i < |t| ==> !Space(t[i]);
  }

  lemma PermitBlankless()
    ensures Blankless(PERMIT)
  {
    var t := PERMIT;
    assert |t| == 28;
    assert forall i :: 0 <= i < |t| ==> !Space(t[i]);
  }

  lemma ManageBlankless()
    ensures Blankless(MANAGE)
  {
    var t := MANAGE;
    assert |t| == 29;
    assert forall i :: 0 <= i < |t| ==> !Space(t[i]);
  }

  lemma UntilBlankless()
    ensures Blankless(UNTIL)
  {
    var t := UNTIL;
    assert |t| == 15;
    assert forall i :: 0 <= i < |t| ==> !Space(t[i]);
  }

  lemma QuoteBlankless()
    ensures Blankless(QUOTE)
  {
    var t := QUOTE;
    assert |t| == 1;
    assert forall i :: 0 <= i < |t| ==> !Space(t[i]);
  }

  lemma OptionsBlankless(env: Env, notAfter: int)
    requires Blankless(env.target) && Blankless(env.expiry(notAfter))
    ensures Blankless(Options(env, notAfter))
  {
    hide Blankless, PERMIT, MANAGE, UNTIL, QUOTE;
    PermitBlankless();
    ManageBlankless();
    UntilBlankless();
    QuoteBlankless();
    Joined(PERMIT, env.target);
    Joined(PERMIT + env.target, MANAGE);
    Joined(PERMIT + env.target + MANAGE, UNTIL);
    Joined(PERMIT + env.target + MANAGE + UNTIL, env.expiry(notAfter));
    Joined(PERMIT + env.target + MANAGE + UNTIL + env.expiry(notAfter), QUOTE);
  }

  lemma Joined(s: string, t: string)
    requires Blankless(s) && Blankless(t)
    ensures Blankless(s + t)
  {
  }

  lemma FirstOption()
    ensures "restrict," + PERMIT == "restrict,port-forwarding,permitopen=\""
  {
  }

  lemma MiddleOptions()
    ensures MANAGE + UNTIL == "\",permitopen=\"127.0.0.1:29723\",expiry-time=\""
  {
  }

  lemma OptionsText(target: string, expiry: string)
    ensures "restrict," + (PERMIT + target + MANAGE + UNTIL + expiry + QUOTE)
            == "restrict,port-forwarding,permitopen=\"" + target
               + "\",permitopen=\"127.0.0.1:29723\",expiry-time=\"" + expiry + "\""
  {
    hide PERMIT, MANAGE, UNTIL;
    FirstOption();
    MiddleOptions();
    Regroup("restrict,", PERMIT, target, MANAGE, UNTIL, expiry, QUOTE);
  }

  lemma Regroup(a: string, b: string, c: string, d: string, e: string, f: string, g: string)
    ensures a + (b + c + d + e + f + g) == (a + b) + c + (d + e) + f + g
  {
  }

  /** The fields of a managed line, and the text of its options. */
  lemma EntryFields(env: Env, key: string, notAfter: int)
    requires BlobOf(key) != "" && Blankless(env.target) && Blankless(env.expiry(notAfter))
    ensures var options := "restrict,port-forwarding,permitopen=\"" + env.target
                           + "\",permitopen=\"127.0.0.1:29723\",expiry-time=\"" + env.expiry(notAfter) + "\"";
            Fields(Entry(env, key, notAfter)) == [options, KEY_TYPE, BlobOf(key), MARKER]
  {
    hide Fields, BlobOf, Word, Space, Rendered, PERMIT, MANAGE, UNTIL, QUOTE, KEY_TYPE, MARKER;
    OptionsText(env.target, env.expiry(notAfter));
    BlobIsWord(key);
    KeyTypeWord();
    OptionsBlankless(env, notAfter);
    RenderedFields(Options(env, notAfter), KEY_TYPE, BlobOf(key));
  }

  predicate TokenMatches(env: Env, want: string, token: string)
  {
    want != "" && env.hash(token) == want
  }

  //////////////////////////////////////////////////////////////////////////////
  // Plans
  //////////////////////////////////////////////////////////////////////////////

  /** The states after each durable write; ok if the operation then reports success. */
  datatype Plan = Plan(writes: seq<State>, ok: bool)

  const REFUSE: Plan := Plan([], false)

  /** The state after k writes of a plan: the crash point, or the end. */
  function AtWrite(s: State, p: Plan, k: nat): (t: State)
    requires k <= |p.writes|
  {
    if k == 0 then s else p.writes[k - 1]
  }

  function Final(s: State, p: Plan): (t: State)
  {
    AtWrite(s, p, |p.writes|)
  }

  datatype Manage = Manage(id: string, token: string, tunnel: string, newKey: string, nextToken: string,
                           wellFormed: bool)

  function BurnedToken(env: Env, c: Client, now: int): (d: Client)
  {
    c.(prevToken := c.token, token := env.burned(c.id, now))
  }

  function RevokedRecord(env: Env, c: Client, now: int): (d: Client)
  {
    BurnedToken(env, c, now).(status := Revoked, revokedAt := At(now), opStarted := NoStamp)
  }

  /** The record with a pending operation. */
  function Begun(c: Client, status: Status, now: int): (d: Client)
  {
    c.(status := status, opStarted := At(now))
  }

  function RemovedKey(s: State, key: string): (t: State)
  {
    s.(lines := Removed(s.lines, key))
  }

  /** RevokeClient. */
  function RevokePlan(env: Env, s: State, q: Manage, now: int): (p: Plan)
  {
    if !q.wellFormed || q.id !in s.clients then REFUSE
    else
      var c := s.clients[q.id];
      if c.tunnel != q.tunnel then REFUSE
      else if c.status.Revoked? then
        (if TokenMatches(env, c.prevToken, q.token) then Plan([RemovedKey(s, c.key)], true) else REFUSE)
      else if !c.status.Active? && !c.status.RevocationPending? && !c.status.ExpirationPending? then REFUSE
      else if !TokenMatches(env, c.token, q.token) then REFUSE
      else
        var d := if c.status.Active? then Begun(c, RevocationPending, now) else c;
        var s1 := if c.status.Active? then Put(s, d) else s;
        var s2 := RemovedKey(s1, c.key);
        var s3 := Put(s2, RevokedRecord(env, d, now));
        Plan((if c.status.Active? then [s1] else []) + [s2, s3], true)
  }

  /** RevokeClientAsHost: without a token, and with the pending key of a rotation. */
  function HostRevokePlan(env: Env, s: State, id: string, now: int): (p: Plan)
  {
    if id !in s.clients then REFUSE
    else
      var c := s.clients[id];
      if c.status.Revoked? then Plan([RemovedKey(s, c.key)], true)
      else if c.status.EnrollmentPending? || c.status.Expired? then REFUSE
      else
        var begins := c.status.Active? || c.status.RotationPending?;
        var d := if begins then Begun(c, RevocationPending, now) else c;
        var s1 := if begins then Put(s, d) else s;
        var s2 := RemovedKey(s1, c.key);
        var second := c.pendingKey != "" && c.pendingKey != c.key;
        var s3 := if second then RemovedKey(s2, c.pendingKey) else s2;
        var s4 := Put(s3, RevokedRecord(env, d, now).(pendingKey := "", pendingToken := ""));
        Plan(if begins then (if second then [s1, s2, s3, s4] else [s1, s2, s4])
             else if second then [s2, s3, s4] else [s2, s4], true)
  }

  /** completePendingRevocation. */
  function CompletePlan(env: Env, s: State, id: string, now: int): (p: Plan)
  {
    if id !in s.clients then REFUSE
    else
      var c := s.clients[id];
      if c.status.Revoked? then Plan([], true)
      else if !c.status.RevocationPending? then REFUSE
      else
        var s1 := RemovedKey(s, c.key);
        Plan([s1, Put(s1, RevokedRecord(env, c, now))], true)
  }

  function RotatedRecord(env: Env, c: Client, q: Manage, now: int): (d: Client)
  {
    c.(prevKey := c.key, prevToken := c.token, key := q.newKey, keyDigest := env.digest(q.newKey),
       token := env.hash(q.nextToken), pendingKey := "", pendingToken := "", opStarted := NoStamp,
       status := Active, generation := At(now))
  }

  /** The rotation is already recorded. */
  predicate RotationDone(env: Env, c: Client, q: Manage)
  {
    c.status.Active? && c.key == q.newKey && c.token == env.hash(q.nextToken) && c.prevToken == env.hash(q.token)
  }

  predicate RotationResumes(env: Env, c: Client, q: Manage)
  {
    c.status.RotationPending? && c.pendingKey == q.newKey && c.pendingToken == env.hash(q.nextToken)
  }

  /** RotateClientPublicKey, with the line that the handler renders for the new key. */
  function RotatePlan(env: Env, s: State, q: Manage, now: int): (p: Plan)
  {
    if !q.wellFormed || !KeyAccepted(q.newKey) || q.id !in s.clients then REFUSE
    else
      var c := s.clients[q.id];
      if !c.notAfter.At? || c.tunnel != q.tunnel then REFUSE
      else
        var entry := Entry(env, q.newKey, c.notAfter.time);
        if RotationDone(env, c, q) then Plan([s.(lines := Replaced(s.lines, c.prevKey, entry))], true)
        else if Due(c.notAfter, now) then REFUSE
        else if !c.status.Active? && !c.status.RotationPending? then REFUSE
        else if !TokenMatches(env, c.token, q.token) then REFUSE
        else if c.status.RotationPending? && !RotationResumes(env, c, q) then REFUSE
        else
          var d := if c.status.Active?
                   then Begun(c, RotationPending, now).(pendingKey := q.newKey, pendingToken := env.hash(q.nextToken))
                   else c;
          var s1 := if c.status.Active? then Put(s, d) else s;
          var s2 := s1.(lines := Replaced(s1.lines, c.key, entry));
          var s3 := Put(s2, RotatedRecord(env, d, q, now));
          Plan((if c.status.Active? then [s1] else []) + [s2, s3], true)
  }

  /** ValidateExpirePlan. */
  predicate ExpiryAllowed(c: Client, now: int)
  {
    && c.id != "" && !c.generation.NoStamp? && c.key != "" && c.keyDigest != ""
    && (Due(c.notAfter, now) || c.status.ExpirationPending?)
    && (c.status.Active? || c.status.ExpirationPending? || c.status.RotationPending?)
  }

  /** ExpireClient with ExecuteExpire: the key is removed and its absence verified before the end is recorded. */
  function ExpirePlan(env: Env, s: State, id: string, now: int): (p: Plan)
  {
    if id !in s.clients then REFUSE
    else
      var c := s.clients[id];
      if c.status.Expired? then Plan([], true)
      else if !c.notAfter.At? || !ExpiryAllowed(c, now) then REFUSE
      else
        var begins := !c.status.ExpirationPending?;
        var d := if begins then Begun(c, ExpirationPending, now) else c;
        var s1 := if begins then Put(s, d) else s;
        var s2 := RemovedKey(s1, c.key);
        var start := if begins then [s1] else [];
        if !Absent(s2.lines, c.key) then Plan(start + [s2], false)
        else
          var e := BurnedToken(env, d, now).(status := Expired, expiredAt := At(now), opStarted := NoStamp);
          Plan(start + [s2, Put(s2, e)], true)
  }

  //////////////////////////////////////////////////////////////////////////////
  // Enrollment
  //////////////////////////////////////////////////////////////////////////////

  datatype Enroll = Enroll(
    invite: string, nonce: string, clientName: string, tunnel: string, key: string, token: string,
    terms: Terms, wellFormed: bool)

  datatype Lease = Lease(acceptedAt: int, notAfter: Stamp, duration: int)

  function LeaseOf(c: Client): (l: Lease)
  {
    Lease(c.acceptedAt, c.notAfter, c.duration)
  }

  /** The proof returned to the client, or the refusal. */
  datatype Reply = Proof(clientID: string, key: string, lease: Lease) | Refused

  datatype Acceptance = Acceptance(plan: Plan, reply: Reply)

  const REFUSED: Acceptance := Acceptance(REFUSE, Refused)

  /** The record that a first enrollment stores. */
  function PendingClient(env: Env, i: Invite, q: Enroll, now: int): (c: Client)
  {
    Client(env.idOf(i.id, q.key), q.tunnel, i.id, q.key, env.digest(q.key), env.hash(q.token), i.terms,
           EnrollmentPending, now, At(now + i.duration), i.duration,
           NoStamp, NoStamp, At(now), "", "", "", "", NoStamp)
  }

  /** storeOrResumePendingClient accepts an existing record. */
  predicate SameEnrollment(c: Client, want: Client)
  {
    && (c.status.EnrollmentPending? || c.status.Active?)
    && c.invite == want.invite && c.tunnel == want.tunnel && c.key == want.key && c.token == want.token
    && c.terms.principal == want.terms.principal && c.terms.profile == want.terms.profile
    && c.terms.published == want.terms.published && c.terms.target == want.terms.target
    && c.duration == want.duration
  }

  /** resumeAcceptedEnrollment: an exact retry after the invite was consumed. */
  function ResumeAccepted(env: Env, s: State, i: Invite, q: Enroll): (a: Acceptance)
  {
    var id := env.idOf(i.id, q.key);
    if i.clientID != id || id !in s.clients then REFUSED
    else
      var c := s.clients[id];
      if !c.status.Active? || c.invite != i.id || c.tunnel != q.tunnel || c.key != q.key
         || c.token != env.hash(q.token) || c.terms.published != q.terms.published || !c.notAfter.At? then REFUSED
      else
        Acceptance(Plan([s.(lines := Appended(s.lines, Entry(env, q.key, c.notAfter.time)))], true),
                   Proof(id, q.key, LeaseOf(c)))
  }

  /** The client record that enrollment goes on with: the stored one, or the new one. */
  function EnrollmentRecord(s: State, want: Client): (c: Client)
  {
    if want.id in s.clients then s.clients[want.id] else want
  }

  function ConsumedInvite(i: Invite, clientID: string, now: int): (j: Invite)
  {
    i.(status := Consumed, consumedAt := At(now), clientID := clientID)
  }

  /** Accept. */
  function AcceptPlan(env: Env, s: State, q: Enroll, now: int): (a: Acceptance)
  {
    if !q.wellFormed || !KeyAccepted(q.key) || q.invite !in s.invites then REFUSED
    else
      var i := s.invites[q.invite];
      if i.terms.published != q.terms.published then REFUSED
      else if i.status.Consumed? then ResumeAccepted(env, s, i, q)
      else if !i.status.Issued? then REFUSED
      else if i.nonce != q.nonce || i.clientName != q.clientName || i.terms != q.terms then REFUSED
      else if i.expiresAt <= now then Acceptance(Plan([PutInvite(s, i.(status := InviteExpired))], false), Refused)
      else if i.duration <= 0 then REFUSED
      else
        var want := PendingClient(env, i, q, now);
        var c := EnrollmentRecord(s, want);
        if want.id in s.clients && !SameEnrollment(c, want) then REFUSED
        else if !c.notAfter.At?
        then Acceptance(Plan(if want.id in s.clients then [] else [Put(s, want)], false), Refused)
        else
          var s1 := if want.id in s.clients then s else Put(s, want);
          var s2 := s1.(lines := Appended(s1.lines, Entry(env, q.key, c.notAfter.time)));
          var s3 := if c.status.EnrollmentPending? then Put(s2, c.(status := Active)) else s2;
          var s4 := PutInvite(s3, ConsumedInvite(i, want.id, now));
          Acceptance(Plan((if want.id in s.clients then [] else [s1]) + [s2]
                          + (if c.status.EnrollmentPending? then [s3] else []) + [s4], true),
                     Proof(want.id, q.key, LeaseOf(c)))
  }

  //////////////////////////////////////////////////////////////////////////////
  // Invites
  //////////////////////////////////////////////////////////////////////////////

  /** Store: a new invite. */
  function IssuePlan(s: State, i: Invite): (p: Plan)
  {
    if i.id in s.invites || !i.status.Issued? || i.clientID != "" then REFUSE else Plan([PutInvite(s, i)], true)
  }

  /** Cancel. */
  function CancelPlan(s: State, id: string, now: int): (p: Plan)
  {
    if id !in s.invites then REFUSE
    else
      var i := s.invites[id];
      if i.status.Cancelled? then Plan([], true)
      else if i.status.Consumed? || i.status.InviteRevoked? then REFUSE
      else Plan([PutInvite(s, i.(status := Cancelled, revokedAt := At(now)))], true)
  }

  /** Revoke. */
  function RevokeInvitePlan(s: State, id: string, now: int): (p: Plan)
  {
    if id !in s.invites then REFUSE
    else
      var i := s.invites[id];
      if i.status.InviteRevoked? then Plan([], true)
      else if i.status.Issued? || i.status.Cancelled? then REFUSE
      else Plan([PutInvite(s, i.(status := InviteRevoked, revokedAt := At(now)))], true)
  }

  /** The write of UnusedIssuedForGeneration for an issued invite past its time. */
  function LapsePlan(s: State, id: string, now: int): (p: Plan)
  {
    if id !in s.invites || !s.invites[id].status.Issued? || now < s.invites[id].expiresAt then Plan([], true)
    else Plan([PutInvite(s, s.invites[id].(status := InviteExpired))], true)
  }

  //////////////////////////////////////////////////////////////////////////////
  // All operations
  //////////////////////////////////////////////////////////////////////////////

  datatype Op =
    | Accept(enroll: Enroll, now: int)
    | Revoke(manage: Manage, now: int)
    | HostRevoke(id: string, now: int)
    | Complete(id: string, now: int)
    | Rotate(manage: Manage, now: int)
    | Expire(id: string, now: int)
    | Issue(newInvite: Invite)
    | Cancel(id: string, now: int)
    | RevokeInvite(id: string, now: int)
    | Lapse(id: string, now: int)
    | Rewrite(lines: seq<string>)

  /** The plan of an operation; Rewrite is any rewrite of authorized_keys alone. */
  function PlanOf(env: Env, s: State, op: Op): (p: Plan)
  {
    match op
    case Accept(q, now) => AcceptPlan(env, s, q, now).plan
    case Revoke(q, now) => RevokePlan(env, s, q, now)
    case HostRevoke(id, now) => HostRevokePlan(env, s, id, now)
    case Complete(id, now) => CompletePlan(env, s, id, now)
    case Rotate(q, now) => RotatePlan(env, s, q, now)
    case Expire(id, now) => ExpirePlan(env, s, id, now)
    case Issue(i) => IssuePlan(s, i)
    case Cancel(id, now) => CancelPlan(s, id, now)
    case RevokeInvite(id, now) => RevokeInvitePlan(s, id, now)
    case Lapse(id, now) => LapsePlan(s, id, now)
    case Rewrite(lines) => Plan([s.(lines := lines)], true)
  }

  /** An operation and the number of its writes that happen before it ends or crashes. */
  datatype Event = Event(op: Op, writes: nat)

  predicate ValidRun(env: Env, s: State, run: seq<Event>)
    decreases run
  {
    run == [] || (run[0].writes <= |PlanOf(env, s, run[0].op).writes|
                  && ValidRun(env, AtWrite(s, PlanOf(env, s, run[0].op), run[0].writes), run[1..]))
  }

  function After(env: Env, s: State, run: seq<Event>): (t: State)
    requires ValidRun(env, s, run)
    decreases run
  {
    if run == [] then s else After(env, AtWrite(s, PlanOf(env, s, run[0].op), run[0].writes), run[1..])
  }
}

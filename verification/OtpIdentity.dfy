/**
 * The local one-time-code identity provider: a session climbs from ANONYMOUS only by a code sent to one of its
 * own contact details coming back, within a bounded number of guesses, once.
 *
 * Completing a verification awaits the customer lookup after the code has matched, so it is two steps with
 * anything in between. Keyed hashes are taken as injective: a proof matches exactly when it is the code.
 */
module OtpIdentity {
  import opened Options

  type SessionId = nat
  type ChallengeId = nat

  datatype Method = OTP_MOBILE | OTP_EMAIL | POLICY_LOOKUP | AUTH_PORTAL

  datatype Assurance = ANONYMOUS | PSEUDONYMOUS | VERIFIED_CUSTOMER

  datatype Hints = Hints(mobile: Option<string>, email: Option<string>)

  datatype Session = Session(
    assurance: Assurance, customerRef: Option<string>, expiresAt: int, verifiedAt: Option<int>, hints: Hints)

  datatype Challenge = Challenge(
    sessionId: SessionId, method_: Method, destination: string, code: string, expiresAt: int, attemptsRemaining: int)

  datatype Limits = Limits(sessionTtlMs: int, challengeTtlMs: int, maxAttempts: int)

  /** A matched code whose customer lookup has not answered yet. */
  datatype Pending = Pending(sessionId: SessionId, at: int)

  /** An observer's note of a match: which session, when, and until when the challenge was good. */
  datatype Proof = Proof(sessionId: SessionId, at: int, expiresAt: int)

  /** After the first two tables and the counter, everything is bookkeeping or what awaits have captured. */
  datatype State = State(
    sessions: map<SessionId, Session>, challenges: map<ChallengeId, Challenge>, nextId: nat,
    pending: map<ChallengeId, Pending>,
    compared: map<ChallengeId, nat>, matches: map<ChallengeId, nat>, proofs: map<ChallengeId, Proof>, answered: set<ChallengeId>)

  const EMPTY := State(map[], map[], 0, map[], map[], map[], map[], {})

  const DEFAULT_MAX_ATTEMPTS := 5

  function DestinationFor(m: Method, hints: Hints): Option<string> {
    match m
    case OTP_MOBILE => hints.mobile
    case OTP_EMAIL => hints.email
    case _ => None
  }

  function Count(counts: map<ChallengeId, nat>, id: ChallengeId): nat {
    if id in counts then counts[id] else 0
  }

  // ---------------------------------------------------------------- the steps

  predicate IsLive(s: State, id: SessionId, at: int) {
    id in s.sessions && s.sessions[id].expiresAt > at
  }

  /** Looking a session up forgets it if it has expired. */
  function Lookup(s: State, id: SessionId, at: int): State {
    if id in s.sessions && s.sessions[id].expiresAt <= at then s.(sessions := s.sessions - {id}) else s
  }

  function NewSession(s: State, l: Limits, hints: Hints, at: int): State {
    s.(sessions := s.sessions[s.nextId := Session(ANONYMOUS, None, at + l.sessionTtlMs, None, hints)], nextId := s.nextId + 1)
  }

  function Begin(s: State, l: Limits, id: SessionId, m: Method, code: string, at: int): State {
    if !IsLive(s, id, at) then Lookup(s, id, at)
    else
      var destination := DestinationFor(m, s.sessions[id].hints);
      if destination.None? || destination.value == "" then s
      else s.(challenges := s.challenges[s.nextId :=
                Challenge(id, m, destination.value, code, at + l.challengeTtlMs, l.maxAttempts)],
              nextId := s.nextId + 1, compared := s.compared[s.nextId := 0], matches := s.matches[s.nextId := 0])
  }

  predicate MayTry(s: State, id: SessionId, challengeId: ChallengeId, at: int) {
    && IsLive(s, id, at) && challengeId in s.challenges
    && s.challenges[challengeId].sessionId == id && s.challenges[challengeId].expiresAt > at
    && s.challenges[challengeId].attemptsRemaining > 0
  }

  /** Up to the await: the attempt is paid for before the comparison, and a match burns the challenge. */
  function Redeem(s: State, id: SessionId, challengeId: ChallengeId, proof: string, at: int): State {
    if !MayTry(s, id, challengeId, at) then Lookup(s, id, at)
    else
      var c := s.challenges[challengeId];
      var paid := s.(challenges := s.challenges[challengeId := c.(attemptsRemaining := c.attemptsRemaining - 1)],
                     compared := s.compared[challengeId := Count(s.compared, challengeId) + 1]);
      if proof != c.code then paid
      else paid.(challenges := s.challenges - {challengeId},
                 matches := s.matches[challengeId := Count(s.matches, challengeId) + 1],
                 pending := s.pending[challengeId := Pending(id, at)],
                 proofs := s.proofs[challengeId := Proof(id, at, c.expiresAt)])
  }

  /** After the await: the session is raised, if it is still there to be. */
  function Answer(s: State, challengeId: ChallengeId, customerRef: Option<string>): State {
    if challengeId !in s.pending then s
    else
      var p := s.pending[challengeId];
      var done := s.(pending := s.pending - {challengeId}, answered := s.answered + {challengeId});
      if p.sessionId !in s.sessions then done
      else done.(sessions := s.sessions[p.sessionId := Raised(s.sessions[p.sessionId], customerRef, p.at)])
  }

  function Raised(session: Session, customerRef: Option<string>, at: int): Session {
    session.(assurance := if customerRef.Some? then VERIFIED_CUSTOMER else PSEUDONYMOUS,
             customerRef := if customerRef.Some? then customerRef else session.customerRef, verifiedAt := Some(at))
  }

  /** The lookup failed: the code is spent and nothing was raised. */
  function Fail(s: State, challengeId: ChallengeId): State {
    s.(pending := s.pending - {challengeId})
  }

  function Invalidate(s: State, id: SessionId): State {
    s.(sessions := s.sessions - {id},
       challenges := map c | c in s.challenges && s.challenges[c].sessionId != id :: s.challenges[c])
  }

  datatype Event =
    | Creates(hints: Hints, at: int)
    | Begins(session: SessionId, m: Method, code: string, at: int)
    | Redeems(session: SessionId, challenge: ChallengeId, proof: string, at: int)
    | Answers(challenge: ChallengeId, customerRef: Option<string>)
    | Fails(challenge: ChallengeId)
    | Invalidates(session: SessionId)
    | Resolves(session: SessionId, at: int)

  function Step(l: Limits, s: State, e: Event): State {
    match e
    case Creates(hints, at) => NewSession(s, l, hints, at)
    case Begins(session, m, code, at) => Begin(s, l, session, m, code, at)
    case Redeems(session, challenge, proof, at) => Redeem(s, session, challenge, proof, at)
    case Answers(challenge, customerRef) => Answer(s, challenge, customerRef)
    case Fails(challenge) => Fail(s, challenge)
    case Invalidates(session) => Invalidate(s, session)
    case Resolves(session, at) => Lookup(s, session, at)
  }

  function Run(l: Limits, s: State, events: seq<Event>): State {
    if events == [] then s else Step(l, Run(l, s, events[..|events| - 1]), events[|events| - 1])
  }

  // ---------------------------------------------------------------- the code

  datatype Result<T> = Ok(value: T) | Refused

  /** A session's own mobile number or mail address; empty if it gave none. */
  function OwnDetail(m: Method, hints: Hints): string {
    var detail := if m == OTP_MOBILE then hints.mobile else hints.email;
    if detail.Some? then detail.value else ""
  }

  class LocalOtpIdentity {
    var sessions: map<SessionId, Session>
    var challenges: map<ChallengeId, Challenge>
    var nextId: nat
    ghost var pending: map<ChallengeId, Pending>
    ghost var compared: map<ChallengeId, nat>
    ghost var matches: map<ChallengeId, nat>
    ghost var proofs: map<ChallengeId, Proof>
    ghost var answered: set<ChallengeId>
    const limits: Limits

    ghost function View(): State
      reads this
    {
      State(sessions, challenges, nextId, pending, compared, matches, proofs, answered)
    }

    constructor (sessionTtlSeconds: Option<int>, challengeTtlSeconds: Option<int>, maxAttempts: Option<int>)
      ensures View() == EMPTY
      ensures limits == Limits(1000 * (if sessionTtlSeconds.Some? then sessionTtlSeconds.value else 30 * 60),
                               1000 * (if challengeTtlSeconds.Some? then challengeTtlSeconds.value else 5 * 60),
                               if maxAttempts.Some? then maxAttempts.value else DEFAULT_MAX_ATTEMPTS)
    {
      sessions, challenges, nextId := map[], map[], 0;
      pending, compared, matches, proofs, answered := map[], map[], map[], map[], {};
      limits := Limits(1000 * (if sessionTtlSeconds.Some? then sessionTtlSeconds.value else 30 * 60),
                       1000 * (if challengeTtlSeconds.Some? then challengeTtlSeconds.value else 5 * 60),
                       if maxAttempts.Some? then maxAttempts.value else DEFAULT_MAX_ATTEMPTS);
    }

    method LiveSession(id: SessionId, at: int) returns (session: Option<Session>)
      modifies this`sessions
      ensures View() == Lookup(old(View()), id, at)
      ensures session == if id in old(sessions) && at < old(sessions)[id].expiresAt then Some(old(sessions)[id]) else None
      ensures sessions == if id in old(sessions) && old(sessions)[id].expiresAt <= at then old(sessions) - {id} else old(sessions)
    {
      if id !in sessions {
        return None;
      }
      if sessions[id].expiresAt <= at {
        sessions := sessions - {id};
        return None;
      }
      return Some(sessions[id]);
    }

    method CreateSession(hints: Hints, at: int) returns (id: SessionId)
      modifies this
      ensures id == old(nextId) && View() == NewSession(old(View()), limits, hints, at)
      ensures sessions == old(sessions)[id := Session(ANONYMOUS, None, at + limits.sessionTtlMs, None, hints)]
      ensures nextId == id + 1 && challenges == old(challenges)
    {
      id := nextId;
      nextId := nextId + 1;
      sessions := sessions[id := Session(ANONYMOUS, None, at + limits.sessionTtlMs, None, hints)];
    }

    /** Issues a challenge to a contact detail of the session's own, or refuses; the code goes out of band. */
    method BeginVerification(sessionId: SessionId, m: Method, code: string, at: int) returns (r: Result<ChallengeId>)
      modifies this
      ensures View() == Begin(old(View()), limits, sessionId, m, code, at)
      ensures var live := sessionId in old(sessions) && at < old(sessions)[sessionId].expiresAt;
              && (r.Ok? <==> live && m in {OTP_MOBILE, OTP_EMAIL} && OwnDetail(m, old(sessions)[sessionId].hints) != "")
              && (live ==> sessions == old(sessions))
      ensures r.Ok? ==>
                && r.value == old(nextId) && nextId == r.value + 1
                && challenges == old(challenges)[r.value :=
                     Challenge(sessionId, m, OwnDetail(m, old(sessions)[sessionId].hints), code,
                               at + limits.challengeTtlMs, limits.maxAttempts)]
      ensures r.Refused? ==> challenges == old(challenges) && nextId == old(nextId)
    {
      var session := LiveSession(sessionId, at);
      if session.None? {
        return Refused;
      }
      var target := DestinationFor(m, session.value.hints);
      if target.None? || target.value == "" {
        return Refused;
      }
      var id := nextId;
      nextId := nextId + 1;
      challenges := challenges[id := Challenge(sessionId, m, target.value, code, at + limits.challengeTtlMs, limits.maxAttempts)];
      compared, matches := compared[id := 0], matches[id := 0];
      return Ok(id);
    }

    /** Completing a verification, as far as the customer lookup: what to look up, or the one refusal. */
    method MatchCode(sessionId: SessionId, challengeId: ChallengeId, proof: string, at: int) returns (r: Result<(Method, string)>)
      modifies this
      ensures View() == Redeem(old(View()), sessionId, challengeId, proof, at)
      ensures var open := sessionId in old(sessions) && at < old(sessions)[sessionId].expiresAt
                          && challengeId in old(challenges) && old(challenges)[challengeId].sessionId == sessionId
                          && at < old(challenges)[challengeId].expiresAt && old(challenges)[challengeId].attemptsRemaining > 0;
              && (r.Ok? <==> open && old(challenges)[challengeId].code == proof)
              && challenges == (if !open then old(challenges)
                                else if r.Ok? then old(challenges) - {challengeId}
                                else old(challenges)[challengeId := old(challenges)[challengeId].(
                                       attemptsRemaining := old(challenges)[challengeId].attemptsRemaining - 1)])
              && (open ==> sessions == old(sessions))
      ensures r.Ok? ==>
                && r.value == (old(challenges)[challengeId].method_, old(challenges)[challengeId].destination)
                && pending == old(pending)[challengeId := Pending(sessionId, at)]
    {
      var session := LiveSession(sessionId, at);
      if session.None? {
        return Refused;
      }
      if challengeId !in challenges || challenges[challengeId].sessionId != sessionId
         || challenges[challengeId].expiresAt <= at || challenges[challengeId].attemptsRemaining <= 0 {
        return Refused;
      }
      var challenge := challenges[challengeId];
      challenges := challenges[challengeId := challenge.(attemptsRemaining := challenge.attemptsRemaining - 1)];
      compared := compared[challengeId := Count(compared, challengeId) + 1];
      if challenge.code != proof {
        return Refused;
      }
      challenges := challenges - {challengeId};
      matches := matches[challengeId := Count(matches, challengeId) + 1];
      pending := pending[challengeId := Pending(sessionId, at)];
      proofs := proofs[challengeId := Proof(sessionId, at, challenge.expiresAt)];
      assert challenges == old(challenges) - {challengeId};
      return Ok((challenge.method_, challenge.destination));
    }

    /** The lookup has answered: the session captured before it is raised. */
    method RaiseAssurance(sessionId: SessionId, challengeId: ChallengeId, customerRef: Option<string>, at: int)
      requires challengeId in pending && pending[challengeId] == Pending(sessionId, at)
      modifies this
      ensures View() == Answer(old(View()), challengeId, customerRef)
      ensures sessions == if sessionId !in old(sessions) then old(sessions)
                          else if customerRef.Some?
                          then old(sessions)[sessionId := old(sessions)[sessionId].(
                                 assurance := VERIFIED_CUSTOMER, customerRef := customerRef, verifiedAt := Some(at))]
                          else old(sessions)[sessionId := old(sessions)[sessionId].(
                                 assurance := PSEUDONYMOUS, verifiedAt := Some(at))]
    {
      pending, answered := pending - {challengeId}, answered + {challengeId};
      if sessionId in sessions {
        var session := sessions[sessionId];
        session := session.(assurance := if customerRef.Some? then VERIFIED_CUSTOMER else PSEUDONYMOUS);
        if customerRef.Some? {
          session := session.(customerRef := customerRef);
        }
        sessions := sessions[sessionId := session.(verifiedAt := Some(at))];
      }
    }

    /** Ends a session and drops every challenge of it. */
    method InvalidateSession(sessionId: SessionId)
      modifies this
      ensures View() == Invalidate(old(View()), sessionId)
      ensures sessionId !in sessions && forall c :: c in challenges ==> challenges[c].sessionId != sessionId
    {
      sessions := sessions - {sessionId};
      DropChallenges(sessionId);
    }

    method DropChallenges(sessionId: SessionId)
      modifies this`challenges
      ensures challenges == map c | c in old(challenges) && old(challenges)[c].sessionId != sessionId :: old(challenges)[c]
    {
      ghost var was := challenges;
      var ids := challenges.Keys;
      while ids != {}
        invariant ids <= was.Keys
        invariant challenges.Keys <= was.Keys && forall c :: c in challenges ==> challenges[c] == was[c]
        invariant forall c :: c in was ==> (c in challenges <==> c in ids || was[c].sessionId != sessionId)
        decreases |ids|
      {
        var id :| id in ids;
        if challenges[id].sessionId == sessionId {
          challenges := challenges - {id};
        }
        ids := ids - {id};
      }
    }
  }

  // ---------------------------------------------------------------- what every run keeps

  function Bound(l: Limits): nat {
    if l.maxAttempts > 0 then l.maxAttempts else 0
  }

  /** A challenge that can still be tried: every attempt it lost was a comparison, and none has matched. */
  ghost predicate ChallengeSafe(l: Limits, s: State, id: ChallengeId, c: Challenge) {
    && id < s.nextId && c.sessionId < s.nextId && id in s.compared && id in s.matches && s.matches[id] == 0
    && s.compared[id] + c.attemptsRemaining == l.maxAttempts
    && (s.compared[id] > 0 ==> c.attemptsRemaining >= 0) && id !in s.proofs
  }

  ghost predicate ChallengesSafe(l: Limits, s: State) {
    forall id :: id in s.challenges ==> ChallengeSafe(l, s, id, s.challenges[id])
  }

  ghost predicate CountsSafe(l: Limits, s: State) {
    && (forall id :: id in s.compared ==> id < s.nextId && s.compared[id] <= Bound(l))
    && (forall id :: id in s.matches ==> id < s.nextId && s.matches[id] <= 1)
  }

  ghost predicate ProofsSafe(s: State) {
    && (forall id :: id in s.proofs ==>
          id < s.nextId && s.proofs[id].sessionId < s.nextId && s.proofs[id].at < s.proofs[id].expiresAt)
    && (forall id :: id in s.pending ==> id in s.proofs && id !in s.answered && s.proofs[id].sessionId == s.pending[id].sessionId)
    && (forall id :: id in s.answered ==> id in s.proofs)
  }

  /** Some challenge of this very session was matched before it expired, and its lookup has answered. */
  ghost predicate Proven(proofs: map<ChallengeId, Proof>, answered: set<ChallengeId>, id: SessionId) {
    exists c :: c in answered && c in proofs && proofs[c].sessionId == id && proofs[c].at < proofs[c].expiresAt
  }

  ghost predicate SessionsSafe(s: State) {
    forall id :: id in s.sessions ==>
      id < s.nextId && (s.sessions[id].assurance != ANONYMOUS <==> Proven(s.proofs, s.answered, id))
  }

  ghost predicate Safe(l: Limits, s: State) {
    ChallengesSafe(l, s) && CountsSafe(l, s) && ProofsSafe(s) && SessionsSafe(s)
  }

  lemma LookupKeeps(l: Limits, s: State, id: SessionId, at: int)
    requires Safe(l, s)
    ensures Safe(l, Lookup(s, id, at))
  {
    hide Proven;
  }

  lemma NewSessionKeeps(l: Limits, s: State, hints: Hints, at: int)
    requires Safe(l, s)
    ensures Safe(l, NewSession(s, l, hints, at))
  {
    NothingProvenYet(s);
    hide Proven;
  }

  lemma NothingProvenYet(s: State)
    requires ProofsSafe(s)
    ensures !Proven(s.proofs, s.answered, s.nextId)
  {
  }

  lemma BegunChallenges(l: Limits, s: State, id: SessionId, m: Method, code: string, at: int)
    requires ChallengesSafe(l, s) && CountsSafe(l, s) && ProofsSafe(s) && id < s.nextId && IsLive(s, id, at)
    ensures ChallengesSafe(l, Begin(s, l, id, m, code, at)) && CountsSafe(l, Begin(s, l, id, m, code, at))
  {
    hide DestinationFor;
    var t := Begin(s, l, id, m, code, at);
    forall c | c in t.challenges
      ensures ChallengeSafe(l, t, c, t.challenges[c])
    {
      if c in s.challenges {
        assert ChallengeSafe(l, s, c, s.challenges[c]);
      }
    }
  }

  lemma BeginKeeps(l: Limits, s: State, id: SessionId, m: Method, code: string, at: int)
    requires Safe(l, s)
    ensures Safe(l, Begin(s, l, id, m, code, at))
  {
    hide Proven, DestinationFor, ChallengesSafe, CountsSafe;
    LookupKeeps(l, s, id, at);
    if IsLive(s, id, at) {
      BegunChallenges(l, s, id, m, code, at);
    }
  }

  /** Paying for an attempt whose code was wrong. */
  lemma WrongCodeKeeps(l: Limits, s: State, id: SessionId, challengeId: ChallengeId, proof: string, at: int)
    requires Safe(l, s) && MayTry(s, id, challengeId, at) && proof != s.challenges[challengeId].code
    ensures Safe(l, Redeem(s, id, challengeId, proof, at))
  {
    hide Proven;
    var t := Redeem(s, id, challengeId, proof, at);
    assert ChallengeSafe(l, s, challengeId, s.challenges[challengeId]);
    forall c | c in t.challenges
      ensures ChallengeSafe(l, t, c, t.challenges[c])
    {
      assert ChallengeSafe(l, s, c, s.challenges[c]);
    }
  }

  /** A match: one more proof, not yet answered. */
  lemma MatchKeepsSessions(l: Limits, s: State, id: SessionId, challengeId: ChallengeId, proof: string, at: int)
    requires Safe(l, s) && MayTry(s, id, challengeId, at) && proof == s.challenges[challengeId].code
    ensures SessionsSafe(Redeem(s, id, challengeId, proof, at))
  {
    hide ChallengesSafe, CountsSafe;
    var t := Redeem(s, id, challengeId, proof, at);
    assert challengeId !in s.proofs by {
      FreshChallenge(l, s, challengeId);
    }
    forall x | x in t.sessions
      ensures Proven(t.proofs, t.answered, x) <==> Proven(s.proofs, s.answered, x)
    {
      ProvenBefore(s.proofs, s.answered, challengeId, t.proofs[challengeId], x);
    }
  }

  lemma FreshChallenge(l: Limits, s: State, challengeId: ChallengeId)
    requires ChallengesSafe(l, s) && challengeId in s.challenges
    ensures challengeId !in s.proofs
  {
    assert ChallengeSafe(l, s, challengeId, s.challenges[challengeId]);
  }

  /** A proof that no answer refers to yet proves nothing. */
  lemma ProvenBefore(proofs: map<ChallengeId, Proof>, answered: set<ChallengeId>, newest: ChallengeId, p: Proof, x: SessionId)
    requires newest !in answered
    ensures Proven(proofs[newest := p], answered, x) <==> Proven(proofs, answered, x)
  {
    if Proven(proofs, answered, x) {
      var c :| c in answered && c in proofs && proofs[c].sessionId == x && proofs[c].at < proofs[c].expiresAt;
      assert c in proofs[newest := p];
    }
  }

  lemma MatchKeeps(l: Limits, s: State, id: SessionId, challengeId: ChallengeId, proof: string, at: int)
    requires Safe(l, s) && MayTry(s, id, challengeId, at) && proof == s.challenges[challengeId].code
    ensures Safe(l, Redeem(s, id, challengeId, proof, at))
  {
    hide SessionsSafe;
    MatchKeepsSessions(l, s, id, challengeId, proof, at);
    var t := Redeem(s, id, challengeId, proof, at);
    assert ChallengeSafe(l, s, challengeId, s.challenges[challengeId]);
    forall c | c in t.challenges
      ensures ChallengeSafe(l, t, c, t.challenges[c])
    {
      assert ChallengeSafe(l, s, c, s.challenges[c]);
    }
    SessionIsKnown(s, id);
  }

  lemma SessionIsKnown(s: State, id: SessionId)
    requires SessionsSafe(s) && id in s.sessions
    ensures id < s.nextId
  {
  }

  lemma AnswerKeeps(l: Limits, s: State, challengeId: ChallengeId, customerRef: Option<string>)
    requires Safe(l, s)
    ensures Safe(l, Answer(s, challengeId, customerRef))
  {
    hide SessionsSafe;
    if challengeId in s.pending {
      var t := Answer(s, challengeId, customerRef);
      forall c | c in t.challenges
        ensures ChallengeSafe(l, t, c, t.challenges[c])
      {
        assert ChallengeSafe(l, s, c, s.challenges[c]);
      }
      AnswerKeepsSessions(s, challengeId, customerRef);
    }
  }

  /** One more answer proves one more session: its own. */
  lemma ProvenAfter(proofs: map<ChallengeId, Proof>, answered: set<ChallengeId>, c: ChallengeId, x: SessionId)
    requires c in proofs && proofs[c].at < proofs[c].expiresAt
    ensures Proven(proofs, answered + {c}, x) <==> Proven(proofs, answered, x) || x == proofs[c].sessionId
  {
    if Proven(proofs, answered, x) {
      var d :| d in answered && d in proofs && proofs[d].sessionId == x && proofs[d].at < proofs[d].expiresAt;
      assert d in answered + {c};
    }
    if x == proofs[c].sessionId {
      assert c in answered + {c};
    }
  }

  lemma AnswerKeepsSessions(s: State, challengeId: ChallengeId, customerRef: Option<string>)
    requires ProofsSafe(s) && SessionsSafe(s) && challengeId in s.pending
    ensures SessionsSafe(Answer(s, challengeId, customerRef))
  {
    hide Proven;
    var t := Answer(s, challengeId, customerRef);
    forall x | x in t.sessions
      ensures x < t.nextId && (t.sessions[x].assurance != ANONYMOUS <==> Proven(t.proofs, t.answered, x))
    {
      ProvenAfter(s.proofs, s.answered, challengeId, x);
    }
  }

  lemma InvalidateKeeps(l: Limits, s: State, id: SessionId)
    requires Safe(l, s)
    ensures Safe(l, Invalidate(s, id))
  {
    hide Proven;
    forall c | c in Invalidate(s, id).challenges
      ensures ChallengeSafe(l, Invalidate(s, id), c, Invalidate(s, id).challenges[c])
    {
      assert ChallengeSafe(l, s, c, s.challenges[c]);
    }
  }

  lemma FailKeeps(l: Limits, s: State, challengeId: ChallengeId)
    requires Safe(l, s)
    ensures Safe(l, Fail(s, challengeId))
  {
    hide Proven;
  }

  lemma StepKeeps(l: Limits, s: State, e: Event)
    requires Safe(l, s)
    ensures Safe(l, Step(l, s, e))
  {
    hide Safe, NewSession, Begin, Answer, Fail, Invalidate, Lookup;
    match e
    case Creates(hints, at) => NewSessionKeeps(l, s, hints, at);
    case Begins(session, m, code, at) => BeginKeeps(l, s, session, m, code, at);
    case Redeems(session, challenge, proof, at) =>
      if !MayTry(s, session, challenge, at) {
        LookupKeeps(l, s, session, at);
      } else if proof == s.challenges[challenge].code {
        MatchKeeps(l, s, session, challenge, proof, at);
      } else {
        WrongCodeKeeps(l, s, session, challenge, proof, at);
      }
    case Answers(challenge, customerRef) => AnswerKeeps(l, s, challenge, customerRef);
    case Fails(challenge) => FailKeeps(l, s, challenge);
    case Invalidates(session) => InvalidateKeeps(l, s, session);
    case Resolves(session, at) => LookupKeeps(l, s, session, at);
  }

  lemma {:induction false} SafeOnwards(l: Limits, s: State, events: seq<Event>)
    requires Safe(l, s)
    ensures Safe(l, Run(l, s, events))
  {
    hide Safe, Step;
    if events != [] {
      SafeOnwards(l, s, events[..|events| - 1]);
      StepKeeps(l, Run(l, s, events[..|events| - 1]), events[|events| - 1]);
    }
  }

  lemma EveryRunIsSafe(l: Limits, events: seq<Event>)
    ensures Safe(l, Run(l, EMPTY, events))
  {
    SafeOnwards(l, EMPTY, events);
  }

  // ---------------------------------------------------------------- what an observer notes

  /** The event compares a proof with the code of an open challenge of a live session. */
  predicate Compares(s: State, e: Event, id: ChallengeId) {
    && e.Redeems? && e.challenge == id && e.session in s.sessions && e.at < s.sessions[e.session].expiresAt
    && id in s.challenges && s.challenges[id].sessionId == e.session && e.at < s.challenges[id].expiresAt
    && s.challenges[id].attemptsRemaining > 0
  }

  predicate Succeeds(s: State, e: Event, id: ChallengeId) {
    Compares(s, e, id) && s.challenges[id].code == e.proof
  }

  /** The counts of the comparisons and of the matches. */
  ghost predicate Counted(s: State, e: Event, t: State, id: ChallengeId) {
    && Count(t.compared, id) == Count(s.compared, id) + (if Compares(s, e, id) then 1 else 0)
    && Count(t.matches, id) == Count(s.matches, id) + (if Succeeds(s, e, id) then 1 else 0)
  }

  /** What a match proves, and the lookups that wait for an answer or have one. */
  ghost predicate Noted(s: State, e: Event, t: State, id: ChallengeId) {
    if Succeeds(s, e, id) then
      && id in t.proofs && t.proofs[id] == Proof(e.session, e.at, s.challenges[id].expiresAt)
      && id in t.pending && t.pending[id] == Pending(e.session, e.at) && id !in t.challenges
      && (id in t.answered <==> id in s.answered)
    else
      && (id in t.proofs <==> id in s.proofs) && (id in s.proofs ==> t.proofs[id] == s.proofs[id])
      && (id in t.pending <==> id in s.pending && !((e.Answers? || e.Fails?) && e.challenge == id))
      && (id in t.pending ==> t.pending[id] == s.pending[id])
      && (id in t.answered <==> id in s.answered || (id in s.pending && e.Answers? && e.challenge == id))
  }

  lemma RedeemIsCounted(l: Limits, s: State, e: Event, id: ChallengeId)
    requires e.Redeems?
    ensures Counted(s, e, Step(l, s, e), id)
  {
    assert MayTry(s, e.session, e.challenge, e.at) <==> Compares(s, e, e.challenge);
  }

  lemma StepIsCounted(l: Limits, s: State, e: Event, id: ChallengeId)
    requires CountsSafe(l, s)
    ensures Counted(s, e, Step(l, s, e), id)
  {
    hide Raised, DestinationFor, Redeem;
    if e.Redeems? {
      RedeemIsCounted(l, s, e, id);
    }
  }

  lemma RedeemIsNoted(l: Limits, s: State, e: Event, id: ChallengeId)
    requires e.Redeems?
    ensures Noted(s, e, Step(l, s, e), id)
  {
    hide Count;
    assert MayTry(s, e.session, e.challenge, e.at) <==> Compares(s, e, e.challenge);
  }

  lemma StepIsNoted(l: Limits, s: State, e: Event, id: ChallengeId)
    ensures Noted(s, e, Step(l, s, e), id)
  {
    hide Raised, DestinationFor, Count, Redeem;
    if e.Redeems? {
      RedeemIsNoted(l, s, e, id);
    }
  }

  /** The notes are of what happened, at every step of every run. */
  lemma NotesAreWhatHappened(l: Limits, events: seq<Event>, e: Event, id: ChallengeId)
    ensures var s, t := Run(l, EMPTY, events), Run(l, EMPTY, events + [e]);
            Counted(s, e, t, id) && Noted(s, e, t, id)
  {
    hide Run, Step, Counted, Noted, CountsSafe;
    var s := Run(l, EMPTY, events);
    EveryRunIsSafe(l, events);
    LastStep(l, events, e);
    StepIsCounted(l, s, e, id);
    StepIsNoted(l, s, e, id);
  }

  lemma LastStep(l: Limits, events: seq<Event>, e: Event)
    ensures Run(l, EMPTY, events + [e]) == Step(l, Run(l, EMPTY, events), e)
  {
    assert (events + [e])[..|events|] == events;
  }

  // ---------------------------------------------------------------- what that means

  /** Guessing is bounded: for a stored challenge, comparisons made and attempts left add up to the maximum. */
  lemma AttemptsAddUp(l: Limits, events: seq<Event>, id: ChallengeId)
    ensures var s := Run(l, EMPTY, events);
            id in s.challenges ==>
              Count(s.compared, id) + s.challenges[id].attemptsRemaining == l.maxAttempts && Count(s.matches, id) == 0
  {
    hide Run;
    EveryRunIsSafe(l, events);
    var s := Run(l, EMPTY, events);
    assert id in s.challenges ==> ChallengeSafe(l, s, id, s.challenges[id]);
  }

  /** Nor is any challenge ever issued, stored still or not, compared beyond the maximum or matched twice. */
  lemma EveryChallengeSucceedsAtMostOnce(l: Limits, events: seq<Event>, id: ChallengeId)
    ensures var s := Run(l, EMPTY, events);
            Count(s.compared, id) <= Bound(l) && Count(s.matches, id) <= 1
  {
    hide Run;
    EveryRunIsSafe(l, events);
  }

  /**
   * A session is above ANONYMOUS exactly when a challenge of its own was matched before it expired and the
   * customer lookup that follows a match has answered.
   */
  lemma AssuranceIsProven(l: Limits, events: seq<Event>, id: SessionId)
    ensures var s := Run(l, EMPTY, events);
            id in s.sessions ==> (s.sessions[id].assurance != ANONYMOUS <==> Proven(s.proofs, s.answered, id))
  {
    hide Run;
    EveryRunIsSafe(l, events);
  }

  /** Nothing of a session: neither itself nor a challenge, and none can come to be. */
  ghost predicate Gone(s: State, id: SessionId) {
    id < s.nextId && id !in s.sessions && forall c :: c in s.challenges ==> s.challenges[c].sessionId != id
  }

  lemma {:induction false} GoneForGood(l: Limits, s: State, id: SessionId, more: seq<Event>)
    requires Gone(s, id)
    ensures Gone(Run(l, s, more), id)
  {
    if more != [] {
      GoneForGood(l, s, id, more[..|more| - 1]);
      GoneStep(l, Run(l, s, more[..|more| - 1]), id, more[|more| - 1]);
    }
  }

  lemma GoneStep(l: Limits, s: State, id: SessionId, e: Event)
    requires Gone(s, id)
    ensures Gone(Step(l, s, e), id)
  {
    hide DestinationFor;
  }

  /** Invalidating a session leaves no challenge of it, and nothing that happens afterwards brings one back. */
  lemma InvalidateIsFinal(l: Limits, events: seq<Event>, id: SessionId, more: seq<Event>)
    requires id < Run(l, EMPTY, events).nextId
    ensures Gone(Run(l, Invalidate(Run(l, EMPTY, events), id), more), id)
  {
    hide Run;
    GoneForGood(l, Invalidate(Run(l, EMPTY, events), id), id, more);
  }

  /** A challenge that was issued, and is no longer there or belongs to a session that is not. */
  ghost predicate Orphaned(s: State, c: ChallengeId) {
    && c < s.nextId
    && (c in s.challenges ==> s.challenges[c].sessionId < s.nextId && s.challenges[c].sessionId !in s.sessions)
  }

  lemma RedeemLeavesOrphans(s: State, c: ChallengeId, id: SessionId, challengeId: ChallengeId, proof: string, at: int)
    requires Orphaned(s, c)
    ensures var t := Redeem(s, id, challengeId, proof, at);
            Orphaned(t, c) && Count(t.compared, c) == Count(s.compared, c) && Count(t.matches, c) == Count(s.matches, c)
  {
    assert MayTry(s, id, challengeId, at) ==> challengeId != c;
  }

  lemma OrphanStep(l: Limits, s: State, c: ChallengeId, e: Event)
    requires Orphaned(s, c)
    ensures var t := Step(l, s, e);
            Orphaned(t, c) && Count(t.compared, c) == Count(s.compared, c) && Count(t.matches, c) == Count(s.matches, c)
  {
    hide DestinationFor, Redeem, Raised;
    if e.Redeems? {
      RedeemLeavesOrphans(s, c, e.session, e.challenge, e.proof, e.at);
    }
  }

  lemma {:induction false} OrphansOnwards(l: Limits, s: State, c: ChallengeId, more: seq<Event>)
    requires Orphaned(s, c)
    ensures var t := Run(l, s, more);
            Orphaned(t, c) && Count(t.compared, c) == Count(s.compared, c) && Count(t.matches, c) == Count(s.matches, c)
  {
    hide Orphaned, Step;
    if more != [] {
      OrphansOnwards(l, s, c, more[..|more| - 1]);
      OrphanStep(l, Run(l, s, more[..|more| - 1]), c, more[|more| - 1]);
    }
  }

  /** A challenge that outlives its session, which an expiry leaves behind, is never compared with anything again. */
  lemma OrphansAreUseless(l: Limits, events: seq<Event>, c: ChallengeId, more: seq<Event>)
    requires var s := Run(l, EMPTY, events); c in s.challenges && s.challenges[c].sessionId !in s.sessions
    ensures var s, t := Run(l, EMPTY, events), Run(l, Run(l, EMPTY, events), more);
            && Count(t.compared, c) == Count(s.compared, c) && Count(t.matches, c) == 0
            && (c in t.challenges ==> t.challenges[c].sessionId !in t.sessions)
  {
    hide Run;
    var s := Run(l, EMPTY, events);
    EveryRunIsSafe(l, events);
    assert ChallengeSafe(l, s, c, s.challenges[c]);
    OrphansOnwards(l, s, c, more);
  }

  // ---------------------------------------------------------------- where a code is sent

  /** A challenge goes to the mobile number or the mail address of its own session, whichever it is for. */
  predicate GoesToItsOwner(s: State, c: Challenge) {
    && c.method_ in {OTP_MOBILE, OTP_EMAIL} && c.destination != ""
    && (c.sessionId in s.sessions ==>
          (if c.method_ == OTP_MOBILE then s.sessions[c.sessionId].hints.mobile else s.sessions[c.sessionId].hints.email)
          == Some(c.destination))
  }

  ghost predicate AllGoHome(s: State) {
    forall c :: c in s.challenges ==> s.challenges[c].sessionId < s.nextId && GoesToItsOwner(s, s.challenges[c])
  }

  lemma HintsStay(l: Limits, s: State, e: Event, id: SessionId)
    requires SessionsSafe(s) && id in Step(l, s, e).sessions
    ensures if id in s.sessions then Step(l, s, e).sessions[id].hints == s.sessions[id].hints else id == s.nextId
  {
    SessionChanges(l, s, e, id);
  }

  lemma DestinationsStay(l: Limits, s: State, e: Event, c: ChallengeId)
    requires c in Step(l, s, e).challenges && c != s.nextId
    ensures c in s.challenges
    ensures Step(l, s, e).challenges[c].(attemptsRemaining := 0) == s.challenges[c].(attemptsRemaining := 0)
  {
    hide DestinationFor, Raised;
  }

  lemma NewOnesGoHome(l: Limits, s: State, e: Event)
    requires AllGoHome(s) && s.nextId in Step(l, s, e).challenges && s.nextId !in s.challenges && SessionsSafe(s)
    ensures var c := Step(l, s, e).challenges[s.nextId];
            c.sessionId < s.nextId && GoesToItsOwner(Step(l, s, e), c)
  {
    hide Proven, Raised;
    assert e.Begins? && IsLive(s, e.session, e.at);
    SessionIsKnown(s, e.session);
  }

  lemma StepGoesHome(l: Limits, s: State, e: Event)
    requires AllGoHome(s) && SessionsSafe(s) && s.nextId !in s.challenges
    ensures AllGoHome(Step(l, s, e))
  {
    hide Step, SessionsSafe;
    IdsGrow(l, s, e);
    forall c | c in Step(l, s, e).challenges
      ensures Step(l, s, e).challenges[c].sessionId < Step(l, s, e).nextId
      ensures GoesToItsOwner(Step(l, s, e), Step(l, s, e).challenges[c])
    {
      if c == s.nextId {
        NewOnesGoHome(l, s, e);
      } else {
        DestinationsStay(l, s, e, c);
        if s.challenges[c].sessionId in Step(l, s, e).sessions {
          HintsStay(l, s, e, s.challenges[c].sessionId);
        }
      }
    }
  }

  lemma {:induction false} CodesGoToTheirOwner(l: Limits, events: seq<Event>)
    ensures AllGoHome(Run(l, EMPTY, events))
  {
    hide Step, SessionsSafe, ChallengesSafe, CountsSafe, ProofsSafe, AllGoHome;
    if events == [] {
      NobodyToTell();
    } else {
      CodesGoToTheirOwner(l, events[..|events| - 1]);
      EveryRunIsSafe(l, events[..|events| - 1]);
      NextIsNew(l, Run(l, EMPTY, events[..|events| - 1]));
      StepGoesHome(l, Run(l, EMPTY, events[..|events| - 1]), events[|events| - 1]);
    }
  }

  lemma NextIsNew(l: Limits, s: State)
    requires ChallengesSafe(l, s)
    ensures s.nextId !in s.challenges
  {
    assert s.nextId in s.challenges ==> ChallengeSafe(l, s, s.nextId, s.challenges[s.nextId]);
  }

  lemma NobodyToTell()
    ensures AllGoHome(EMPTY)
  {
  }

  // ---------------------------------------------------------------- which answer counts

  /** The event is a lookup's answer that raises this session. */
  predicate AnswersFor(s: State, e: Event, id: SessionId) {
    e.Answers? && e.challenge in s.pending && s.pending[e.challenge].sessionId == id && id in s.sessions
  }

  /** What the last lookup to answer for the session found; `None` before the first. */
  ghost function LastAnswer(l: Limits, events: seq<Event>, id: SessionId): Option<Option<string>> {
    if events == [] then None
    else
      var before, e := events[..|events| - 1], events[|events| - 1];
      if AnswersFor(Run(l, EMPTY, before), e, id) then Some(e.customerRef) else LastAnswer(l, before, id)
  }

  /** The last customer any of its lookups found. */
  ghost function LastFound(l: Limits, events: seq<Event>, id: SessionId): Option<string> {
    if events == [] then None
    else
      var before, e := events[..|events| - 1], events[|events| - 1];
      if AnswersFor(Run(l, EMPTY, before), e, id) && e.customerRef.Some? then e.customerRef else LastFound(l, before, id)
  }

  predicate Follows(session: Session, last: Option<Option<string>>, found: Option<string>) {
    && session.assurance == (if last.None? then ANONYMOUS else if last.value.None? then PSEUDONYMOUS else VERIFIED_CUSTOMER)
    && session.customerRef == found
  }

  lemma SessionChanges(l: Limits, s: State, e: Event, id: SessionId)
    requires SessionsSafe(s) && id in Step(l, s, e).sessions
    ensures var after := Step(l, s, e).sessions[id];
            if id !in s.sessions then id == s.nextId && after.assurance == ANONYMOUS && after.customerRef == None
            else if AnswersFor(s, e, id) then after == Raised(s.sessions[id], e.customerRef, s.pending[e.challenge].at)
            else after == s.sessions[id]
  {
    hide SessionsSafe, Raised, DestinationFor;
    if id in s.sessions {
      SessionIsKnown(s, id);
    }
  }

  lemma IdsGrow(l: Limits, s: State, e: Event)
    ensures Step(l, s, e).nextId >= s.nextId
  {
    hide DestinationFor;
  }

  lemma {:induction false} NoAnswerYet(l: Limits, events: seq<Event>, id: SessionId)
    requires id >= Run(l, EMPTY, events).nextId
    ensures LastAnswer(l, events, id).None? && LastFound(l, events, id).None?
  {
    hide Step, AnswersFor, ChallengesSafe, CountsSafe, ProofsSafe, SessionsSafe;
    if events != [] {
      var before, e := events[..|events| - 1], events[|events| - 1];
      var s := Run(l, EMPTY, before);
      IdsGrow(l, s, e);
      EveryRunIsSafe(l, before);
      if id in s.sessions {
        SessionIsKnown(s, id);
      } else {
        NotHere(s, e, id);
      }
      NoAnswerYet(l, before, id);
    }
  }

  /**
   * Over any run, a session's assurance is that of the last lookup that answered for it, while its customer is
   * the last one found. So a second verification that finds nobody lowers a verified session to PSEUDONYMOUS,
   * and leaves it the customer it had.
   */
  lemma {:induction false} AssuranceFollowsTheLastAnswer(l: Limits, events: seq<Event>, id: SessionId)
    requires id in Run(l, EMPTY, events).sessions
    ensures Follows(Run(l, EMPTY, events).sessions[id], LastAnswer(l, events, id), LastFound(l, events, id))
  {
    hide Step, SessionsSafe, ChallengesSafe, CountsSafe, ProofsSafe, AnswersFor;
    if events != [] {
      var before, e := events[..|events| - 1], events[|events| - 1];
      var s := Run(l, EMPTY, before);
      EveryRunIsSafe(l, before);
      SessionChanges(l, s, e, id);
      if id in s.sessions {
        AssuranceFollowsTheLastAnswer(l, before, id);
      } else {
        NoAnswerYet(l, before, id);
        NotHere(s, e, id);
      }
    }
  }

  lemma NotHere(s: State, e: Event, id: SessionId)
    requires id !in s.sessions
    ensures !AnswersFor(s, e, id)
  {
  }
}

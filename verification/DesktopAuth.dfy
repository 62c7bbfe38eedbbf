/**
 Signing in a desktop client: it creates a request, a user completes it in the browser, and the client claims one
 session for it. A claim reads the request before its write transaction, so other claims, completions and sweeps may
 come between.
 */
module DesktopAuth {
  import opened Prelude

  datatype Request = Request(secret: Id, expiresAt: Stamp, user: Option<Id>, completedAt: Option<Stamp>,
                             deliveredAt: Option<Stamp>)

  datatype Session = Session(user: Id, expiresAt: Stamp)

  type Requests = map<Id, Request>
  type Sessions = map<Id, Session>

  const SESSION_LIFETIME := 60 * 24 * 7 * 60 * 1_000_000

  /** DELETE .. WHERE expires_at < ?. */
  function Sweep(requests: Requests, at: Stamp): Requests {
    map r | r in requests && requests[r].expiresAt >= at :: requests[r]
  }

  function Create(requests: Requests, id: Id, secret: Id, expiresAt: Stamp, at: Stamp): Requests {
    Sweep(requests, at)[id := Request(secret, expiresAt, None, None, None)]
  }

  predicate Completable(requests: Requests, id: Id, at: Stamp) {
    id in requests && requests[id].expiresAt > at && requests[id].completedAt.None?
  }

  function Complete(requests: Requests, id: Id, user: Id, at: Stamp): Requests {
    if Completable(requests, id, at) then requests[id := requests[id].(user := Some(user), completedAt := Some(at))]
        else requests
  }

  /** What the SELECT of a claim and its checks yield: the user to sign in. The checks read the clock once more. */
  function Claimant(requests: Requests, id: Id, secret: Id, reading: Stamp): Option<Id> {
    if id !in requests || requests[id].secret != secret || requests[id].expiresAt <= reading
        || requests[id].completedAt.None?
       || requests[id].deliveredAt.Some?
    then None
    else requests[id].user
  }

  predicate Undelivered(requests: Requests, id: Id) {
    id in requests && requests[id].deliveredAt.None?
  }

  /** The compare-and-set of a claim. */
  function Deliver(requests: Requests, id: Id, at: Stamp): Requests {
    if Undelivered(requests, id) then requests[id := requests[id].(deliveredAt := Some(at))] else requests
  }

  /** The sessions after the write block: a losing claim removes the session it had inserted. */
  function Granted(sessions: Sessions, won: bool, token: Id, session: Session): Sessions {
    if won then sessions[token := session] else sessions
  }

  class AuthStore {
    var requests: Requests
    var sessions: Sessions

    constructor ()
      ensures requests == map[] && sessions == map[]
    {
      requests, sessions := map[], map[];
    }

    method CreateDesktopAuthorization(id: Id, secret: Id, expiresAt: Stamp, at: Stamp)
      modifies this`requests
      ensures requests == Create(old(requests), id, secret, expiresAt, at)
    {
      requests := map r | r in requests && requests[r].expiresAt >= at :: requests[r];
      requests := requests[id := Request(secret, expiresAt, None, None, None)];
    }

    method CompleteDesktopAuthorization(id: Id, user: Id, at: Stamp) returns (completed: bool)
      modifies this`requests
      ensures completed == Completable(old(requests), id, at) && requests == Complete(old(requests), id, user, at)
    {
      completed := id in requests && requests[id].expiresAt > at && requests[id].completedAt.None?;
      if completed {
        requests := requests[id := requests[id].(user := Some(user), completedAt := Some(at))];
      }
    }

    method ReadForClaim(id: Id, secret: Id, reading: Stamp) returns (user: Option<Id>)
      ensures user == Claimant(requests, id, secret, reading)
    {
      if id !in requests || requests[id].secret != secret {
        return None;
      }
      var row := requests[id];
      if row.expiresAt <= reading || row.completedAt.None? || row.deliveredAt.Some? || row.user.None? {
        return None;
      }
      user := row.user;
    }

    /** The write block: insert the session, mark the request, and take the session back when the mark hit no row. */
    method WriteClaim(id: Id, user: Id, token: Id, at: Stamp, reading: Stamp) returns (won: bool)
      requires token !in sessions
      modifies this
      ensures won == Undelivered(old(requests), id) && requests == Deliver(old(requests), id, at)
      ensures sessions == Granted(old(sessions), won, token, Session(user, reading + SESSION_LIFETIME))
    {
      sessions := sessions[token := Session(user, reading + SESSION_LIFETIME)];
      won := id in requests && requests[id].deliveredAt.None?;
      if won {
        requests := requests[id := requests[id].(deliveredAt := Some(at))];
      } else {
        sessions := sessions - {token};
      }
    }

    /** A claim that nothing interleaves with. */
    method ClaimDesktopAuthorization(id: Id, secret: Id, token: Id, at: Stamp, reading: Stamp)
      returns (user: Option<Id>)
      requires token !in sessions
      modifies this
      ensures user == Claimant(old(requests), id, secret, reading)
      ensures user.Some? ==>
                && id in old(requests) && old(requests)[id].secret == secret && reading < old(requests)[id].expiresAt
                && old(requests)[id].completedAt.Some? && old(requests)[id].deliveredAt.None?
                && old(requests)[id].user == user
      ensures user.None? ==> requests == old(requests) && sessions == old(sessions)
      ensures user.Some? ==> requests == Deliver(old(requests), id, at) && Claimant(requests, id, secret, reading).None?
                             && sessions == old(sessions)[token := Session(user.value, reading + SESSION_LIFETIME)]
    {
      user := ReadForClaim(id, secret, reading);
      if user.Some? {
        var won := WriteClaim(id, user.value, token, at, reading);
      }
    }
  }

  // ---------------------------------------------------------------- every interleaving

  /** A claim between its SELECT and its write block. */
  datatype Claim = Claim(request: Id, user: Id)

  /** The tables, the claims in flight, and the history: request ids and tokens ever drawn, who completed each
      request, and the session tokens that claims of a request ended up with. */
  datatype System = System(requests: Requests, sessions: Sessions, inFlight: map<Id, Claim>,
                           drawn: set<Id>, tokens: set<Id>, completedBy: map<Id, Id>, wonFor: map<Id, Id>)

  datatype Label =
    | CreateRequest(id: Id, secret: Id, expiresAt: Stamp, at: Stamp)
    | CompleteRequest(id: Id, user: Id, at: Stamp)
    | ReadClaim(claim: Id, id: Id, secret: Id, reading: Stamp)
    | FinishClaim(claim: Id, token: Id, at: Stamp, reading: Stamp)
    | SignIn(token: Id, user: Id, expiresAt: Stamp)
    | SignOut(token: Id)

  const EMPTY := System(map[], map[], map[], {}, {}, map[], map[])

  /** Request ids and tokens are drawn fresh. A claim that is never finished is a crashed claimer. */
  function Next(s: System, l: Label): System {
    match l
    case CreateRequest(id, secret, expiresAt, at) =>
      if id in s.drawn then s else s.(requests := Create(s.requests, id, secret, expiresAt, at),
                                      drawn := s.drawn + {id})
    case CompleteRequest(id, user, at) =>
      s.(requests := Complete(s.requests, id, user, at),
         completedBy := if Completable(s.requests, id, at) then s.completedBy[id := user] else s.completedBy)
    case ReadClaim(claim, id, secret, reading) =>
      var user := Claimant(s.requests, id, secret, reading);
      if claim in s.inFlight || user.None? then s else s.(inFlight := s.inFlight[claim := Claim(id, user.value)])
    case FinishClaim(claim, token, at, reading) =>
      if claim !in s.inFlight || token in s.tokens then s
      else
        var c := s.inFlight[claim];
        var won := Undelivered(s.requests, c.request);
        s.(requests := Deliver(s.requests, c.request, at),
           sessions := Granted(s.sessions, won, token, Session(c.user, reading + SESSION_LIFETIME)),
           inFlight := s.inFlight - {claim},
           tokens := s.tokens + {token},
           wonFor := if won then s.wonFor[token := c.request] else s.wonFor)
    case SignIn(token, user, expiresAt) =>
      if token in s.tokens then s else s.(sessions := s.sessions[token := Session(user, expiresAt)],
                                          tokens := s.tokens + {token})
    case SignOut(token) => s.(sessions := s.sessions - {token})
  }

  function Run(labels: seq<Label>): System {
    if labels == [] then EMPTY else Next(Run(labels[..|labels| - 1]), labels[|labels| - 1])
  }

  predicate RequestOk(s: System, id: Id)
    requires id in s.requests
  {
    var r := s.requests[id];
    && id in s.drawn
    && (r.completedAt.Some? <==> r.user.Some?)
    && (if r.user.Some? then id in s.completedBy && s.completedBy[id] == r.user.value else id !in s.completedBy)
    && (r.deliveredAt.Some? ==> r.completedAt.Some?)
  }

  predicate ClaimOk(s: System, c: Claim) {
    c.request in s.drawn && c.request in s.completedBy && s.completedBy[c.request] == c.user
  }

  predicate WinOk(s: System, token: Id)
    requires token in s.wonFor
  {
    var id := s.wonFor[token];
    && token in s.tokens && id in s.drawn && id in s.completedBy
    && (id in s.requests ==> s.requests[id].deliveredAt.Some?)
    && (token in s.sessions ==> s.sessions[token].user == s.completedBy[id])
  }

  ghost predicate Invariant(s: System) {
    && (forall id | id in s.requests :: RequestOk(s, id))
    && (forall id | id in s.completedBy :: id in s.drawn)
    && (forall claim | claim in s.inFlight :: ClaimOk(s, s.inFlight[claim]))
    && (forall token | token in s.wonFor :: WinOk(s, token))
    && (forall a, b | a in s.wonFor && b in s.wonFor && s.wonFor[a] == s.wonFor[b] :: a == b)
    && (forall token | token in s.sessions :: token in s.tokens)
  }

  lemma CreateKeeps(s: System, id: Id, secret: Id, expiresAt: Stamp, at: Stamp)
    requires Invariant(s)
    ensures Invariant(Next(s, CreateRequest(id, secret, expiresAt, at)))
  {}

  lemma CompleteKeeps(s: System, id: Id, user: Id, at: Stamp)
    requires Invariant(s)
    ensures Invariant(Next(s, CompleteRequest(id, user, at)))
  {}

  lemma ReadKeeps(s: System, claim: Id, id: Id, secret: Id, reading: Stamp)
    requires Invariant(s)
    ensures Invariant(Next(s, ReadClaim(claim, id, secret, reading)))
  {}

  lemma FinishKeeps(s: System, claim: Id, token: Id, at: Stamp, reading: Stamp)
    requires Invariant(s) && claim in s.inFlight && token !in s.tokens
    ensures Invariant(Next(s, FinishClaim(claim, token, at, reading)))
  {}

  lemma SessionsKeep(s: System, t: System)
    requires Invariant(s) && t == s.(sessions := t.sessions, tokens := t.tokens) && s.tokens <= t.tokens
    requires forall token | token in t.sessions ::
               && token in t.tokens
               && (token in s.tokens ==> token in s.sessions && t.sessions[token] == s.sessions[token])
    ensures Invariant(t)
  {}

  lemma NextKeeps(s: System, l: Label)
    requires Invariant(s)
    ensures Invariant(Next(s, l))
  {
    match l
    case CreateRequest(id, secret, expiresAt, at) => hide Next, Invariant; CreateKeeps(s, id, secret, expiresAt, at);
    case CompleteRequest(id, user, at) => hide Next, Invariant; CompleteKeeps(s, id, user, at);
    case ReadClaim(claim, id, secret, reading) => hide Next, Invariant; ReadKeeps(s, claim, id, secret, reading);
    case FinishClaim(claim, token, at, reading) =>
      hide Invariant;
      if claim in s.inFlight && token !in s.tokens { FinishKeeps(s, claim, token, at, reading); }
    case SignIn(_, _, _) =>
      hide RequestOk, ClaimOk, WinOk;
      SessionsKeep(s, Next(s, l));
    case SignOut(_) =>
      hide RequestOk, ClaimOk, WinOk;
      SessionsKeep(s, Next(s, l));
  }

  lemma {:induction false} RunKeeps(labels: seq<Label>)
    ensures Invariant(Run(labels))
  {
    hide Next, Invariant;
    if labels == [] {
      EmptyOk();
    } else {
      RunKeeps(labels[..|labels| - 1]);
      NextKeeps(Run(labels[..|labels| - 1]), labels[|labels| - 1]);
    }
  }

  lemma EmptyOk()
    ensures Invariant(EMPTY)
  {}

  /** One session per authorization: over every interleaving, no two claims of a request were ever granted a session,
      and a granted session signs in the user who completed the request. */
  lemma OneSessionPerAuthorization(labels: seq<Label>, one: Id, other: Id)
    requires var s := Run(labels); one in s.wonFor && other in s.wonFor && s.wonFor[one] == s.wonFor[other]
    ensures one == other
    ensures var s := Run(labels);
            one in s.sessions ==> s.wonFor[one] in s.completedBy && s.sessions[one].user == s.completedBy[s.wonFor[one]]
  {
    hide Run;
    RunKeeps(labels);
    assert WinOk(Run(labels), one);
  }

  lemma StepKeepsCompletion(s: System, l: Label, id: Id)
    requires Invariant(s) && id in s.completedBy
    ensures var t := Next(s, l); id in t.completedBy && t.completedBy[id] == s.completedBy[id]
  {
    assert id in s.requests ==> RequestOk(s, id);
  }

  /** A request is completed by one user only, and no continuation changes that. */
  lemma {:induction false} CompletedOnce(labels: seq<Label>, more: seq<Label>, id: Id)
    requires id in Run(labels).completedBy
    ensures var t := Run(labels + more); id in t.completedBy && t.completedBy[id] == Run(labels).completedBy[id]
  {
    hide Next, Invariant;
    if more == [] {
      assert labels + more == labels;
    } else {
      var last := |more| - 1;
      CompletedOnce(labels, more[..last], id);
      assert (labels + more)[..|labels + more| - 1] == labels + more[..last];
      RunKeeps(labels + more[..last]);
      StepKeepsCompletion(Run(labels + more[..last]), more[last], id);
    }
  }

  /** A claim wins exactly when its request still exists and has not been delivered; then it adds one session for the
      user it read, and otherwise it leaves requests and sessions as they were. */
  lemma ClaimWinsExactly(labels: seq<Label>, claim: Id, token: Id, at: Stamp, reading: Stamp)
    requires claim in Run(labels).inFlight && token !in Run(labels).tokens
    ensures var s := Run(labels); var c := s.inFlight[claim]; var t := Next(s, FinishClaim(claim, token, at, reading));
            && (token in t.sessions <==> c.request in s.requests && s.requests[c.request].deliveredAt.None?)
            && (token in t.sessions <==> token in t.wonFor)
            && (forall other | other != token ::
                  && (other in t.sessions <==> other in s.sessions)
                  && (other in t.sessions ==> t.sessions[other] == s.sessions[other]))
            && (token in t.sessions ==>
                  && c.request in s.completedBy && t.sessions[token].user == s.completedBy[c.request]
                  && c.request in t.requests && t.requests[c.request].deliveredAt == Some(at))
            && (token !in t.sessions ==> t.requests == s.requests && t.sessions == s.sessions)
  {
    hide Run;
    RunKeeps(labels);
    var s := Run(labels);
    assert ClaimOk(s, s.inFlight[claim]);
    assert token in s.wonFor ==> WinOk(s, token);
  }
}

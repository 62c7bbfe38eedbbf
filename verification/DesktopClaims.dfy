/** Who is handed a session by a desktop sign-in, over every interleaving: what the claim presented, when it read the
    request, who had completed it, and how long requests last. */
module DesktopClaims {
  import opened Prelude
  import opened DesktopAuth

  const WEEK := 7 * 24 * 60 * 60 * 1_000_000

  // ---------------------------------------------------------------- steps of a run

  /** The i-th step opened the request with this secret and this expiry. */
  predicate OpenedAt(labels: seq<Label>, i: nat, id: Id, secret: Id, expiresAt: Stamp)
    requires i < |labels|
  {
    && labels[i].CreateRequest? && labels[i].id == id && labels[i].secret == secret
    && labels[i].expiresAt == expiresAt && id !in Run(labels[..i]).drawn
  }

  /** The request is there, with the secret, before its expiry, completed and not delivered. */
  predicate Claimable(requests: Requests, id: Id, secret: Id, reading: Stamp) {
    && id in requests && requests[id].secret == secret && reading < requests[id].expiresAt
    && requests[id].completedAt.Some? && requests[id].deliveredAt.None?
  }

  /** The i-th step is the reading of a claim that found its request claimable, for the user who had completed it. */
  predicate ReadAt(labels: seq<Label>, i: nat, claim: Id, id: Id, user: Id)
    requires i < |labels|
  {
    var s := Run(labels[..i]);
    && labels[i].ReadClaim? && labels[i].claim == claim && labels[i].id == id
    && Claimable(s.requests, id, labels[i].secret, labels[i].reading) && s.requests[id].user == Some(user)
  }

  /** The token was granted at step j to a claim that read at step i. */
  predicate GrantedAt(labels: seq<Label>, i: nat, j: nat, token: Id, id: Id, user: Id)
    requires i < j < |labels|
  {
    labels[j].FinishClaim? && labels[j].token == token && ReadAt(labels, i, labels[j].claim, id, user)
  }

  /** The i-th step completed the request: it was there, live and not completed. */
  predicate CompletedAt(labels: seq<Label>, i: nat, id: Id, user: Id)
    requires i < |labels|
  {
    var s := Run(labels[..i]);
    && labels[i].CompleteRequest? && labels[i].id == id && labels[i].user == user
    && id in s.requests && labels[i].at < s.requests[id].expiresAt && s.requests[id].completedAt.None?
  }

  lemma StepsLater(few: seq<Label>, l: Label, i: nat)
    requires i < |few|
    ensures (few + [l])[i] == few[i]
    ensures forall id, secret, expiresAt ::
              OpenedAt(few, i, id, secret, expiresAt) == OpenedAt(few + [l], i, id, secret, expiresAt)
    ensures forall claim, id, user :: ReadAt(few, i, claim, id, user) == ReadAt(few + [l], i, claim, id, user)
    ensures forall id, user :: CompletedAt(few, i, id, user) == CompletedAt(few + [l], i, id, user)
  {
    hide Run, Claimable;
    assert (few + [l])[..i] == few[..i];
  }

  lemma RunLast(labels: seq<Label>)
    requires labels != []
    ensures var few, l := labels[..|labels| - 1], labels[|labels| - 1];
            Run(labels) == Next(Run(few), l) && labels == few + [l]
  {}

  // ---------------------------------------------------------------- where everything comes from

  /** A request's secret and expiry are those it was opened with. */
  predicate Opened(labels: seq<Label>, id: Id, r: Request) {
    exists i | 0 <= i < |labels| :: OpenedAt(labels, i, id, r.secret, r.expiresAt)
  }

  /** A claim in flight read a claimable request. */
  predicate WasRead(labels: seq<Label>, claim: Id, c: Claim) {
    exists i | 0 <= i < |labels| :: ReadAt(labels, i, claim, c.request, c.user)
  }

  ghost predicate Earned(labels: seq<Label>, token: Id, id: Id, sessions: Sessions) {
    exists i, j, user | 0 <= i < j < |labels| && GrantedAt(labels, i, j, token, id, user) ::
      token in sessions ==> sessions[token] == Session(user, labels[j].reading + WEEK)
  }

  predicate WasCompleted(labels: seq<Label>, id: Id, user: Id) {
    exists i | 0 <= i < |labels| :: CompletedAt(labels, i, id, user)
  }

  ghost predicate Founded(labels: seq<Label>) {
    var s := Run(labels);
    && (forall id | id in s.requests :: Opened(labels, id, s.requests[id]))
    && (forall claim | claim in s.inFlight :: WasRead(labels, claim, s.inFlight[claim]))
    && (forall token | token in s.wonFor :: Earned(labels, token, s.wonFor[token], s.sessions))
    && (forall id | id in s.completedBy :: WasCompleted(labels, id, s.completedBy[id]))
  }

  lemma OpenedLater(few: seq<Label>, l: Label, id: Id, r: Request)
    requires Opened(few, id, r)
    ensures Opened(few + [l], id, r)
  {
    hide OpenedAt;
    var i :| 0 <= i < |few| && OpenedAt(few, i, id, r.secret, r.expiresAt);
    StepsLater(few, l, i);
    assert OpenedAt(few + [l], i, id, r.secret, r.expiresAt);
  }

  lemma ReadLater(few: seq<Label>, l: Label, claim: Id, c: Claim)
    requires WasRead(few, claim, c)
    ensures WasRead(few + [l], claim, c)
  {
    hide ReadAt;
    var i :| 0 <= i < |few| && ReadAt(few, i, claim, c.request, c.user);
    StepsLater(few, l, i);
  }

  lemma EarnedLater(few: seq<Label>, l: Label, token: Id, id: Id, before: Sessions, after: Sessions)
    requires Earned(few, token, id, before)
    requires token in after ==> token in before && after[token] == before[token]
    ensures Earned(few + [l], token, id, after)
  {
    hide ReadAt;
    var i, j, user :| 0 <= i < j < |few| && GrantedAt(few, i, j, token, id, user)
        && (token in before ==> before[token] == Session(user, few[j].reading + WEEK));
    StepsLater(few, l, i);
    StepsLater(few, l, j);
    assert GrantedAt(few + [l], i, j, token, id, user);
  }

  lemma CompletedLater(few: seq<Label>, l: Label, id: Id, user: Id)
    requires WasCompleted(few, id, user)
    ensures WasCompleted(few + [l], id, user)
  {
    hide CompletedAt;
    var i :| 0 <= i < |few| && CompletedAt(few, i, id, user);
    StepsLater(few, l, i);
  }

  lemma NextRequests(few: seq<Label>, l: Label)
    requires Founded(few)
    ensures var s := Next(Run(few), l); forall id | id in s.requests :: Opened(few + [l], id, s.requests[id])
  {
    hide Run, Opened, WasRead, Earned, WasCompleted;
    var s := Next(Run(few), l);
    forall id | id in s.requests ensures Opened(few + [l], id, s.requests[id]) {
      if id in Run(few).requests && Run(few).requests[id].secret == s.requests[id].secret
         && Run(few).requests[id].expiresAt == s.requests[id].expiresAt {
        SameOrigin(few, id, Run(few).requests[id], s.requests[id]);
        OpenedLater(few, l, id, s.requests[id]);
      } else {
        OpenedNow(few, l, id, s.requests[id]);
      }
    }
  }

  lemma SameOrigin(labels: seq<Label>, id: Id, a: Request, b: Request)
    requires Opened(labels, id, a) && a.secret == b.secret && a.expiresAt == b.expiresAt
    ensures Opened(labels, id, b)
  {}

  lemma OpenedNow(few: seq<Label>, l: Label, id: Id, r: Request)
    requires l.CreateRequest? && l.id == id && id !in Run(few).drawn
    requires r.secret == l.secret && r.expiresAt == l.expiresAt
    ensures Opened(few + [l], id, r)
  {
    assert (few + [l])[..|few|] == few;
    assert OpenedAt(few + [l], |few|, id, r.secret, r.expiresAt);
  }

  lemma NextClaims(few: seq<Label>, l: Label)
    requires Founded(few)
    ensures var s := Next(Run(few), l);
            forall claim | claim in s.inFlight :: WasRead(few + [l], claim, s.inFlight[claim])
  {
    hide Run, Opened, WasRead, Earned, WasCompleted;
    var s := Next(Run(few), l);
    forall claim | claim in s.inFlight ensures WasRead(few + [l], claim, s.inFlight[claim]) {
      if claim in Run(few).inFlight {
        ReadLater(few, l, claim, s.inFlight[claim]);
      } else {
        ReadNow(few, l, claim, s.inFlight[claim]);
      }
    }
  }

  lemma ReadNow(few: seq<Label>, l: Label, claim: Id, c: Claim)
    requires l.ReadClaim? && l.claim == claim && c.request == l.id
    requires Claimant(Run(few).requests, l.id, l.secret, l.reading) == Some(c.user)
    ensures WasRead(few + [l], claim, c)
  {
    assert (few + [l])[..|few|] == few;
    assert ReadAt(few + [l], |few|, claim, c.request, c.user);
  }

  lemma NextWins(few: seq<Label>, l: Label)
    requires Founded(few) && Invariant(Run(few))
    ensures var s := Next(Run(few), l);
            forall token | token in s.wonFor :: Earned(few + [l], token, s.wonFor[token], s.sessions)
  {
    hide Run, Opened, WasRead, Earned, WasCompleted, RequestOk, ClaimOk;
    var before, s := Run(few), Next(Run(few), l);
    forall token | token in s.wonFor ensures Earned(few + [l], token, s.wonFor[token], s.sessions) {
      if token in before.wonFor {
        assert WinOk(before, token);
        EarnedLater(few, l, token, s.wonFor[token], before.sessions, s.sessions);
      } else {
        EarnedNow(few, l, token, before.inFlight[l.claim], s.sessions);
      }
    }
  }

  lemma EarnedNow(few: seq<Label>, l: Label, token: Id, c: Claim, sessions: Sessions)
    requires l.FinishClaim? && l.token == token && WasRead(few, l.claim, c)
    requires token in sessions ==> sessions[token] == Session(c.user, l.reading + SESSION_LIFETIME)
    ensures Earned(few + [l], token, c.request, sessions)
  {
    hide ReadAt;
    var i :| 0 <= i < |few| && ReadAt(few, i, l.claim, c.request, c.user);
    StepsLater(few, l, i);
    assert (few + [l])[|few|] == l;
    assert GrantedAt(few + [l], i, |few|, token, c.request, c.user);
  }

  lemma NextCompletions(few: seq<Label>, l: Label)
    requires Founded(few)
    ensures var s := Next(Run(few), l);
            forall id | id in s.completedBy :: WasCompleted(few + [l], id, s.completedBy[id])
  {
    hide Run, Opened, WasRead, Earned, WasCompleted;
    var before, s := Run(few), Next(Run(few), l);
    forall id | id in s.completedBy ensures WasCompleted(few + [l], id, s.completedBy[id]) {
      if l.CompleteRequest? && l.id == id && Completable(before.requests, id, l.at) {
        CompletedNow(few, l, id);
      } else {
        CompletedLater(few, l, id, s.completedBy[id]);
      }
    }
  }

  lemma CompletedNow(few: seq<Label>, l: Label, id: Id)
    requires l.CompleteRequest? && l.id == id && Completable(Run(few).requests, id, l.at)
    ensures WasCompleted(few + [l], id, l.user)
  {
    assert (few + [l])[..|few|] == few;
    assert CompletedAt(few + [l], |few|, id, l.user);
  }

  lemma {:induction false} RunFounded(labels: seq<Label>)
    ensures Founded(labels)
  {
    hide Next, Invariant, Opened, WasRead, Earned, WasCompleted;
    if labels != [] {
      var few, l := labels[..|labels| - 1], labels[|labels| - 1];
      RunLast(labels);
      RunFounded(few);
      RunKeeps(few);
      NextRequests(few, l);
      NextClaims(few, l);
      NextWins(few, l);
      NextCompletions(few, l);
    }
  }

  // ---------------------------------------------------------------- guarantees

  /** Every session that a desktop sign-in hands out, over every interleaving: the claim presented the secret its
      request was opened with, read the request before its expiry, completed and not yet delivered, and the session
      is the completing user's, for a week from the moment it was granted. */
  lemma SessionsAreEarned(labels: seq<Label>, token: Id)
    requires token in Run(labels).wonFor
    ensures var s := Run(labels);
            var id := s.wonFor[token];
            exists i, j, k, user | 0 <= k < i < j < |labels| && GrantedAt(labels, i, j, token, id, user) ::
              && OpenedAt(labels, k, id, labels[i].secret, Run(labels[..i]).requests[id].expiresAt)
              && (token in s.sessions ==> s.sessions[token] == Session(user, labels[j].reading + WEEK))
  {
    hide Run, OpenedAt;
    RunFounded(labels);
    var s := Run(labels);
    var id := s.wonFor[token];
    assert Earned(labels, token, id, s.sessions);
    var i, j, user :| 0 <= i < j < |labels| && GrantedAt(labels, i, j, token, id, user)
        && (token in s.sessions ==> s.sessions[token] == Session(user, labels[j].reading + WEEK));
    RunFounded(labels[..i]);
    var r := Run(labels[..i]).requests[id];
    assert Opened(labels[..i], id, r);
    var k :| 0 <= k < |labels[..i]| && OpenedAt(labels[..i], k, id, r.secret, r.expiresAt);
    OpenedInPrefix(labels, i, k, id, r.secret, r.expiresAt);
  }

  lemma OpenedInPrefix(labels: seq<Label>, i: nat, k: nat, id: Id, secret: Id, expiresAt: Stamp)
    requires k < i <= |labels|
    ensures OpenedAt(labels[..i], k, id, secret, expiresAt) == OpenedAt(labels, k, id, secret, expiresAt)
  {
    assert labels[..i][..k] == labels[..k];
  }

  /** A claim is let through for the completing user if and only if its request is claimable with the secret it
      presents, at the time it reads. */
  lemma ReadExactly(labels: seq<Label>, claim: Id, id: Id, secret: Id, reading: Stamp)
    requires claim !in Run(labels).inFlight
    ensures var s := Run(labels); var t := Next(s, ReadClaim(claim, id, secret, reading));
            && (claim in t.inFlight <==> Claimable(s.requests, id, secret, reading))
            && (claim in t.inFlight ==> id in s.completedBy && t.inFlight[claim] == Claim(id, s.completedBy[id]))
  {
    hide Run;
    RunKeeps(labels);
    var s := Run(labels);
    assert id in s.requests ==> RequestOk(s, id);
  }

  lemma {:induction false} CompletionStays(labels: seq<Label>, i: nat, id: Id, user: Id)
    requires i < |labels| && CompletedAt(labels, i, id, user)
    ensures id in Run(labels).completedBy && Run(labels).completedBy[id] == user
  {
    hide Run;
    assert labels[..i + 1] == labels[..i] + [labels[i]] && labels == labels[..i + 1] + labels[i + 1..];
    RunLast(labels[..i + 1]);
    CompletedOnce(labels[..i + 1], labels[i + 1..], id);
  }

  /** A user completed a request if and only if the user's completion found it there, live and not completed. */
  lemma CompletedExactly(labels: seq<Label>, id: Id, user: Id)
    ensures (id in Run(labels).completedBy && Run(labels).completedBy[id] == user) <==>
            exists i | 0 <= i < |labels| :: CompletedAt(labels, i, id, user)
  {
    hide Run, CompletedAt;
    RunFounded(labels);
    if exists i | 0 <= i < |labels| :: CompletedAt(labels, i, id, user) {
      var i :| 0 <= i < |labels| && CompletedAt(labels, i, id, user);
      CompletionStays(labels, i, id, user);
    }
    if id in Run(labels).completedBy && Run(labels).completedBy[id] == user {
      assert WasCompleted(labels, id, user);
    }
  }

  lemma CompletedRowStep(s: System, l: Label, id: Id)
    requires Invariant(s) && id in Next(s, l).requests && Next(s, l).requests[id].completedAt.Some?
    ensures var r := Next(s, l).requests[id];
            || (l.CompleteRequest? && l.id == id && Completable(s.requests, id, l.at)
                && r.user == Some(l.user) && r.completedAt == Some(l.at))
            || (id in s.requests && s.requests[id].completedAt == r.completedAt && s.requests[id].user == r.user)
  {}

  /** A completed request carries the user and the time of the step that completed it. */
  lemma {:induction false} CompletionIsDated(labels: seq<Label>, id: Id)
    requires id in Run(labels).requests && Run(labels).requests[id].completedAt.Some?
    ensures var r := Run(labels).requests[id];
            exists i: nat, user: Id | i < |labels| && CompletedAt(labels, i, id, user) ::
              r.user == Some(user) && r.completedAt == Some(labels[i].at)
  {
    hide Next, Invariant;
    if labels != [] {
      var few, l := labels[..|labels| - 1], labels[|labels| - 1];
      RunLast(labels);
      RunKeeps(few);
      CompletedRowStep(Run(few), l, id);
      var r := Run(labels).requests[id];
      if l.CompleteRequest? && l.id == id && Completable(Run(few).requests, id, l.at) && r.completedAt == Some(l.at)
         && r.user == Some(l.user) {
        CompletesNow(few, l, id);
      } else {
        CompletionIsDated(few, id);
        var i: nat, user: Id :| i < |few| && CompletedAt(few, i, id, user)
            && r.user == Some(user) && r.completedAt == Some(few[i].at);
        StepsLater(few, l, i);
        assert CompletedAt(labels, i, id, user);
      }
    }
  }

  lemma CompletesNow(few: seq<Label>, l: Label, id: Id)
    requires l.CompleteRequest? && l.id == id && Completable(Run(few).requests, id, l.at)
    ensures CompletedAt(few + [l], |few|, id, l.user)
  {
    assert (few + [l])[..|few|] == few;
  }

  /** The i-th step opened a request and swept those that had expired before its stamp. */
  predicate SweptAt(labels: seq<Label>, i: nat, expiresAt: Stamp)
    requires i < |labels|
  {
    labels[i].CreateRequest? && labels[i].id !in Run(labels[..i]).drawn && expiresAt < labels[i].at
  }

  lemma NextStays(s: System, l: Label, id: Id)
    requires Invariant(s) && id in s.drawn
    ensures var t := Next(s, l);
            && id in t.drawn
            && (id in t.requests <==>
                  id in s.requests && !(l.CreateRequest? && l.id !in s.drawn && s.requests[id].expiresAt < l.at))
            && (id in t.requests ==>
                  && t.requests[id].secret == s.requests[id].secret
                  && t.requests[id].expiresAt == s.requests[id].expiresAt)
  {}

  /** A request lasts exactly until another one is opened after its expiry, and keeps its secret and its expiry. */
  lemma {:induction false} RequestsLastUntilSwept(labels: seq<Label>, k: nat, id: Id, secret: Id, expiresAt: Stamp)
    requires k < |labels| && OpenedAt(labels, k, id, secret, expiresAt)
    ensures var s := Run(labels);
            && id in s.drawn
            && (id in s.requests <==> forall i | k < i < |labels| :: !SweptAt(labels, i, expiresAt))
            && (id in s.requests ==> s.requests[id].secret == secret && s.requests[id].expiresAt == expiresAt)
  {
    hide Next, Invariant;
    var few, l := labels[..|labels| - 1], labels[|labels| - 1];
    RunLast(labels);
    assert labels[..|few|] == few;
    if k < |few| {
      OpenedInPrefix(labels, |few|, k, id, secret, expiresAt);
      RequestsLastUntilSwept(few, k, id, secret, expiresAt);
      RunKeeps(few);
      NextStays(Run(few), l, id);
      forall i | k < i < |few| ensures SweptAt(few, i, expiresAt) == SweptAt(labels, i, expiresAt) {
        assert few[..i] == labels[..i];
      }
      if forall i | k < i < |labels| :: !SweptAt(labels, i, expiresAt) {
        assert !SweptAt(labels, |few|, expiresAt);
      }
    } else {
      OpeningAdds(Run(few), l, id);
    }
  }

  lemma OpeningAdds(s: System, l: Label, id: Id)
    requires l.CreateRequest? && l.id == id && id !in s.drawn
    ensures var t := Next(s, l);
            id in t.drawn && id in t.requests && t.requests[id].secret == l.secret
            && t.requests[id].expiresAt == l.expiresAt
  {}
}

/**
 * One token refresh for any number of requests: the promise every rejected request joins, the one
 * resend the response hook makes, and the guard around leaving the application.
 */
module TokenRefresh {
  import opened Common

  type Token = nat

  const KY_RETRY_LIMIT: nat := 1

  const BOOTSTRAP_PATHS: set<string> := {
    "/v1/auth/logout", "/v1/auth/refresh", "/v1/auth/phone/login", "/v1/auth/phone/register",
    "/v1/auth/forgot", "/v1/auth/reset",
    "/v1/admin/auth/refresh", "/v1/admin/auth/phone/login", "/v1/admin/auth/logout",
    "/admin/auth/refresh", "/admin/auth/phone/login", "/admin/auth/logout",
    "/api/auth/refresh", "/api/auth/clear-tokens", "/api/auth/set-tokens"
  }

  /** The path stands at `i` in the url, followed by `/`, `?` or nothing. */
  predicate OccursAt(path: string, url: string, i: nat) {
    && i + |path| <= |url| && url[i..i + |path|] == path
    && (i + |path| == |url| || url[i + |path|] in {'/', '?'})
  }

  predicate Occurs(path: string, url: string) {
    exists i :: 0 <= i <= |url| && OccursAt(path, url, i)
  }

  predicate ShouldSkipTokenRefresh(url: string) {
    exists p :: p in BOOTSTRAP_PATHS && Occurs(p, url)
  }

  ghost predicate Around(url: string, a: string, path: string, b: string) {
    url == a + path + b && (b == "" || b[0] == '/' || b[0] == '?')
  }

  lemma OccursAround(path: string, url: string)
    ensures Occurs(path, url) <==> exists a, b :: Around(url, a, path, b)
  {
    if Occurs(path, url) {
      var i :| 0 <= i <= |url| && OccursAt(path, url, i);
      assert url == url[..i] + url[i..i + |path|] + url[i + |path|..];
      assert Around(url, url[..i], path, url[i + |path|..]);
    }
    if a, b :| Around(url, a, path, b) {
      assert url[|a|..|a| + |path|] == path;
      assert OccursAt(path, url, |a|);
    }
  }

  /** No refresh is tried for the addresses that are one of these, with more segments or a query or neither. */
  lemma SkipsExactly(url: string)
    ensures ShouldSkipTokenRefresh(url)
      <==> exists a, path, b :: path in BOOTSTRAP_PATHS && Around(url, a, path, b)
  {
    if path :| path in BOOTSTRAP_PATHS && Occurs(path, url) {
      OccursAround(path, url);
    }
    if a, path, b :| path in BOOTSTRAP_PATHS && Around(url, a, path, b) {
      OccursAround(path, url);
    }
  }

  datatype Action = Ignore | Logout | Refresh

  function DecideUnauthorized(status: int, retryCount: nat, url: string): Action {
    if status != 401 then Ignore
    else if ShouldSkipTokenRefresh(url) then Logout
    else if retryCount > 0 then Ignore
    else Refresh
  }

  // ---------- Requests and the shared promise ----------

  datatype Outcome = Answered(status: int) | Forbidden | LoggedOut | NetworkError

  datatype Phase =
    | Preparing(refresh: nat)         // waiting for a refresh before the first send
    | Sent(token: Option<Token>)
    | AwaitingRefresh(refresh: nat)
    | Leaving                         // this request's hook runs the logout
    | Done(outcome: Outcome)

  /**
   * `retryCount` is ky's; `resends` counts the hook's own `ky.retry`; `joined` remembers the refresh
   * that was in flight, or started, when the hook handled this request's 401.
   */
  datatype Request = Request(url: string, retryCount: nat, resends: nat, joined: Option<nat>, phase: Phase)

  datatype Settled = Pending | Settled(token: Option<Token>)

  /** `refreshes` lists every refresh ever started; `current` is the module's promise variable. */
  datatype State = State(
    requests: seq<Request>, refreshes: seq<Settled>, current: Option<nat>, memory: Option<Token>, handling: bool)

  const INITIAL := State([], [], None, None, false)

  datatype Event =
    | Begin(url: string, explicit: Option<Token>)
    | BearerReady(r: nat)
    | Respond(r: nat, status: int, onAuthPage: bool)
    | OwnRetry(r: nat)                                // ky resends by itself
    | Fail(r: nat)
    | Rotate                                          // keep-alive asks for a token
    | RefreshSettles(token: Option<Token>)
    | Resume(r: nat, onAuthPage: bool)
    | LogoutEnds(r: nat)

  /** `rotateRealAccessToken`: join the refresh in flight, or start one. */
  function Rotated(s: State): State {
    if s.current.Some? then s
    else s.(refreshes := s.refreshes + [Pending], current := Some(|s.refreshes|))
  }

  function With(s: State, r: nat, q: Request): State
    requires r < |s.requests|
  {
    s.(requests := s.requests[r := q])
  }

  /** `handleUnauthorized`, awaited by the hook of request `r`. */
  function Unauthorized(s: State, r: nat, q: Request, onAuthPage: bool): State
    requires r < |s.requests|
  {
    if s.handling || onAuthPage then With(s, r, q.(phase := Done(LoggedOut)))
    else With(s, r, q.(phase := Leaving)).(handling := true)
  }

  predicate Ready(s: State, refresh: nat) {
    refresh < |s.refreshes| && s.refreshes[refresh].Settled?
  }

  predicate Enabled(s: State, e: Event) {
    match e
    case Begin(_, _) => true
    case BearerReady(r) =>
      r < |s.requests| && s.requests[r].phase.Preparing? && Ready(s, s.requests[r].phase.refresh)
    case Respond(r, _, _) => r < |s.requests| && s.requests[r].phase.Sent?
    case OwnRetry(r) => r < |s.requests| && s.requests[r].phase.Sent? && s.requests[r].retryCount < KY_RETRY_LIMIT
    case Fail(r) => r < |s.requests| && s.requests[r].phase.Sent?
    case Rotate => true
    case RefreshSettles(_) => s.current.Some? && s.current.value < |s.refreshes|
    case Resume(r, _) =>
      r < |s.requests| && s.requests[r].phase.AwaitingRefresh? && Ready(s, s.requests[r].phase.refresh)
    case LogoutEnds(r) => r < |s.requests| && s.requests[r].phase.Leaving?
  }

  function AfterResponse(s: State, r: nat, status: int, onAuthPage: bool): State
    requires r < |s.requests|
  {
    var q := s.requests[r];
    match DecideUnauthorized(status, q.retryCount, q.url)
    case Ignore => With(s, r, q.(phase := Done(if status == 401 then Forbidden else Answered(status))))
    case Logout => Unauthorized(s, r, q, onAuthPage)
    case Refresh =>
      var t := Rotated(s);
      With(t, r, q.(phase := AwaitingRefresh(t.current.value), joined := t.current))
  }

  /** A settled refresh wakes the hook: no token means logging out, a token means one `ky.retry`. */
  function AfterRefresh(s: State, r: nat, onAuthPage: bool): State
    requires Enabled(s, Resume(r, onAuthPage))
  {
    var q := s.requests[r];
    var token := s.refreshes[q.phase.refresh].token;
    if token.None? then Unauthorized(s, r, q, onAuthPage)
    else With(s, r, q.(retryCount := q.retryCount + 1, resends := q.resends + 1, phase := Sent(token)))
  }

  function Next(s: State, e: Event): State
    requires Enabled(s, e)
  {
    match e
    case Begin(url, explicit) =>
      var phase :=
        if explicit.Some? then Sent(explicit)
        else if s.current.Some? then Preparing(s.current.value)
        else Sent(s.memory);
      s.(requests := s.requests + [Request(url, 0, 0, None, phase)])
    case BearerReady(r) =>
      var token := s.refreshes[s.requests[r].phase.refresh].token;
      With(s, r, s.requests[r].(phase := Sent(if token.Some? then token else s.memory)))
    case Respond(r, status, onAuthPage) => AfterResponse(s, r, status, onAuthPage)
    case OwnRetry(r) => With(s, r, s.requests[r].(retryCount := s.requests[r].retryCount + 1))
    case Fail(r) => With(s, r, s.requests[r].(phase := Done(NetworkError)))
    case Rotate => Rotated(s)
    case RefreshSettles(token) =>
      s.(refreshes := s.refreshes[s.current.value := Settled(token)], current := None,
         memory := if token.Some? then token else s.memory)
    case Resume(r, onAuthPage) => AfterRefresh(s, r, onAuthPage)
    case LogoutEnds(r) => With(s, r, s.requests[r].(phase := Done(LoggedOut))).(handling := false)
  }

  predicate AllEnabled(s: State, es: seq<Event>)
    decreases |es|, 0
  {
    es == [] || (AllEnabled(s, es[..|es| - 1]) && Enabled(Run(s, es[..|es| - 1]), es[|es| - 1]))
  }

  function Run(s: State, es: seq<Event>): State
    requires AllEnabled(s, es)
    decreases |es|, 1
  {
    if es == [] then s else Next(Run(s, es[..|es| - 1]), es[|es| - 1])
  }

  /** The module variables of the tab and the requests whose callbacks use them. */
  class Tab {
    var requests: seq<Request>
    var refreshes: seq<Settled>
    var browserRotateAccessPromise: Option<nat>
    var accessToken: Option<Token>
    var handlingUnauthorized: bool

    constructor ()
      ensures Contents() == INITIAL
    {
      requests, refreshes, browserRotateAccessPromise, accessToken, handlingUnauthorized := [], [], None, None, false;
    }

    function Contents(): State
      reads this
    {
      State(requests, refreshes, browserRotateAccessPromise, accessToken, handlingUnauthorized)
    }

    method RotateRealAccessToken() returns (promise: nat)
      modifies this
      ensures Contents() == Rotated(old(Contents())) && browserRotateAccessPromise == Some(promise)
    {
      if browserRotateAccessPromise.Some? {
        return browserRotateAccessPromise.value;
      }
      promise := |refreshes|;
      refreshes := refreshes + [Pending];
      browserRotateAccessPromise := Some(promise);
    }

    /** The `finally` of the rotation: the variable is cleared before anyone who waits runs. */
    method OnRefreshSettled(token: Option<Token>)
      requires Enabled(Contents(), RefreshSettles(token))
      modifies this
      ensures Contents() == Next(old(Contents()), RefreshSettles(token))
    {
      refreshes := refreshes[browserRotateAccessPromise.value := Settled(token)];
      browserRotateAccessPromise := None;
      if token.Some? {
        accessToken := token;
      }
    }

    method Send(url: string, explicit: Option<Token>)
      modifies this
      ensures Contents() == Next(old(Contents()), Begin(url, explicit))
    {
      var phase := Sent(accessToken);
      if explicit.Some? {
        phase := Sent(explicit);
      } else if browserRotateAccessPromise.Some? {
        phase := Preparing(browserRotateAccessPromise.value);
      }
      requests := requests + [Request(url, 0, 0, None, phase)];
    }

    method OnBearerReady(r: nat)
      requires Enabled(Contents(), BearerReady(r))
      modifies this
      ensures Contents() == Next(old(Contents()), BearerReady(r))
    {
      var rotated := refreshes[requests[r].phase.refresh].token;
      requests := requests[r := requests[r].(phase := Sent(if rotated.Some? then rotated else accessToken))];
    }

    method OnResponse(r: nat, status: int, onAuthPage: bool)
      requires Enabled(Contents(), Respond(r, status, onAuthPage))
      modifies this
      ensures Contents() == Next(old(Contents()), Respond(r, status, onAuthPage))
    {
      var q := requests[r];
      var action := DecideUnauthorized(status, q.retryCount, q.url);
      if action.Ignore? {
        requests := requests[r := q.(phase := Done(if status == 401 then Forbidden else Answered(status)))];
      } else if action.Logout? {
        HandleUnauthorized(r, onAuthPage);
      } else {
        var promise := RotateRealAccessToken();
        requests := requests[r := q.(phase := AwaitingRefresh(promise), joined := Some(promise))];
      }
    }

    method OnRefreshed(r: nat, onAuthPage: bool)
      requires Enabled(Contents(), Resume(r, onAuthPage))
      modifies this
      ensures Contents() == Next(old(Contents()), Resume(r, onAuthPage))
    {
      var q := requests[r];
      var token := refreshes[q.phase.refresh].token;
      if token.None? {
        HandleUnauthorized(r, onAuthPage);
      } else {
        requests := requests[r :=
          q.(retryCount := q.retryCount + 1, resends := q.resends + 1, phase := Sent(token))];
      }
    }

    method HandleUnauthorized(r: nat, onAuthPage: bool)
      requires r < |requests|
      modifies this
      ensures Contents() == Unauthorized(old(Contents()), r, old(requests[r]), onAuthPage)
    {
      if handlingUnauthorized || onAuthPage {
        requests := requests[r := requests[r].(phase := Done(LoggedOut))];
        return;
      }
      handlingUnauthorized := true;
      requests := requests[r := requests[r].(phase := Leaving)];
    }

    method OnLogoutEnd(r: nat)
      requires Enabled(Contents(), LogoutEnds(r))
      modifies this
      ensures Contents() == Next(old(Contents()), LogoutEnds(r))
    {
      handlingUnauthorized := false;
      requests := requests[r := requests[r].(phase := Done(LoggedOut))];
    }
  }

  // ---------- What every run keeps ----------

  /** The promise variable names the one refresh that has not settled, if there is one. */
  ghost predicate SingleFlight(s: State) {
    && (s.current.Some? ==> s.current.value < |s.refreshes|)
    && forall k :: 0 <= k < |s.refreshes| ==> (s.refreshes[k].Pending? <==> s.current == Some(k))
  }

  ghost predicate RequestSound(q: Request, refreshes: seq<Settled>) {
    && q.resends <= q.retryCount <= KY_RETRY_LIMIT
    && (q.phase.Preparing? ==> q.phase.refresh < |refreshes| && q.joined.None?)
    && (q.phase.AwaitingRefresh? ==> q.joined == Some(q.phase.refresh) && q.retryCount == 0)
    && (q.joined.Some? ==> q.joined.value < |refreshes| && !ShouldSkipTokenRefresh(q.url))
    && (q.resends > 0 ==> q.joined.Some? && refreshes[q.joined.value].Settled? && refreshes[q.joined.value].token.Some?)
    && (q.resends > 0 && q.phase.Sent? ==> q.phase.token == refreshes[q.joined.value].token)
    && (q.joined.Some? && q.resends == 0 && !q.phase.AwaitingRefresh? ==>
      refreshes[q.joined.value] == Settled(None) && (q.phase.Leaving? || q.phase == Done(LoggedOut)))
  }

  ghost predicate Inv(s: State) {
    && SingleFlight(s)
    && forall r :: 0 <= r < |s.requests| ==> RequestSound(s.requests[r], s.refreshes)
  }

  /** Refreshes only grow, and a settled one keeps its result. */
  ghost predicate Extends(before: seq<Settled>, after: seq<Settled>) {
    && |before| <= |after|
    && forall k :: 0 <= k < |before| && before[k].Settled? ==> after[k] == before[k]
  }

  lemma RequestStaysSound(q: Request, before: seq<Settled>, after: seq<Settled>)
    requires RequestSound(q, before) && Extends(before, after)
    ensures RequestSound(q, after)
  {
  }

  lemma RotateKeepsInv(s: State)
    requires Inv(s)
    ensures Inv(Rotated(s)) && Extends(s.refreshes, Rotated(s).refreshes) && Rotated(s).current.Some?
    ensures Rotated(s).requests == s.requests
  {
    forall r | 0 <= r < |s.requests| ensures RequestSound(s.requests[r], Rotated(s).refreshes) {
      RequestStaysSound(s.requests[r], s.refreshes, Rotated(s).refreshes);
    }
  }

  lemma WithKeepsInv(s: State, r: nat, q: Request)
    requires Inv(s) && r < |s.requests| && RequestSound(q, s.refreshes)
    ensures Inv(With(s, r, q))
  {
  }

  lemma SettlingKeepsInv(s: State, token: Option<Token>)
    requires Inv(s) && s.current.Some?
    ensures Inv(Next(s, RefreshSettles(token))) && Extends(s.refreshes, Next(s, RefreshSettles(token)).refreshes)
  {
    var t := Next(s, RefreshSettles(token));
    forall r | 0 <= r < |s.requests| ensures RequestSound(t.requests[r], t.refreshes) {
      RequestStaysSound(s.requests[r], s.refreshes, t.refreshes);
    }
  }

  lemma UnauthorizedKeepsInv(s: State, r: nat, onAuthPage: bool)
    requires Inv(s) && r < |s.requests|
    requires var q := s.requests[r]; RequestSound(q.(phase := Leaving), s.refreshes)
    ensures Inv(Unauthorized(s, r, s.requests[r], onAuthPage))
  {
    var q := s.requests[r];
    WithKeepsInv(s, r, q.(phase := Leaving));
    WithKeepsInv(s, r, q.(phase := Done(LoggedOut)));
  }

  lemma ResponseKeepsInv(s: State, r: nat, status: int, onAuthPage: bool)
    requires Inv(s) && Enabled(s, Respond(r, status, onAuthPage))
    ensures Inv(AfterResponse(s, r, status, onAuthPage))
    ensures Extends(s.refreshes, AfterResponse(s, r, status, onAuthPage).refreshes)
  {
    var q := s.requests[r];
    match DecideUnauthorized(status, q.retryCount, q.url)
    case Ignore => WithKeepsInv(s, r, q.(phase := Done(if status == 401 then Forbidden else Answered(status))));
    case Logout => UnauthorizedKeepsInv(s, r, onAuthPage);
    case Refresh =>
      RotateKeepsInv(s);
      var t := Rotated(s);
      WithKeepsInv(t, r, q.(phase := AwaitingRefresh(t.current.value), joined := t.current));
  }

  lemma ResumeKeepsInv(s: State, r: nat, onAuthPage: bool)
    requires Inv(s) && Enabled(s, Resume(r, onAuthPage))
    ensures Inv(AfterRefresh(s, r, onAuthPage))
    ensures AfterRefresh(s, r, onAuthPage).refreshes == s.refreshes
  {
    var q := s.requests[r];
    var token := s.refreshes[q.phase.refresh].token;
    if token.None? {
      UnauthorizedKeepsInv(s, r, onAuthPage);
    } else {
      WithKeepsInv(s, r, q.(retryCount := q.retryCount + 1, resends := q.resends + 1, phase := Sent(token)));
    }
  }

  lemma StepKeepsInv(s: State, e: Event)
    requires Inv(s) && Enabled(s, e)
    ensures Inv(Next(s, e)) && Extends(s.refreshes, Next(s, e).refreshes)
  {
    match e
    case Rotate => RotateKeepsInv(s);
    case RefreshSettles(token) => SettlingKeepsInv(s, token);
    case Respond(r, status, onAuthPage) => ResponseKeepsInv(s, r, status, onAuthPage);
    case Resume(r, onAuthPage) => ResumeKeepsInv(s, r, onAuthPage);
    case BearerReady(r) => WithKeepsInv(s, r, Next(s, e).requests[r]);
    case OwnRetry(r) => WithKeepsInv(s, r, Next(s, e).requests[r]);
    case Fail(r) => WithKeepsInv(s, r, Next(s, e).requests[r]);
    case LogoutEnds(r) => WithKeepsInv(s, r, Next(s, e).requests[r]);
    case Begin(_, _) =>
  }

  lemma {:induction false} RunKeepsInv(es: seq<Event>)
    requires AllEnabled(INITIAL, es)
    ensures Inv(Run(INITIAL, es))
  {
    if es != [] {
      RunKeepsInv(es[..|es| - 1]);
      StepKeepsInv(Run(INITIAL, es[..|es| - 1]), es[|es| - 1]);
    }
  }

  // ---------- What that means for callers ----------

  /** No two refreshes are ever in flight together. */
  lemma OneRefreshAtATime(es: seq<Event>, j: nat, k: nat)
    requires AllEnabled(INITIAL, es)
    requires j < |Run(INITIAL, es).refreshes| && Run(INITIAL, es).refreshes[j].Pending?
    requires k < |Run(INITIAL, es).refreshes| && Run(INITIAL, es).refreshes[k].Pending?
    ensures j == k
  {
    RunKeepsInv(es);
  }

  /** The hook resends a request at most once, and then with the token of the refresh its 401 joined. */
  lemma ResentOnceWithJoinedToken(es: seq<Event>, r: nat)
    requires AllEnabled(INITIAL, es) && r < |Run(INITIAL, es).requests|
    ensures var s := Run(INITIAL, es); var q := s.requests[r];
      && q.resends <= 1
      && (q.resends == 1 ==> q.joined.Some? && q.joined.value < |s.refreshes|
                             && s.refreshes[q.joined.value].Settled? && s.refreshes[q.joined.value].token.Some?)
      && (q.resends == 1 && q.phase.Sent? ==> q.phase.token == s.refreshes[q.joined.value].token)
  {
    RunKeepsInv(es);
  }

  /** A request whose address belongs to signing in or out never joins or starts a refresh. */
  lemma BootstrapNeverRefreshes(es: seq<Event>, r: nat)
    requires AllEnabled(INITIAL, es) && r < |Run(INITIAL, es).requests|
    requires ShouldSkipTokenRefresh(Run(INITIAL, es).requests[r].url)
    ensures Run(INITIAL, es).requests[r].joined.None? && Run(INITIAL, es).requests[r].resends == 0
    ensures forall status, onAuthPage :: Enabled(Run(INITIAL, es), Respond(r, status, onAuthPage)) ==>
      Next(Run(INITIAL, es), Respond(r, status, onAuthPage)).refreshes == Run(INITIAL, es).refreshes
  {
    RunKeepsInv(es);
  }

  /** Requests that joined the same refresh share its fate: all are resent, or none is. */
  lemma JoinersShareTheResult(es: seq<Event>, a: nat, b: nat)
    requires AllEnabled(INITIAL, es) && a < |Run(INITIAL, es).requests| && b < |Run(INITIAL, es).requests|
    requires var s := Run(INITIAL, es);
      s.requests[a].joined.Some? && s.requests[a].joined == s.requests[b].joined &&
      !s.requests[a].phase.AwaitingRefresh? && !s.requests[b].phase.AwaitingRefresh?
    ensures Run(INITIAL, es).requests[a].resends == Run(INITIAL, es).requests[b].resends
  {
    RunKeepsInv(es);
    assert RequestSound(Run(INITIAL, es).requests[a], Run(INITIAL, es).refreshes);
    assert RequestSound(Run(INITIAL, es).requests[b], Run(INITIAL, es).refreshes);
  }

  /** A 401 reaches the refresh exactly when the address allows it and the request was sent once. */
  lemma RefreshedExactlyWhen(s: State, r: nat, onAuthPage: bool)
    requires Inv(s) && Enabled(s, Respond(r, 401, onAuthPage))
    ensures var t := Next(s, Respond(r, 401, onAuthPage)); var q := s.requests[r];
      && (t.requests[r].phase.AwaitingRefresh? <==> !ShouldSkipTokenRefresh(q.url) && q.retryCount == 0)
      && (t.requests[r].phase.AwaitingRefresh? ==>
            t.requests[r].joined == if s.current.Some? then s.current else Some(|s.refreshes|))
  {
  }

  /** What the hook does with any response, said of the response alone and of whether a logout is running. */
  lemma ResponseDecides(s: State, r: nat, status: int, onAuthPage: bool)
    requires Enabled(s, Respond(r, status, onAuthPage))
    ensures var q, phase := s.requests[r], Next(s, Respond(r, status, onAuthPage)).requests[r].phase;
      && (phase == Done(Answered(status)) <==> status != 401)
      && (phase == Done(Forbidden) <==> status == 401 && !ShouldSkipTokenRefresh(q.url) && q.retryCount > 0)
      && (phase.AwaitingRefresh? <==> status == 401 && !ShouldSkipTokenRefresh(q.url) && q.retryCount == 0)
      && (phase == Leaving <==> status == 401 && ShouldSkipTokenRefresh(q.url) && !s.handling && !onAuthPage)
      && (phase == Done(LoggedOut) <==> status == 401 && ShouldSkipTokenRefresh(q.url) && (s.handling || onAuthPage))
  {
  }

  /** A refresh that gave no token ends in a logout, unless one is running or the page is one of signing in. */
  lemma NoTokenLogsOut(s: State, r: nat, onAuthPage: bool)
    requires Enabled(s, Resume(r, onAuthPage))
    ensures var t := Next(s, Resume(r, onAuthPage));
      var token, phase := s.refreshes[s.requests[r].phase.refresh].token, t.requests[r].phase;
      && (phase == Leaving <==> token == None && !s.handling && !onAuthPage)
      && (phase == Done(LoggedOut) <==> token == None && (s.handling || onAuthPage))
      && (phase.Sent? <==> token != None) && (phase.Sent? ==> phase.token == token)
      && (t.handling <==> s.handling || phase == Leaving)
  {
  }

  // ---------- Which token a request bears ----------

  /** What the refreshes of the run answered, in order. */
  function Answers(es: seq<Event>): seq<Option<Token>> {
    if es == [] then []
    else
      var last := es[|es| - 1];
      Answers(es[..|es| - 1]) + if last.RefreshSettles? then [last.token] else []
  }

  /** The last token that was given, if any was. */
  function LastGiven(answers: seq<Option<Token>>): Option<Token> {
    if answers == [] then None
    else if answers[|answers| - 1].Some? then answers[|answers| - 1]
    else LastGiven(answers[..|answers| - 1])
  }

  /** The refreshes are those answered, in order, and the one in flight; the tab remembers the last token given. */
  ghost predicate Remembers(s: State, answers: seq<Option<Token>>) {
    && |s.refreshes| == |answers| + (if s.current.Some? then 1 else 0)
    && (s.current.Some? ==> s.current.value == |answers|)
    && (forall k :: 0 <= k < |answers| ==> s.refreshes[k] == Settled(answers[k]))
    && s.memory == LastGiven(answers)
  }

  lemma StepRemembers(s: State, answers: seq<Option<Token>>, e: Event)
    requires Enabled(s, e) && Remembers(s, answers)
    ensures Remembers(Next(s, e), answers + if e.RefreshSettles? then [e.token] else [])
  {
    if e.RefreshSettles? {
      assert (answers + [e.token])[..|answers|] == answers;
    } else {
      assert answers + [] == answers;
      StepKeepsMemory(s, e);
    }
  }

  lemma StepKeepsMemory(s: State, e: Event)
    requires Enabled(s, e) && !e.RefreshSettles?
    ensures Next(s, e).memory == s.memory
    ensures var t := Next(s, e);
      || (t.refreshes == s.refreshes && t.current == s.current)
      || (s.current == None && t.refreshes == s.refreshes + [Pending] && t.current == Some(|s.refreshes|))
  {
  }

  lemma {:induction false} RunRemembers(es: seq<Event>)
    requires AllEnabled(INITIAL, es)
    ensures Remembers(Run(INITIAL, es), Answers(es))
  {
    if es != [] {
      RunRemembers(es[..|es| - 1]);
      StepRemembers(Run(INITIAL, es[..|es| - 1]), Answers(es[..|es| - 1]), es[|es| - 1]);
    }
  }

  /**
   * A new request bears the token it was given; else, with no refresh in flight, the last one any
   * refresh of the run gave; else it waits for the one in flight.
   */
  lemma NewRequestBears(es: seq<Event>, url: string, explicit: Option<Token>)
    requires AllEnabled(INITIAL, es)
    ensures var s := Run(INITIAL, es);
      var t := Next(s, Begin(url, explicit));
      && |t.requests| == |s.requests| + 1 && t.requests[..|s.requests|] == s.requests
      && t.requests[|s.requests|].phase ==
           if explicit != None then Sent(explicit)
           else if |s.refreshes| == |Answers(es)| then Sent(LastGiven(Answers(es)))
           else Preparing(|Answers(es)|)
  {
    RunRemembers(es);
  }

  lemma SettledWasAnswered(s: State, answers: seq<Option<Token>>, k: nat)
    requires SingleFlight(s) && Remembers(s, answers) && Ready(s, k)
    ensures k < |answers| && s.refreshes[k].token == answers[k]
  {
    assert s.current.Some? ==> s.refreshes[s.current.value].Pending?;
  }

  /** One that waited bears what the refresh it waited for gave; if that gave none, the last token given. */
  lemma WaiterBears(es: seq<Event>, r: nat)
    requires AllEnabled(INITIAL, es) && Enabled(Run(INITIAL, es), BearerReady(r))
    ensures var s := Run(INITIAL, es);
      var awaited := s.requests[r].phase.refresh;
      && awaited < |Answers(es)|
      && Next(s, BearerReady(r)).requests[r].phase ==
           Sent(if Answers(es)[awaited] != None then Answers(es)[awaited] else LastGiven(Answers(es)))
  {
    RunRemembers(es);
    RunKeepsInv(es);
    SettledWasAnswered(Run(INITIAL, es), Answers(es), Run(INITIAL, es).requests[r].phase.refresh);
  }

  /** Ky's own resend uses up the hook's: a 401 after it is reported as forbidden with no refresh tried. */
  lemma OwnRetrySpendsTheResend(s: State, r: nat, onAuthPage: bool)
    requires Inv(s) && Enabled(s, OwnRetry(r)) && !ShouldSkipTokenRefresh(s.requests[r].url)
    ensures Enabled(Next(s, OwnRetry(r)), Respond(r, 401, onAuthPage))
    ensures var t := Next(Next(s, OwnRetry(r)), Respond(r, 401, onAuthPage));
      t.requests[r].phase == Done(Forbidden) && t.requests[r].joined.None? && t.refreshes == s.refreshes
  {
    var q := Next(s, OwnRetry(r)).requests[r];
    assert q.retryCount == 1 && q.joined == s.requests[r].joined;
    assert DecideUnauthorized(401, q.retryCount, q.url) == Ignore;
    assert RequestSound(s.requests[r], s.refreshes);
  }

  /** Until a refresh settles, a step leaves the shared promise alone or is one more call for a token. */
  lemma StepJoinsOrStarts(s: State, e: Event)
    requires Enabled(s, e) && !e.RefreshSettles?
    ensures var t := Next(s, e);
      || (t.refreshes == s.refreshes && t.current == s.current)
      || (t.refreshes == Rotated(s).refreshes && t.current == Rotated(s).current)
  {
  }

  /** However many 401s arrive before a refresh settles, they start at most one. */
  lemma {:induction false} BurstStartsAtMostOne(s: State, es: seq<Event>)
    requires AllEnabled(s, es) && forall i :: 0 <= i < |es| ==> !es[i].RefreshSettles?
    ensures |Run(s, es).refreshes| <= |s.refreshes| + (if s.current.Some? then 0 else 1)
    ensures s.current.Some? ==> Run(s, es).current == s.current
    ensures |Run(s, es).refreshes| > |s.refreshes| ==> Run(s, es).current.Some?
  {
    if es != [] {
      BurstStartsAtMostOne(s, es[..|es| - 1]);
      StepJoinsOrStarts(Run(s, es[..|es| - 1]), es[|es| - 1]);
    }
  }

  /** Nobody waits in vain: what a request waits for has settled, or is the refresh still in flight. */
  lemma NoRequestIsStuck(es: seq<Event>, r: nat)
    requires AllEnabled(INITIAL, es) && r < |Run(INITIAL, es).requests|
    ensures var s := Run(INITIAL, es); var phase := s.requests[r].phase;
      phase.AwaitingRefresh? || phase.Preparing? ==>
        Ready(s, phase.refresh) || (s.current == Some(phase.refresh) && forall t :: Enabled(s, RefreshSettles(t)))
  {
    RunKeepsInv(es);
    assert RequestSound(Run(INITIAL, es).requests[r], Run(INITIAL, es).refreshes);
  }

  // ---------- One logout at a time ----------

  ghost predicate OneLogout(s: State) {
    && (forall r :: 0 <= r < |s.requests| && s.requests[r].phase.Leaving? ==> s.handling)
    && forall a, b :: 0 <= a < b < |s.requests| ==> !(s.requests[a].phase.Leaving? && s.requests[b].phase.Leaving?)
  }

  lemma LogoutsKeepApart(s: State, t: State, r: nat)
    requires OneLogout(s) && r < |s.requests| == |t.requests|
    requires forall i :: 0 <= i < |s.requests| && i != r ==> t.requests[i].phase == s.requests[i].phase
    requires if t.requests[r].phase.Leaving? then !s.handling && t.handling
             else t.handling == (s.handling && !s.requests[r].phase.Leaving?)
    ensures OneLogout(t)
  {
    if s.requests[r].phase.Leaving? {
      forall i | 0 <= i < |s.requests| && i != r ensures !s.requests[i].phase.Leaving? {
        assert !(s.requests[Min(i, r)].phase.Leaving? && s.requests[Max(i, r)].phase.Leaving?);
      }
    }
  }

  lemma UnauthorizedKeepsOneLogout(s: State, r: nat, q: Request, onAuthPage: bool)
    requires OneLogout(s) && r < |s.requests| && !s.requests[r].phase.Leaving?
    ensures OneLogout(Unauthorized(s, r, q, onAuthPage))
  {
    LogoutsKeepApart(s, Unauthorized(s, r, q, onAuthPage), r);
  }

  lemma ResponseKeepsOneLogout(s: State, r: nat, status: int, onAuthPage: bool)
    requires OneLogout(s) && r < |s.requests| && s.requests[r].phase.Sent?
    ensures OneLogout(AfterResponse(s, r, status, onAuthPage))
  {
    var q := s.requests[r];
    match DecideUnauthorized(status, q.retryCount, q.url)
    case Ignore => LogoutsKeepApart(s, AfterResponse(s, r, status, onAuthPage), r);
    case Logout => UnauthorizedKeepsOneLogout(s, r, q, onAuthPage);
    case Refresh => LogoutsKeepApart(s, AfterResponse(s, r, status, onAuthPage), r);
  }

  lemma RefreshKeepsOneLogout(s: State, r: nat, onAuthPage: bool)
    requires OneLogout(s) && Enabled(s, Resume(r, onAuthPage))
    ensures OneLogout(AfterRefresh(s, r, onAuthPage))
  {
    if s.refreshes[s.requests[r].phase.refresh].token.None? {
      UnauthorizedKeepsOneLogout(s, r, s.requests[r], onAuthPage);
    } else {
      LogoutsKeepApart(s, AfterRefresh(s, r, onAuthPage), r);
    }
  }

  /** The hook never runs two logouts at once. */
  lemma StepKeepsOneLogout(s: State, e: Event)
    requires OneLogout(s) && Enabled(s, e)
    ensures OneLogout(Next(s, e))
  {
    match e
    case Begin(_, _) =>
    case Rotate =>
    case RefreshSettles(_) =>
    case BearerReady(r) => LogoutsKeepApart(s, Next(s, e), r);
    case Respond(r, status, onAuthPage) => ResponseKeepsOneLogout(s, r, status, onAuthPage);
    case OwnRetry(r) => LogoutsKeepApart(s, Next(s, e), r);
    case Fail(r) => LogoutsKeepApart(s, Next(s, e), r);
    case Resume(r, onAuthPage) => RefreshKeepsOneLogout(s, r, onAuthPage);
    case LogoutEnds(r) => LogoutsKeepApart(s, Next(s, e), r);
  }

  lemma {:induction false} OneLogoutAtATime(es: seq<Event>)
    requires AllEnabled(INITIAL, es)
    ensures OneLogout(Run(INITIAL, es))
  {
    if es != [] {
      OneLogoutAtATime(es[..|es| - 1]);
      StepKeepsOneLogout(Run(INITIAL, es[..|es| - 1]), es[|es| - 1]);
    }
  }
}

/** What the server does on each message, and what becomes of an evaluation from its admission on. */
module ServerEffects {
  import opened Collections
  import opened ServerProtocol

  /** The main loop handles this message. */
  ghost predicate Receives(p: Provider, s: Server, incoming: Incoming, t: Server) {
    Apply(p, s, Receive(Decoded(incoming))) == Some(t)
  }

  /** Nothing but one reply. */
  ghost predicate Replies(s: Server, id: Id, body: Body, t: Server) {
    && t.outbound == s.outbound + [Reply(id, body)]
    && t.lifecycle == s.lifecycle && t.active == s.active && t.finishing == s.finishing
    && t.waiting == s.waiting && t.exited == s.exited
  }

  /** Only the lifecycle changes. */
  ghost predicate Becomes(s: Server, l: Lifecycle, t: Server) {
    && t.lifecycle == l && t.active == s.active && t.finishing == s.finishing
    && t.waiting == s.waiting && t.exited == s.exited && t.outbound == s.outbound
  }

  // Requests.

  /** An idle active server admits the evaluation, under its session and without a reply; a busy one answers
      that the id is in use or that it is unavailable; others say why they have no session. */
  lemma {:induction false} EvaluateTold(p: Provider, s: Server, params: Params, id: Id, t: Server)
    requires ValidId(id) && Receives(p, s, Request(Evaluate(params), id), t)
    ensures s.lifecycle.Active? && s.active == map[] ==>
              && t.active == map[id := Evaluation(s.lifecycle.session, false)]
              && t.lifecycle == s.lifecycle && t.finishing == s.finishing && t.waiting == s.waiting
              && t.exited == s.exited && t.outbound == s.outbound
    ensures s.lifecycle.Active? && id in s.active ==> Replies(s, id, Malformed, t)
    ensures s.lifecycle.Active? && s.active != map[] && id !in s.active ==> Replies(s, id, Failing(UnavailableFailure), t)
    ensures s.lifecycle.Fresh? || s.lifecycle.AwaitingInitialized? ==> Replies(s, id, Failing(NotInitialized), t)
    ensures s.lifecycle == ShuttingDown ==> Replies(s, id, Failing(UnavailableFailure), t)
    ensures s.lifecycle.Failed? ==>
              Replies(s, id, Failing(if s.lifecycle.grantAccepted then s.lifecycle.error else NotInitialized), t)
  {
  }

  /** A fresh server accepts what the provider accepts and then waits with that baseline; any other refuses. */
  lemma {:induction false} InitializeTold(p: Provider, s: Server, params: Params, id: Id, t: Server)
    requires ValidId(id) && Receives(p, s, Request(Initialize(params), id), t)
    ensures s.lifecycle == Fresh && p.initialize(params).Ok? ==>
              exists u :: Becomes(s, AwaitingInitialized(p.initialize(params).value), u) && Replies(u, id, Success, t)
    ensures s.lifecycle == Fresh && p.initialize(params).Err? ==> Replies(s, id, Failing(p.initialize(params).error), t)
    ensures s.lifecycle != Fresh ==> Replies(s, id, Failing(InputFailure), t)
  {
    if s.lifecycle == Fresh && p.initialize(params).Ok? {
      var u := s.(lifecycle := AwaitingInitialized(p.initialize(params).value));
      assert Becomes(s, AwaitingInitialized(p.initialize(params).value), u) && Replies(u, id, Success, t);
    }
  }

  /** A first shutdown request cancels what is live and waits without a reply; the end of the wait is
      answered. A second one is refused, and an unknown method is malformed. */
  lemma {:induction false} ShutdownTold(p: Provider, s: Server, id: Id, t: Server)
    requires ValidId(id) && Receives(p, s, Request(Shutdown, id), t)
    ensures s.lifecycle == ShuttingDown ==> Replies(s, id, Failing(InputFailure), t)
    ensures s.lifecycle != ShuttingDown ==>
              && t.lifecycle == ShuttingDown && t.waiting == Some(id) && t.outbound == s.outbound
              && t.finishing == s.finishing && t.exited == s.exited && t.active.Keys == s.active.Keys
              && (forall i :: i in s.active ==> t.active[i] == Evaluation(s.active[i].session, true))
    ensures s.lifecycle != ShuttingDown ==>
              exists u, v :: Apply(p, t, EndShutdown) == Some(v) && u == t.(waiting := None) && Replies(u, id, Success, v)
  {
    if s.lifecycle != ShuttingDown {
      CancelKeepsLive(s.active);
      var u := t.(waiting := None);
      var v := Send(u, Reply(id, Success));
      assert Apply(p, t, EndShutdown) == Some(v) && Replies(u, id, Success, v);
    }
  }

  lemma {:induction false} OtherRequestTold(p: Provider, s: Server, id: Id, t: Server)
    requires ValidId(id) && Receives(p, s, Request(UnknownMethod, id), t)
    ensures Replies(s, id, Malformed, t)
  {
  }

  // Notifications.

  /** Whether a failure is remembered as one after an accepted grant. */
  ghost predicate GrantAccepted(l: Lifecycle) {
    l.Active? || (l.Failed? && l.grantAccepted)
  }

  /** A waiting server becomes active with the granted session if its baseline matches canonically; any other
      outcome, and any other server, fails. */
  lemma {:induction false} InitializedTold(p: Provider, s: Server, params: Params, t: Server)
    requires Receives(p, s, Notification(Initialized(params)), t)
    ensures Becomes(s, t.lifecycle, t)
    ensures s.lifecycle.AwaitingInitialized? && p.grant(params).Ok?
            && p.canonical(p.grant(params).value.baseline) == p.canonical(s.lifecycle.baseline) ==>
              t.lifecycle == Active(p.grant(params).value)
    ensures s.lifecycle.AwaitingInitialized? && p.grant(params).Ok?
            && p.canonical(p.grant(params).value.baseline) != p.canonical(s.lifecycle.baseline) ==>
              t.lifecycle == Failed(HealthFailure, false)
    ensures s.lifecycle.AwaitingInitialized? && p.grant(params).Err? ==> t.lifecycle == Failed(p.grant(params).error, false)
    ensures !s.lifecycle.AwaitingInitialized? ==> t.lifecycle == Failed(InputFailure, GrantAccepted(s.lifecycle))
  {
  }

  /** An idle active server takes over a baseline that the provider accepts and keeps its grant; any other
      outcome, and any other server, fails. */
  lemma {:induction false} BaselineTold(p: Provider, s: Server, params: Params, t: Server)
    requires Receives(p, s, Notification(BaselineChanged(params)), t)
    ensures Becomes(s, t.lifecycle, t)
    ensures s.active != map[] ==> t.lifecycle == Failed(HealthFailure, GrantAccepted(s.lifecycle))
    ensures s.active == map[] && p.changed(params).Err? ==>
              t.lifecycle == Failed(p.changed(params).error, GrantAccepted(s.lifecycle))
    ensures s.active == map[] && p.changed(params).Ok? && s.lifecycle.Active? ==>
              t.lifecycle == Active(Session(p.changed(params).value, s.lifecycle.session.grant))
    ensures s.active == map[] && p.changed(params).Ok? && !s.lifecycle.Active? ==>
              t.lifecycle == Failed(InputFailure, GrantAccepted(s.lifecycle))
  {
  }

  /** Leaving is recorded and nothing else; other notifications, callbacks and unreadable frames change
      nothing but the complaints sent. */
  lemma {:induction false} RestTold(p: Provider, s: Server, frame: Frame, t: Server)
    requires Apply(p, s, Receive(frame)) == Some(t)
    ensures frame == Decoded(Notification(Exit)) ==>
              t.exited == Some(s.lifecycle == ShuttingDown) && t.(exited := s.exited) == s
    ensures frame == Decoded(Notification(UnknownNote)) || frame == Decoded(Callback) ==> t == s
    ensures frame == Unreadable ==> t.outbound == s.outbound + [FrameError(OtherJson)] && t.(outbound := s.outbound) == s
    ensures frame.Undecodable? ==> t.outbound == s.outbound + [FrameError(frame.id)] && t.(outbound := s.outbound) == s
  {
  }

  // The evaluation.

  /** The live evaluation is told to stop by its id, or with everything else by a shutdown. */
  predicate Stops(e: Event, id: Id) {
    AsksShutdown(e) || e == Receive(Decoded(Notification(CancelRequest(Some(id)))))
  }

  predicate AsksEvaluation(e: Event, id: Id) {
    Asks(e, id) && e.frame.incoming.call.Evaluate?
  }

  /** One event ends a live evaluation only as its completion, keeps its session, and cancels it exactly
      when it stops it. */
  lemma {:induction false} LiveTold(p: Provider, s: Server, e: Event, t: Server, id: Id)
    requires Apply(p, s, e) == Some(t) && WellDecoded(e) && StoppingOk(s) && id in s.active
    ensures id in t.active <==> e != Complete(id)
    ensures id in t.active ==>
              && t.active[id].session == s.active[id].session
              && (t.active[id].cancelled <==> s.active[id].cancelled || Stops(e, id))
    ensures e == Complete(id) ==> t.finishing == s.finishing + multiset{id} && t.outbound == s.outbound
  {
    match e {
      case Receive(Decoded(Request(Shutdown, asked))) => ShutdownTold(p, s, asked, t);
      case _ =>
    }
  }

  /** An evaluation becomes live only by a request on an idle active server. */
  lemma {:induction false} AdmittedTold(p: Provider, s: Server, e: Event, t: Server, id: Id)
    requires Apply(p, s, e) == Some(t) && WellDecoded(e) && id !in s.active && id in t.active
    ensures AsksEvaluation(e, id) && s.lifecycle.Active? && s.active == map[]
    ensures t.active[id] == Evaluation(s.lifecycle.session, false)
  {
    match e {
      case Receive(Decoded(Request(Shutdown, asked))) => ShutdownTold(p, s, asked, t);
      case _ =>
    }
  }

  ghost predicate LiveWith(s: Server, id: Id, session: Session) {
    id in s.active && s.active[id].session == session
  }

  ghost predicate Stopped(events: seq<Event>, a: nat, n: nat, id: Id) {
    exists k :: a < k < n <= |events| && Stops(events[k], id)
  }

  /** In every run a live evaluation goes back to one request on an idle active server, has been live since
      with the session of that moment, and is cancelled exactly when it was told to stop since. */
  lemma {:induction false} LiveSinceAdmission(p: Provider, states: seq<Server>, events: seq<Event>, n: nat, id: Id) returns (a: nat)
    requires IsRun(p, states, events) && n <= |events| && id in states[n].active
    ensures a < n && AsksEvaluation(events[a], id)
    ensures states[a].lifecycle.Active? && states[a].active == map[]
    ensures forall k :: a < k <= n ==> LiveWith(states[k], id, states[a].lifecycle.session)
    ensures states[n].active[id].cancelled <==> Stopped(events, a, n, id)
  {
    hide Apply, AsksEvaluation, Stops, StoppingOk;
    assert n > 0;
    var s, e, t := states[n - 1], events[n - 1], states[n];
    ShutdownCancels(p, states, events, n - 1);
    if id in s.active {
      a := LiveSinceAdmission(p, states, events, n - 1, id);
      LiveTold(p, s, e, t, id);
      if Stopped(events, a, n - 1, id) {
        var k :| a < k < n - 1 && Stops(events[k], id);
        assert Stopped(events, a, n, id);
      }
      assert Stops(e, id) ==> Stopped(events, a, n, id);
    } else {
      a := n - 1;
      AdmittedTold(p, s, e, t, id);
    }
  }

  /** The reply to a finished evaluation is the one that its evaluation produced. */
  lemma {:induction false} AnswerTold(p: Provider, s: Server, id: Id, body: Body, t: Server)
    requires Apply(p, s, Answer(id, body)) == Some(t)
    ensures id in s.finishing && t.finishing == s.finishing - multiset{id}
    ensures t.outbound == s.outbound + [Reply(id, body)]
    ensures t.lifecycle == s.lifecycle && t.active == s.active && t.waiting == s.waiting && t.exited == s.exited
  {
  }

  // The handshake.

  predicate Quiet(e: Event) {
    !AsksShutdown(e) && !Disrupts(e)
  }

  lemma {:induction false} QuietKeeps(p: Provider, s: Server, e: Event, t: Server)
    requires Apply(p, s, e) == Some(t) && WellDecoded(e) && Quiet(e) && s.lifecycle != Fresh
    ensures t.lifecycle == s.lifecycle
  {
  }

  lemma {:induction false} QuietWait(p: Provider, states: seq<Server>, events: seq<Event>, i: nat, j: nat)
    requires IsRun(p, states, events) && i <= j <= |events| && states[i].lifecycle != Fresh
    requires forall k :: i <= k < j ==> Quiet(events[k])
    ensures states[j].lifecycle == states[i].lifecycle
    decreases j - i
  {
    hide Apply, Quiet;
    if i < j {
      QuietWait(p, states, events, i, j - 1);
      QuietKeeps(p, states[j - 1], events[j - 1], states[j]);
    }
  }

  /** An initialize request that the provider accepts on a fresh server, followed, with no shutdown or lifecycle
      notification between, by a grant for that baseline, makes the server active with the granted session. */
  lemma {:induction false} HandshakeActivates(p: Provider, states: seq<Server>, events: seq<Event>, i: nat, j: nat,
                           baseline: Baseline, session: Session)
    requires IsRun(p, states, events) && i < j < |events|
    requires states[i].lifecycle == Fresh && AcceptsInitialize(p, events[i], baseline)
    requires AcceptsGrant(p, events[j], baseline, session)
    requires forall k :: i < k < j ==> Quiet(events[k])
    ensures states[i + 1].lifecycle == AwaitingInitialized(baseline)
    ensures states[j + 1].lifecycle == Active(session)
  {
    hide Quiet;
    assert WellDecoded(events[i]) && WellDecoded(events[j]);
    var first := events[i].frame.incoming;
    InitializeTold(p, states[i], first.call.params, first.id, states[i + 1]);
    QuietWait(p, states, events, i + 1, j);
    InitializedTold(p, states[j], events[j].frame.incoming.note.grantParams, states[j + 1]);
  }
}

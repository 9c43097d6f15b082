/** The provider server as a state machine: lifecycle, the single live evaluation, asynchronous
    completion, cancellation, baseline changes, and the replies sent. */
module ServerProtocol {
  import opened Collections

  datatype Result<+T> = Ok(value: T) | Err(error: Failure)

  type Baseline = seq<nat>
  type Grant = seq<nat>
  type Params = seq<nat>

  /** JSON-RPC ids. Only strings and integers are valid request ids. */
  datatype Id = Text(text: string) | Number(number: int) | OtherJson

  predicate ValidId(id: Id) {
    !id.OtherJson?
  }

  datatype Failure = InputFailure | HealthFailure | UnavailableFailure | NotInitialized | ProviderFailure(code: nat)

  datatype Session = Session(baseline: Baseline, grant: Grant)

  datatype Lifecycle =
    | Fresh
    | AwaitingInitialized(baseline: Baseline)
    | Active(session: Session)
    | Failed(error: Failure, grantAccepted: bool)
    | ShuttingDown

  /** A live evaluation: the session it was admitted with and its cancel token. */
  datatype Evaluation = Evaluation(session: Session, cancelled: bool)

  datatype Body = Success | Failing(failure: Failure) | Malformed

  /** Messages to the host: the reply to a decoded request, or the complaint about a frame that
      could not be read or decoded. */
  datatype Message = Reply(id: Id, body: Body) | FrameError(id: Id)

  datatype Call = Initialize(params: Params) | Evaluate(params: Params) | Shutdown | UnknownMethod

  datatype Note =
    | Initialized(grantParams: Params)
    | BaselineChanged(changeParams: Params)
    | CancelRequest(target: Option<Id>)
    | Exit
    | UnknownNote

  datatype Incoming = Request(call: Call, id: Id) | Notification(note: Note) | Callback

  /** What one call of the frame reader yields. */
  datatype Frame = Unreadable | Undecodable(id: Id) | Decoded(incoming: Incoming)

  /** The parts of the provider protocol that parse parameters. */
  datatype Provider = Provider(
    initialize: Params -> Result<Baseline>,
    grant: Params -> Result<Session>,
    changed: Params -> Result<Baseline>,
    canonical: Baseline -> Baseline)

  /** `finishing` holds evaluations that have left the live map but whose reply is not yet sent;
      `waiting` is the id of a shutdown request that waits for the live evaluation to end. */
  datatype Server = Server(
    lifecycle: Lifecycle,
    active: map<Id, Evaluation>,
    finishing: multiset<Id>,
    waiting: Option<Id>,
    exited: Option<bool>,
    outbound: seq<Message>)

  const START: Server := Server(Fresh, map[], multiset{}, None, None, [])

  function Send(s: Server, m: Message): Server {
    s.(outbound := s.outbound + [m])
  }

  function Respond(s: Server, id: Id, r: Result<()>): Server {
    Send(s, Reply(id, if r.Ok? then Success else Failing(r.error)))
  }

  /** `fail_lifecycle` */
  function Fail(l: Lifecycle, error: Failure): Lifecycle {
    var accepted :=
      match l
      case Active(_) => true
      case Failed(_, grantAccepted) => grantAccepted
      case _ => false;
    Failed(error, accepted)
  }

  /** `initialize` and `initialize_state` */
  function OnInitialize(p: Provider, s: Server, params: Params, id: Id): Server {
    if !ValidId(id) then Send(s, Reply(OtherJson, Malformed))
    else if s.lifecycle != Fresh then Respond(s, id, Err(InputFailure))
    else
      match p.initialize(params)
      case Err(e) => Respond(s, id, Err(e))
      case Ok(baseline) => Respond(s.(lifecycle := AwaitingInitialized(baseline)), id, Ok(()))
  }

  /** `active_session` */
  function ActiveSession(l: Lifecycle): Result<Session> {
    match l
    case Active(session) => Ok(session)
    case Failed(error, true) => Err(error)
    case ShuttingDown => Err(UnavailableFailure)
    case _ => Err(NotInitialized)
  }

  /** `evaluate`: admits at most one evaluation; an admitted one is answered on completion. */
  function OnEvaluate(s: Server, id: Id): Server {
    if !ValidId(id) then Send(s, Reply(OtherJson, Malformed))
    else
      match ActiveSession(s.lifecycle)
      case Err(e) => Respond(s, id, Err(e))
      case Ok(session) =>
        if id in s.active then Send(s, Reply(id, Malformed))
        else if s.active != map[] then Respond(s, id, Err(UnavailableFailure))
        else s.(active := s.active[id := Evaluation(session, false)])
  }

  function CancelAll(active: map<Id, Evaluation>): map<Id, Evaluation> {
    map k | k in active :: active[k].(cancelled := true)
  }

  /** `shutdown`, up to the wait for the live evaluation. */
  function OnShutdown(s: Server, id: Id): Server {
    if !ValidId(id) then Send(s, Reply(OtherJson, Malformed))
    else if s.lifecycle == ShuttingDown then Respond(s, id, Err(InputFailure))
    else s.(lifecycle := ShuttingDown, active := CancelAll(s.active), waiting := Some(id))
  }

  /** `initialize_session` */
  function Grants(p: Provider, expected: Baseline, params: Params): Result<Session> {
    match p.grant(params)
    case Err(e) => Err(e)
    case Ok(session) =>
      if p.canonical(session.baseline) != p.canonical(expected) then Err(HealthFailure) else Ok(session)
  }

  function OnInitialized(p: Provider, l: Lifecycle, params: Params): Lifecycle {
    match l
    case AwaitingInitialized(baseline) =>
      (match Grants(p, baseline, params)
       case Ok(session) => Active(session)
       case Err(e) => Fail(l, e))
    case _ => Fail(l, InputFailure)
  }

  /** `baseline_changed` and `update_baseline` */
  function OnBaselineChanged(p: Provider, s: Server, params: Params): Lifecycle {
    if s.active != map[] then Fail(s.lifecycle, HealthFailure)
    else
      match p.changed(params)
      case Err(e) => Fail(s.lifecycle, e)
      case Ok(baseline) =>
        if s.lifecycle.Active? then Active(s.lifecycle.session.(baseline := baseline))
        else Fail(s.lifecycle, InputFailure)
  }

  function OnNote(p: Provider, s: Server, note: Note): Server {
    match note
    case Initialized(params) => s.(lifecycle := OnInitialized(p, s.lifecycle, params))
    case BaselineChanged(params) => s.(lifecycle := OnBaselineChanged(p, s, params))
    case CancelRequest(target) =>
      if target.Some? && target.value in s.active
      then s.(active := s.active[target.value := s.active[target.value].(cancelled := true)])
      else s
    case Exit => s.(exited := Some(s.lifecycle == ShuttingDown))
    case UnknownNote => s
  }

  function OnRequest(p: Provider, s: Server, call: Call, id: Id): Server {
    match call
    case Initialize(params) => OnInitialize(p, s, params, id)
    case Evaluate(_) => OnEvaluate(s, id)
    case Shutdown => OnShutdown(s, id)
    case UnknownMethod => Send(s, Reply(id, Malformed))
  }

  /** One turn of `serve_frames`. */
  function OnFrame(p: Provider, s: Server, frame: Frame): Server {
    match frame
    case Unreadable => Send(s, FrameError(OtherJson))
    case Undecodable(id) => Send(s, FrameError(id))
    case Decoded(Request(call, id)) => OnRequest(p, s, call, id)
    case Decoded(Notification(note)) => OnNote(p, s, note)
    case Decoded(Callback) => s
  }

  /** What can happen: the main loop handles a frame, the spawned evaluation leaves the live map,
      its reply is sent, or a waiting shutdown gives up or finds the live map empty. */
  datatype Event =
    | Receive(frame: Frame)
    | Complete(id: Id)
    | Answer(id: Id, body: Body)
    | EndShutdown

  /** The spawned evaluation removes itself from the live map. */
  function Leave(s: Server, id: Id): Server {
    s.(active := s.active - {id}, finishing := s.finishing + multiset{id})
  }

  /** Its reply is sent. */
  function Deliver(s: Server, id: Id, body: Body): Server
    requires id in s.finishing
  {
    Send(s.(finishing := s.finishing - multiset{id}), Reply(id, body))
  }

  function Apply(p: Provider, s: Server, e: Event): Option<Server> {
    match e
    case Receive(frame) => if s.exited.Some? || s.waiting.Some? then None else Some(OnFrame(p, s, frame))
    case Complete(id) =>
      if id in s.active then Some(Leave(s, id)) else None
    case Answer(id, body) =>
      if id in s.finishing then Some(Deliver(s, id, body)) else None
    case EndShutdown =>
      if s.waiting.Some? then Some(Respond(s.(waiting := None), s.waiting.value, Ok(()))) else None
  }

  /** `decode_incoming` lets only valid ids through. */
  predicate WellDecoded(e: Event) {
    e.Receive? && e.frame.Decoded? && e.frame.incoming.Request? ==> ValidId(e.frame.incoming.id)
  }

  ghost predicate IsRun(p: Provider, states: seq<Server>, events: seq<Event>) {
    |states| == |events| + 1 && states[0] == START
    && (forall i :: 0 <= i < |events| ==> WellDecoded(events[i]))
    && forall i :: 0 <= i < |events| ==> Apply(p, states[i], events[i]) == Some(states[i + 1])
  }

  // Live evaluations.

  /** At most one evaluation is live, and an active lifecycle has the session it was admitted with. */
  ghost predicate LiveOk(s: Server) {
    && |s.active| <= 1
    && (s.active != map[] ==> Phase(s.lifecycle) >= 2)
    && (forall id :: id in s.active && s.lifecycle.Active? ==> s.active[id].session == s.lifecycle.session)
  }

  lemma SmallMap(active: map<Id, Evaluation>, id: Id)
    ensures |active| == 1 && id in active ==> active - {id} == map[]
    ensures |active| == 0 ==> active == map[]
    ensures |active| <= 1 && id in active ==> |active - {id}| == 0
  {
    if |active| == 1 && id in active {
      assert active.Keys == {id} by {
        assert {id} <= active.Keys && |active.Keys - {id}| == 0;
      }
    }
  }

  lemma CancelKeepsLive(active: map<Id, Evaluation>)
    ensures |CancelAll(active)| == |active|
    ensures CancelAll(active).Keys == active.Keys
  {
    assert CancelAll(active).Keys == active.Keys;
  }

  lemma EvaluateKeepsLive(s: Server, id: Id)
    requires LiveOk(s)
    ensures LiveOk(OnEvaluate(s, id))
  {
  }

  lemma FrameKeepsLive(p: Provider, s: Server, frame: Frame)
    requires LiveOk(s)
    ensures LiveOk(OnFrame(p, s, frame))
  {
    var t := OnFrame(p, s, frame);
    match frame {
      case Decoded(Request(Shutdown, _)) => CancelKeepsLive(s.active);
      case Decoded(Notification(CancelRequest(_))) =>
        assert t.active.Keys == s.active.Keys;
        assert |t.active| == |t.active.Keys| && |s.active| == |s.active.Keys|;
      case Decoded(Request(Evaluate(_), id)) =>
        EvaluateKeepsLive(s, id);
      case _ =>
        assert t.active == s.active;
    }
  }

  lemma EventKeepsLive(p: Provider, s: Server, e: Event, t: Server)
    requires LiveOk(s) && Apply(p, s, e) == Some(t)
    ensures LiveOk(t)
  {
    hide OnFrame;
    match e {
      case Receive(frame) => FrameKeepsLive(p, s, frame);
      case Complete(id) => SmallMap(s.active, id);
      case _ =>
    }
  }

  /** In every run at most one evaluation is live, and while it is live the lifecycle is never
      active with another session than the one it was admitted with. */
  lemma {:induction false} OneLiveEvaluation(p: Provider, states: seq<Server>, events: seq<Event>, n: nat)
    requires IsRun(p, states, events) && n <= |events|
    ensures LiveOk(states[n])
  {
    if n > 0 {
      OneLiveEvaluation(p, states, events, n - 1);
      EventKeepsLive(p, states[n - 1], events[n - 1], states[n]);
    }
  }

  /** While the server shuts down every live evaluation has been told to stop. */
  ghost predicate StoppingOk(s: Server) {
    s.lifecycle == ShuttingDown ==> forall id :: id in s.active ==> s.active[id].cancelled
  }

  lemma FrameKeepsStopping(p: Provider, s: Server, frame: Frame)
    requires StoppingOk(s)
    ensures StoppingOk(OnFrame(p, s, frame))
  {
    match frame {
      case Decoded(Request(call, id)) => RequestKeepsStopping(p, s, call, id);
      case Decoded(Notification(note)) => NoteKeepsStopping(p, s, note);
      case _ =>
    }
  }

  lemma RequestKeepsStopping(p: Provider, s: Server, call: Call, id: Id)
    requires StoppingOk(s)
    ensures StoppingOk(OnRequest(p, s, call, id))
  {
  }

  lemma NoteKeepsStopping(p: Provider, s: Server, note: Note)
    requires StoppingOk(s)
    ensures StoppingOk(OnNote(p, s, note))
  {
  }

  /** In every run, while the server is shutting down all live evaluations are cancelled, and none is
      admitted. */
  lemma {:induction false} ShutdownCancels(p: Provider, states: seq<Server>, events: seq<Event>, n: nat)
    requires IsRun(p, states, events) && n <= |events|
    ensures StoppingOk(states[n])
    ensures n < |events| && states[n].lifecycle == ShuttingDown ==> states[n + 1].active.Keys <= states[n].active.Keys
  {
    if n > 0 {
      ShutdownCancels(p, states, events, n - 1);
      assert Apply(p, states[n - 1], events[n - 1]) == Some(states[n]);
      hide OnFrame;
      if events[n - 1].Receive? {
        FrameKeepsStopping(p, states[n - 1], events[n - 1].frame);
      }
    }
    if n < |events| && states[n].lifecycle == ShuttingDown {
      NoneAdmitted(p, states[n], events[n], states[n + 1]);
    }
  }

  lemma NoneAdmitted(p: Provider, s: Server, e: Event, t: Server)
    requires Apply(p, s, e) == Some(t) && s.lifecycle == ShuttingDown
    ensures t.active.Keys <= s.active.Keys
  {
  }

  // Lifecycle.

  function Phase(l: Lifecycle): nat {
    match l
    case Fresh => 0
    case AwaitingInitialized(_) => 1
    case Active(_) => 2
    case _ => 3
  }

  /** The lifecycle never goes back, and it becomes active only from waiting, by a grant. */
  lemma EventAdvances(p: Provider, s: Server, e: Event, t: Server)
    requires Apply(p, s, e) == Some(t)
    ensures Advances(p, s.lifecycle, e, t.lifecycle)
  {
    hide OnFrame, Advances;
    if e.Receive? {
      FrameAdvances(p, s, e.frame);
    } else {
      Stays(p, s.lifecycle, e);
    }
  }

  ghost predicate Advances(p: Provider, l: Lifecycle, e: Event, m: Lifecycle) {
    && Phase(l) <= Phase(m)
    && (Phase(l) == 0 && Phase(m) == 1 ==> AcceptsInitialize(p, e, m.baseline))
    && (Phase(l) == 1 && Phase(m) == 1 ==> l == m)
    && (Phase(l) < 2 && Phase(m) == 2 ==> l.AwaitingInitialized? && AcceptsGrant(p, e, l.baseline, m.session))
  }

  lemma Stays(p: Provider, l: Lifecycle, e: Event)
    ensures Advances(p, l, e, l)
  {
  }

  lemma FrameAdvances(p: Provider, s: Server, frame: Frame)
    ensures Advances(p, s.lifecycle, Receive(frame), OnFrame(p, s, frame).lifecycle)
  {
    match frame {
      case Decoded(Request(Initialize(params), id)) =>
      case Decoded(Request(Shutdown, id)) =>
      case Decoded(Notification(Initialized(params))) =>
      case Decoded(Notification(BaselineChanged(params))) =>
      case _ =>
        hide Advances;
        assert OnFrame(p, s, frame).lifecycle == s.lifecycle;
        Stays(p, s.lifecycle, Receive(frame));
    }
  }

  /** The event is an initialize request that the provider accepts with this baseline. */
  ghost predicate AcceptsInitialize(p: Provider, e: Event, baseline: Baseline) {
    && e.Receive? && e.frame.Decoded? && e.frame.incoming.Request? && e.frame.incoming.call.Initialize?
    && p.initialize(e.frame.incoming.call.params) == Ok(baseline)
  }

  /** The event is an initialized notification that grants this session for a matching baseline. */
  ghost predicate AcceptsGrant(p: Provider, e: Event, expected: Baseline, session: Session) {
    && e.Receive? && e.frame.Decoded? && e.frame.incoming.Notification? && e.frame.incoming.note.Initialized?
    && p.grant(e.frame.incoming.note.grantParams) == Ok(session)
    && p.canonical(session.baseline) == p.canonical(expected)
  }

  lemma {:induction false} RunAdvances(p: Provider, states: seq<Server>, events: seq<Event>, i: nat, j: nat)
    requires IsRun(p, states, events) && i <= j <= |events|
    ensures Phase(states[i].lifecycle) <= Phase(states[j].lifecycle)
    decreases j - i
  {
    if i < j {
      RunAdvances(p, states, events, i, j - 1);
      EventAdvances(p, states[j - 1], events[j - 1], states[j]);
    }
  }

  ghost predicate EntersActive(states: seq<Server>, i: nat)
    requires i + 1 < |states|
  {
    !states[i].lifecycle.Active? && states[i + 1].lifecycle.Active?
  }

  /** Active is entered at most once in a run. */
  lemma ActiveEnteredOnce(p: Provider, states: seq<Server>, events: seq<Event>, i: nat, j: nat)
    requires IsRun(p, states, events) && i < |events| && j < |events|
    requires EntersActive(states, i) && EntersActive(states, j)
    ensures i == j
  {
    EventAdvances(p, states[i], events[i], states[i + 1]);
    EventAdvances(p, states[j], events[j], states[j + 1]);
    if i < j {
      RunAdvances(p, states, events, i + 1, j);
    } else if j < i {
      RunAdvances(p, states, events, j + 1, i);
    }
  }

  /** A waiting lifecycle was reached by an accepted initialize request. */
  lemma {:induction false} AwaitingAfterInitialize(p: Provider, states: seq<Server>, events: seq<Event>, n: nat) returns (i: nat)
    requires IsRun(p, states, events) && n <= |events| && states[n].lifecycle.AwaitingInitialized?
    ensures i < n && AcceptsInitialize(p, events[i], states[n].lifecycle.baseline)
    ensures states[i].lifecycle == Fresh && states[i + 1].lifecycle.AwaitingInitialized?
  {
    EventAdvances(p, states[n - 1], events[n - 1], states[n]);
    if states[n - 1].lifecycle == Fresh {
      i := n - 1;
    } else {
      i := AwaitingAfterInitialize(p, states, events, n - 1);
    }
  }

  /** At most one initialize request is accepted in a run. */
  lemma InitializeAcceptedOnce(p: Provider, states: seq<Server>, events: seq<Event>, i: nat, j: nat)
    requires IsRun(p, states, events) && i < |events| && j < |events|
    requires states[i].lifecycle == Fresh && states[i + 1].lifecycle.AwaitingInitialized?
    requires states[j].lifecycle == Fresh && states[j + 1].lifecycle.AwaitingInitialized?
    ensures i == j
  {
    if i < j {
      RunAdvances(p, states, events, i + 1, j);
    } else if j < i {
      RunAdvances(p, states, events, j + 1, i);
    }
  }

  /** Whenever the server is active, an initialize request was accepted before, on a fresh
      server, and after it one grant with a matching baseline activated the session. */
  lemma {:induction false} ActiveAfterHandshake(p: Provider, states: seq<Server>, events: seq<Event>, n: nat)
    returns (i: nat, j: nat, expected: Baseline)
    requires IsRun(p, states, events) && n <= |events| && states[n].lifecycle.Active?
    ensures i < j < n && EntersActive(states, j)
    ensures states[i].lifecycle == Fresh && AcceptsInitialize(p, events[i], expected)
    ensures states[i + 1].lifecycle.AwaitingInitialized?
    ensures AcceptsGrant(p, events[j], expected, states[j + 1].lifecycle.session)
  {
    EventAdvances(p, states[n - 1], events[n - 1], states[n]);
    if states[n - 1].lifecycle.Active? {
      i, j, expected := ActiveAfterHandshake(p, states, events, n - 1);
    } else {
      j := n - 1;
      expected := states[j].lifecycle.baseline;
      i := AwaitingAfterInitialize(p, states, events, j);
    }
  }

  // Replies.

  predicate Asks(e: Event, id: Id) {
    e.Receive? && e.frame.Decoded? && e.frame.incoming.Request? && e.frame.incoming.id == id
  }

  /** How many decoded requests carry this id. */
  function Asked(events: seq<Event>, id: Id): nat {
    if events == [] then 0
    else Asked(events[..|events| - 1], id) + (if Asks(events[|events| - 1], id) then 1 else 0)
  }

  /** How many replies carry this id. */
  function Answered(outbound: seq<Message>, id: Id): nat {
    if outbound == [] then 0
    else Answered(outbound[..|outbound| - 1], id) + Answers(outbound[|outbound| - 1], id)
  }

  function Answers(m: Message, id: Id): nat {
    if m.Reply? && m.id == id then 1 else 0
  }

  /** How many requests with this id are still in flight: live, finishing, or a waiting shutdown. */
  function InFlight(s: Server, id: Id): nat {
    (if id in s.active then 1 else 0) + s.finishing[id] + (if s.waiting == Some(id) then 1 else 0)
  }

  function Settled(s: Server, id: Id): nat {
    Answered(s.outbound, id) + InFlight(s, id)
  }

  lemma SendSettles(s: Server, m: Message, id: Id)
    ensures Settled(Send(s, m), id) == Settled(s, id) + Answers(m, id)
  {
    assert (s.outbound + [m])[..|s.outbound|] == s.outbound;
  }

  lemma InitializeSettles(p: Provider, s: Server, params: Params, asked: Id, id: Id)
    requires ValidId(asked)
    ensures Settled(OnInitialize(p, s, params, asked), id) == Settled(s, id) + (if asked == id then 1 else 0)
  {
    hide Answered;
    var t := OnInitialize(p, s, params, asked);
    var m := t.outbound[|s.outbound|];
    assert t == Send(s.(lifecycle := t.lifecycle), m);
    SendSettles(s.(lifecycle := t.lifecycle), m, id);
  }

  lemma EvaluateSettles(s: Server, asked: Id, id: Id)
    requires ValidId(asked)
    ensures Settled(OnEvaluate(s, asked), id) == Settled(s, id) + (if asked == id then 1 else 0)
  {
    hide Answered;
    var t := OnEvaluate(s, asked);
    if t.outbound != s.outbound {
      var m := t.outbound[|s.outbound|];
      assert t == Send(s, m);
      SendSettles(s, m, id);
    }
  }

  lemma ShutdownSettles(s: Server, asked: Id, id: Id)
    requires ValidId(asked) && s.waiting.None?
    ensures Settled(OnShutdown(s, asked), id) == Settled(s, id) + (if asked == id then 1 else 0)
  {
    hide Answered;
    if s.lifecycle == ShuttingDown {
      SendSettles(s, Reply(asked, Failing(InputFailure)), id);
    }
  }

  lemma NoteSettles(p: Provider, s: Server, note: Note, id: Id)
    ensures Settled(OnNote(p, s, note), id) == Settled(s, id)
  {
    hide Answered;
  }

  lemma FrameSettles(p: Provider, s: Server, frame: Frame, id: Id)
    requires s.waiting.None? && WellDecoded(Receive(frame))
    ensures Settled(OnFrame(p, s, frame), id) == Settled(s, id) + (if Asks(Receive(frame), id) then 1 else 0)
  {
    hide Settled;
    match frame {
      case Decoded(Request(Initialize(params), asked)) => InitializeSettles(p, s, params, asked, id);
      case Decoded(Request(Evaluate(_), asked)) => EvaluateSettles(s, asked, id);
      case Decoded(Request(Shutdown, asked)) => ShutdownSettles(s, asked, id);
      case Decoded(Request(UnknownMethod, asked)) => SendSettles(s, Reply(asked, Malformed), id);
      case Decoded(Notification(note)) => NoteSettles(p, s, note, id);
      case Decoded(Callback) =>
      case Unreadable => SendSettles(s, FrameError(OtherJson), id);
      case Undecodable(about) => SendSettles(s, FrameError(about), id);
    }
  }

  lemma LeaveSettles(s: Server, done: Id, id: Id)
    requires done in s.active
    ensures Settled(Leave(s, done), id) == Settled(s, id)
  {
    hide Answered;
    assert Leave(s, done).finishing[id] == s.finishing[id] + (if done == id then 1 else 0);
  }

  lemma DeliverSettles(s: Server, done: Id, body: Body, id: Id)
    requires done in s.finishing
    ensures Settled(Deliver(s, done, body), id) == Settled(s, id)
  {
    hide Answered;
    var u := s.(finishing := s.finishing - multiset{done});
    assert u.finishing[id] == s.finishing[id] - (if done == id then 1 else 0);
    SendSettles(u, Reply(done, body), id);
  }

  /** Every event keeps the books: what it asks is answered at once or stays in flight. */
  lemma EventSettles(p: Provider, s: Server, e: Event, t: Server, id: Id)
    requires Apply(p, s, e) == Some(t) && WellDecoded(e)
    ensures Settled(t, id) == Settled(s, id) + (if Asks(e, id) then 1 else 0)
  {
    hide Answered, OnFrame, Leave, Deliver;
    match e {
      case Receive(frame) => FrameSettles(p, s, frame, id);
      case Complete(done) => LeaveSettles(s, done, id);
      case Answer(done, body) => DeliverSettles(s, done, body, id);
      case EndShutdown => SendSettles(s.(waiting := None), Reply(s.waiting.value, Success), id);
    }
  }

  /** In every run each decoded request has exactly one reply carrying its id, counting those that
      are still in flight; notifications and callback replies have none. */
  lemma {:induction false} EveryRequestAnsweredOnce(p: Provider, states: seq<Server>, events: seq<Event>, n: nat, id: Id)
    requires IsRun(p, states, events) && n <= |events|
    ensures Answered(states[n].outbound, id) + InFlight(states[n], id) == Asked(events[..n], id)
  {
    hide Apply;
    if n > 0 {
      EveryRequestAnsweredOnce(p, states, events, n - 1, id);
      EventSettles(p, states[n - 1], events[n - 1], states[n], id);
      assert events[..n][..n - 1] == events[..n - 1];
    }
  }

  // Shutting down.

  predicate AsksShutdown(e: Event) {
    e.Receive? && e.frame.Decoded? && e.frame.incoming.Request? && e.frame.incoming.call.Shutdown?
  }

  /** Notifications that put a server that is not active into the failed state. */
  predicate Disrupts(e: Event) {
    && e.Receive? && e.frame.Decoded? && e.frame.incoming.Notification?
    && (e.frame.incoming.note.Initialized? || e.frame.incoming.note.BaselineChanged?)
  }

  ghost predicate ShutdownStands(events: seq<Event>, i: nat, n: nat)
    requires i < n <= |events|
  {
    AsksShutdown(events[i]) && forall k :: i < k < n ==> !Disrupts(events[k])
  }

  /** One event puts the server into shutdown exactly when it asks for it, and takes it out exactly
      when it disrupts. */
  lemma EventShutdown(p: Provider, s: Server, e: Event, t: Server)
    requires Apply(p, s, e) == Some(t) && WellDecoded(e)
    ensures t.lifecycle == ShuttingDown <==> AsksShutdown(e) || (s.lifecycle == ShuttingDown && !Disrupts(e))
  {
    if e.Receive? && e.frame.Decoded? {
      match e.frame.incoming {
        case Request(call, id) => RequestShutdown(p, s, call, id);
        case Notification(note) =>
        case Callback =>
      }
    }
  }

  lemma RequestShutdown(p: Provider, s: Server, call: Call, id: Id)
    requires ValidId(id)
    ensures OnRequest(p, s, call, id).lifecycle == ShuttingDown <==> call.Shutdown? || s.lifecycle == ShuttingDown
  {
  }

  lemma NoneStands(events: seq<Event>, m: nat, n: nat, before: bool)
    requires n == m + 1 && n <= |events| && !AsksShutdown(events[m])
    requires before <==> exists i: nat :: i < m && ShutdownStands(events, i, m)
    requires before ==> Disrupts(events[m])
    ensures !exists i: nat :: i < n && ShutdownStands(events, i, n)
  {
    hide Disrupts, AsksShutdown;
    forall i: nat | i < n && ShutdownStands(events, i, n)
      ensures i < m && ShutdownStands(events, i, m) && !Disrupts(events[m])
    {
    }
  }

  /** Shutting down is not final: the server is shutting down exactly when some shutdown request has
      not been followed by an `initialized` or `baselineChanged` notification. */
  lemma {:induction false} ShuttingDownIffStands(p: Provider, states: seq<Server>, events: seq<Event>, n: nat)
    requires IsRun(p, states, events) && n <= |events|
    ensures states[n].lifecycle == ShuttingDown <==> exists i: nat :: i < n && ShutdownStands(events, i, n)
  {
    hide Apply;
    hide Disrupts, AsksShutdown;
    if n > 0 {
      ShuttingDownIffStands(p, states, events, n - 1);
      EventShutdown(p, states[n - 1], events[n - 1], states[n]);
      if AsksShutdown(events[n - 1]) {
        assert ShutdownStands(events, n - 1, n);
      } else if states[n].lifecycle == ShuttingDown {
        var i: nat :| i < n - 1 && ShutdownStands(events, i, n - 1);
        assert ShutdownStands(events, i, n);
      } else {
        NoneStands(events, n - 1, n, states[n - 1].lifecycle == ShuttingDown);
      }
    }
  }

  /** Hence `exit` is reported clean exactly when such a shutdown request stands. */
  lemma CleanExit(p: Provider, states: seq<Server>, events: seq<Event>, n: nat)
    requires IsRun(p, states, events) && n < |events|
    requires events[n] == Receive(Decoded(Notification(Exit)))
    ensures states[n + 1].exited == Some(exists i: nat :: i < n && ShutdownStands(events, i, n))
  {
    ShuttingDownIffStands(p, states, events, n);
  }

  /** Shutting down is not final: an out-of-order notification replaces it, after which `exit` is
      unclean and a second shutdown is accepted. */
  lemma ShutdownCanBeUndone(p: Provider, params: Params, a: Id, b: Id)
    returns (leaving: seq<Server>, again: seq<Server>)
    requires ValidId(a) && ValidId(b)
    ensures IsRun(p, leaving, UndoneBy(params, a) + [Receive(Decoded(Notification(Exit)))])
    ensures leaving[2].lifecycle == ShuttingDown && leaving[4].exited == Some(false)
    ensures IsRun(p, again, UndoneBy(params, a) + [Receive(Decoded(Request(Shutdown, b)))])
    ensures again[2].lifecycle == ShuttingDown && again[4].waiting == Some(b)
  {
    var s1 := START.(lifecycle := ShuttingDown, waiting := Some(a));
    var s2 := Send(s1.(waiting := None), Reply(a, Success));
    var s3 := s2.(lifecycle := Failed(InputFailure, false));
    assert s1.active == CancelAll(START.active);
    leaving := [START, s1, s2, s3, s3.(exited := Some(false))];
    assert s3.active == CancelAll(s3.active);
    again := [START, s1, s2, s3, s3.(lifecycle := ShuttingDown, waiting := Some(b))];
  }

  function UndoneBy(params: Params, a: Id): seq<Event> {
    [Receive(Decoded(Request(Shutdown, a))), EndShutdown, Receive(Decoded(Notification(Initialized(params))))]
  }

  // The server object, whose fields its methods update in place.

  class ServerObject {
    const provider: Provider
    var lifecycle: Lifecycle
    var active: map<Id, Evaluation>
    var finishing: multiset<Id>
    var waiting: Option<Id>
    var exited: Option<bool>
    var outbound: seq<Message>

    function State(): Server
      reads this
    {
      Server(lifecycle, active, finishing, waiting, exited, outbound)
    }

    constructor (p: Provider)
      ensures State() == START && provider == p
    {
      provider, lifecycle, active, finishing := p, Fresh, map[], multiset{};
      waiting, exited, outbound := None, None, [];
    }

    method SendMessage(m: Message)
      modifies this`outbound
      ensures State() == Send(old(State()), m)
    {
      outbound := outbound + [m];
    }

    method SendResult(id: Id, result: Result<()>)
      modifies this`outbound
      ensures State() == Respond(old(State()), id, result)
    {
      match result {
        case Ok(_) => SendMessage(Reply(id, Success));
        case Err(error) => SendMessage(Reply(id, Failing(error)));
      }
    }

    method FailLifecycle(error: Failure)
      modifies this`lifecycle
      ensures State() == old(State()).(lifecycle := Fail(old(lifecycle), error))
    {
      var accepted := false;
      match lifecycle {
        case Active(_) => accepted := true;
        case Failed(_, before) => accepted := before;
        case _ =>
      }
      lifecycle := Failed(error, accepted);
    }

    method RouteInitialize(params: Params, id: Id)
      modifies this`lifecycle, this`outbound
      ensures State() == OnInitialize(provider, old(State()), params, id)
    {
      if !ValidId(id) {
        SendMessage(Reply(OtherJson, Malformed));
        return;
      }
      if lifecycle != Fresh {
        SendResult(id, Err(InputFailure));
        return;
      }
      match provider.initialize(params) {
        case Err(error) => SendResult(id, Err(error));
        case Ok(baseline) =>
          lifecycle := AwaitingInitialized(baseline);
          SendResult(id, Ok(()));
      }
    }

    method RouteEvaluate(id: Id)
      modifies this`active, this`outbound
      ensures State() == OnEvaluate(old(State()), id)
    {
      if !ValidId(id) {
        SendMessage(Reply(OtherJson, Malformed));
        return;
      }
      match ActiveSession(lifecycle) {
        case Err(error) => SendResult(id, Err(error));
        case Ok(session) =>
          if id in active {
            SendMessage(Reply(id, Malformed));
          } else if active != map[] {
            SendResult(id, Err(UnavailableFailure));
          } else {
            active := active[id := Evaluation(session, false)];
          }
      }
    }

    /** Cancels the tokens one by one, in whatever order the map yields them. */
    method CancelEvery()
      modifies this`active
      ensures State() == old(State()).(active := CancelAll(old(active)))
    {
      var left := active.Keys;
      while left != {}
        invariant left <= active.Keys == old(active.Keys)
        invariant forall id :: id in active && id in left ==> active[id] == old(active[id])
        invariant forall id :: id in active && id !in left ==> active[id] == old(active[id]).(cancelled := true)
      {
        var id :| id in left;
        active := active[id := active[id].(cancelled := true)];
        left := left - {id};
      }
      assert active == CancelAll(old(active));
    }

    /** Up to the wait for the live evaluation. */
    method RouteShutdown(id: Id)
      modifies this`lifecycle, this`active, this`waiting, this`outbound
      ensures State() == OnShutdown(old(State()), id)
    {
      if !ValidId(id) {
        SendMessage(Reply(OtherJson, Malformed));
        return;
      }
      if lifecycle == ShuttingDown {
        SendResult(id, Err(InputFailure));
        return;
      }
      lifecycle := ShuttingDown;
      CancelEvery();
      waiting := Some(id);
    }

    method RouteInitialized(params: Params)
      modifies this`lifecycle
      ensures State() == OnNote(provider, old(State()), Initialized(params))
    {
      if !lifecycle.AwaitingInitialized? {
        FailLifecycle(InputFailure);
        return;
      }
      match Grants(provider, lifecycle.baseline, params) {
        case Ok(session) => lifecycle := Active(session);
        case Err(error) => FailLifecycle(error);
      }
    }

    method RouteBaselineChanged(params: Params)
      modifies this`lifecycle
      ensures State() == OnNote(provider, old(State()), BaselineChanged(params))
    {
      var result := if active == map[] then provider.changed(params) else Err(HealthFailure);
      match result {
        case Err(error) => FailLifecycle(error);
        case Ok(baseline) =>
          match lifecycle {
            case Active(session) => lifecycle := Active(session.(baseline := baseline));
            case _ => FailLifecycle(InputFailure);
          }
      }
    }

    method RouteCancel(target: Option<Id>)
      modifies this`active
      ensures State() == OnNote(provider, old(State()), CancelRequest(target))
    {
      if target.Some? && target.value in active {
        active := active[target.value := active[target.value].(cancelled := true)];
      }
    }

    /** One turn of `serve_frames`. */
    method Serve(frame: Frame)
      modifies this
      ensures State() == OnFrame(provider, old(State()), frame)
    {
      match frame {
        case Unreadable => SendMessage(FrameError(OtherJson));
        case Undecodable(id) => SendMessage(FrameError(id));
        case Decoded(Request(Initialize(params), id)) => RouteInitialize(params, id);
        case Decoded(Request(Evaluate(_), id)) => RouteEvaluate(id);
        case Decoded(Request(Shutdown, id)) => RouteShutdown(id);
        case Decoded(Request(UnknownMethod, id)) => SendMessage(Reply(id, Malformed));
        case Decoded(Notification(Initialized(params))) => RouteInitialized(params);
        case Decoded(Notification(BaselineChanged(params))) => RouteBaselineChanged(params);
        case Decoded(Notification(CancelRequest(target))) => RouteCancel(target);
        case Decoded(Notification(Exit)) => exited := Some(lifecycle == ShuttingDown);
        case Decoded(Notification(UnknownNote)) =>
        case Decoded(Callback) =>
      }
    }

    /** The spawned evaluation removes itself from the live map. */
    method Finish(id: Id)
      requires id in active
      modifies this`active, this`finishing
      ensures State() == Leave(old(State()), id)
    {
      active := active - {id};
      finishing := finishing + multiset{id};
    }

    /** Its reply is sent. */
    method ReplyTo(id: Id, body: Body)
      requires id in finishing
      modifies this`finishing, this`outbound
      ensures State() == Deliver(old(State()), id, body)
    {
      finishing := finishing - multiset{id};
      SendMessage(Reply(id, body));
    }

    /** The wait of a shutdown ends: the live map is empty or the time is up. */
    method FinishShutdown()
      requires waiting.Some?
      modifies this`waiting, this`outbound
      ensures State() == Respond(old(State()).(waiting := None), old(waiting).value, Ok(()))
    {
      var id := waiting.value;
      waiting := None;
      SendResult(id, Ok(()));
    }

    /** Lets one thing happen, if it can. */
    method Perform(e: Event) returns (done: bool)
      modifies this
      ensures done == CanHappen(provider, old(State()), e)
      ensures if done then Apply(provider, old(State()), e) == Some(State()) else State() == old(State())
    {
      hide OnFrame;
      if !WellDecoded(e) {
        return false;
      }
      match e {
        case Receive(frame) =>
          done := exited.None? && waiting.None?;
          if done {
            Serve(frame);
          }
        case Complete(id) =>
          done := id in active;
          if done {
            Finish(id);
          }
        case Answer(id, body) =>
          done := id in finishing;
          if done {
            ReplyTo(id, body);
          }
        case EndShutdown =>
          done := waiting.Some?;
          if done {
            FinishShutdown();
          }
      }
    }
  }

  predicate CanHappen(p: Provider, s: Server, e: Event) {
    WellDecoded(e) && Apply(p, s, e).Some?
  }

  /** What happens of a schedule: the events that can, each in its turn. */
  function Performed(p: Provider, s: Server, schedule: seq<Event>): seq<Event>
    decreases |schedule|
  {
    if schedule == [] then []
    else if CanHappen(p, s, schedule[0])
    then [schedule[0]] + Performed(p, Apply(p, s, schedule[0]).value, schedule[1..])
    else Performed(p, s, schedule[1..])
  }

  lemma ExtendRun(p: Provider, states: seq<Server>, events: seq<Event>, e: Event, t: Server)
    requires IsRun(p, states, events) && WellDecoded(e) && Apply(p, states[|events|], e) == Some(t)
    ensures IsRun(p, states + [t], events + [e])
  {
    hide Apply, WellDecoded;
  }

  /** The server object under any schedule of frames, completions, replies and ends of waiting: what
      it does is a run of the state machine, so the theorems about runs are about it. */
  method Drive(p: Provider, schedule: seq<Event>)
    returns (server: ServerObject, performed: seq<Event>, ghost trace: seq<Server>)
    ensures performed == Performed(p, START, schedule)
    ensures IsRun(p, trace, performed) && server.State() == trace[|performed|]
    ensures LiveOk(server.State())
    ensures forall id :: Answered(server.outbound, id) + InFlight(server.State(), id) == Asked(performed, id)
  {
    hide Apply, IsRun, LiveOk, CanHappen, WellDecoded;
    server := new ServerObject(p);
    performed, trace := [], [START];
    StartRun(p);
    for i := 0 to |schedule|
      invariant server.provider == p && fresh(server)
      invariant |trace| == |performed| + 1 && IsRun(p, trace, performed) && server.State() == trace[|performed|]
      invariant performed + Performed(p, server.State(), schedule[i..]) == Performed(p, START, schedule)
    {
      var e := schedule[i];
      assert schedule[i..][1..] == schedule[i + 1..];
      var done := server.Perform(e);
      if done {
        HappensDecoded(p, trace[|performed|], e);
        ExtendRun(p, trace, performed, e, server.State());
        performed := performed + [e];
        trace := trace + [server.State()];
      }
    }
    RunHolds(p, trace, performed);
  }

  lemma StartRun(p: Provider)
    ensures IsRun(p, [START], [])
  {
  }

  lemma HappensDecoded(p: Provider, s: Server, e: Event)
    ensures CanHappen(p, s, e) ==> WellDecoded(e)
  {
  }

  lemma RunHolds(p: Provider, trace: seq<Server>, events: seq<Event>)
    requires |trace| == |events| + 1 && IsRun(p, trace, events)
    ensures LiveOk(trace[|events|])
    ensures forall id :: Answered(trace[|events|].outbound, id) + InFlight(trace[|events|], id) == Asked(events, id)
  {
    OneLiveEvaluation(p, trace, events, |events|);
    hide IsRun, LiveOk, Answered, InFlight, Asked;
    assert events[..|events|] == events;
    forall id ensures Answered(trace[|events|].outbound, id) + InFlight(trace[|events|], id) == Asked(events, id) {
      EveryRequestAnsweredOnce(p, trace, events, |events|, id);
    }
  }

  /** Every run of the state machine is what the object does under that schedule. */
  lemma {:induction false} EveryRunPerformed(p: Provider, states: seq<Server>, events: seq<Event>, n: nat)
    requires IsRun(p, states, events) && n <= |events|
    ensures Performed(p, states[n], events[n..]) == events[n..]
    decreases |events| - n
  {
    hide Apply, WellDecoded;
    if n < |events| {
      EveryRunPerformed(p, states, events, n + 1);
      assert events[n..][1..] == events[n + 1..];
    }
  }
}

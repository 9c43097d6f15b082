/** The hook installer as a journaled protocol over two files: the agent's configuration and the
    installer's receipt. Each file is written whole; a crash may fall between any two steps, and the
    user may edit the configuration at any time. The receipt directory is locked by one run. */
module HookInstall {
  import opened Collections
  import opened HookConfig

  datatype Agent = Codex | Claude

  const STATUS: string := "Running Opcore Verify and Project Sense"
  const LEGACY_STATUS: string := "Running Opcore Verify"

  function Installed(agent: Agent, binary: string): Owned {
    Owned(if agent.Codex? then "apply_patch|Edit|Write|Bash|mcp__.*" else "Edit|MultiEdit|Write|Bash|mcp__.*",
          Command(binary, STATUS))
  }

  function Legacy(agent: Agent, binary: string): Owned {
    Owned(if agent.Codex? then "apply_patch|Edit|Write" else "Edit|MultiEdit|Write",
          Command(binary, LEGACY_STATUS))
  }

  /** The handler runs the binary, on every tool that the older one ran on for the agent, and on shell commands and
      protocol tools besides. */
  lemma HandlersTold(agent: Agent, binary: string)
    ensures Installed(agent, binary).entry == Command(binary, "Running Opcore Verify and Project Sense")
    ensures Legacy(agent, binary).entry == Command(binary, "Running Opcore Verify")
    ensures Installed(agent, binary).matcher == Legacy(agent, binary).matcher + "|Bash|mcp__.*"
    ensures agent == Codex ==> Legacy(agent, binary).matcher == "apply_patch|Edit|Write"
    ensures agent == Claude ==> Legacy(agent, binary).matcher == "Edit|MultiEdit|Write"
  {
  }

  /** `accepted`: the schema, agent and config path match and every entry is an object. */
  datatype Receipt = Receipt(accepted: bool, existed: bool, owned: seq<Owned>)

  /** `receipt_entries` before its length check: a receipt without entries owns the legacy hook. */
  function EntriesOf(agent: Agent, r: Receipt, binary: string): seq<Owned> {
    if r.owned == [] then [Legacy(agent, binary)] else r.owned
  }

  function Journal(prior: seq<Owned>, installed: Owned): seq<Owned> {
    if installed in prior then prior else prior + [installed]
  }

  datatype Phase =
    | InstallStarted
    | InstallRead(original: Option<Config>)
    | InstallReady(original: Option<Config>, prior: seq<Owned>, existed: bool)
    | Journaled(original: Option<Config>, prior: seq<Owned>, existed: bool)
    | InstallChecked(original: Option<Config>, prior: seq<Owned>, existed: bool)
    | InstallPublished(existed: bool)
    | UninstallStarted
    | UninstallReceipt(entries: seq<Owned>, existed: bool)
    | UninstallRead(entries: seq<Owned>, existed: bool, original: Option<Config>)
    | UninstallChecked(entries: seq<Owned>, existed: bool, original: Option<Config>)
    | UninstallPublished

  datatype Process = Process(binary: string, phase: Phase)

  datatype State = State(config: Option<Config>, receipt: Option<Receipt>, running: Option<Process>)

  function Content(config: Option<Config>): Config {
    if config.Some? then config.value else EMPTY
  }

  function PlainHandlers(handlers: seq<Handler>): seq<Handler> {
    seq(|handlers|, i requires 0 <= i < |handlers| => handlers[i].(ours := false))
  }

  function PlainGroups(groups: seq<Group>): seq<Group> {
    seq(|groups|, i requires 0 <= i < |groups| => groups[i].(handlers := PlainHandlers(groups[i].handlers)))
  }

  /** The JSON itself, without the bookkeeping. */
  function Plain(config: Option<Config>): Option<Config> {
    if config.Some? && config.value.hooks.Some? && config.value.hooks.value.post.Some?
    then
      var hooks := config.value.hooks.value;
      Some(config.value.(hooks := Some(hooks.(post := Some(PlainGroups(hooks.post.value))))))
    else config
  }

  function WithInstalled(agent: Agent, binary: string, original: Option<Config>, prior: seq<Owned>): Config {
    AddHook(RemoveOwned(Content(original), prior), Installed(agent, binary))
  }

  /** `publish_uninstalled_config` */
  function Uninstalled(original: Option<Config>, entries: seq<Owned>, existed: bool): Option<Config> {
    var config := RemoveOwned(Content(original), entries);
    if original.None? || (!existed && config == EMPTY) then None else Some(config)
  }

  function Stop(s: State): State {
    s.(running := None)
  }

  function Go(s: State, phase: Phase): State
    requires s.running.Some?
  {
    s.(running := Some(s.running.value.(phase := phase)))
  }

  /** The next step of the running process; a failed check ends it. */
  function Step(agent: Agent, s: State): State
    requires s.running.Some?
  {
    var binary := s.running.value.binary;
    match s.running.value.phase
    case InstallStarted => Go(s, InstallRead(s.config))
    case InstallRead(original) =>
      if s.receipt.None? then Go(s, InstallReady(original, [], original.Some?))
      else
        var entries := EntriesOf(agent, s.receipt.value, binary);
        if !s.receipt.value.accepted || |entries| > 2 then Stop(s)
        else Go(s, InstallReady(original, entries, s.receipt.value.existed))
    case InstallReady(original, prior, existed) =>
      Go(s.(receipt := Some(Receipt(true, existed, Journal(prior, Installed(agent, binary))))),
         Journaled(original, prior, existed))
    case Journaled(original, prior, existed) =>
      if Plain(s.config) == Plain(original) then Go(s, InstallChecked(original, prior, existed)) else Stop(s)
    case InstallChecked(original, prior, existed) =>
      Go(s.(config := Some(WithInstalled(agent, binary, original, prior))), InstallPublished(existed))
    case InstallPublished(existed) =>
      Stop(s.(receipt := Some(Receipt(true, existed, [Installed(agent, binary)]))))
    case UninstallStarted =>
      if s.receipt.None? then Stop(s)
      else
        var entries := EntriesOf(agent, s.receipt.value, binary);
        if !s.receipt.value.accepted || |entries| > 2 then Stop(s)
        else Go(s, UninstallReceipt(entries, s.receipt.value.existed))
    case UninstallReceipt(entries, existed) => Go(s, UninstallRead(entries, existed, s.config))
    case UninstallRead(entries, existed, original) =>
      if Plain(s.config) == Plain(original) then Go(s, UninstallChecked(entries, existed, original)) else Stop(s)
    case UninstallChecked(entries, existed, original) =>
      Go(s.(config := Uninstalled(original, entries, existed)), UninstallPublished)
    case UninstallPublished => Stop(s.(receipt := None))
  }

  datatype Event =
    | Start(binary: string, install: bool)
    | Advance
    | Crash
    | Edit(config: Option<Config>)

  function Apply(agent: Agent, s: State, e: Event): Option<State> {
    match e
    case Start(binary, install) =>
      if s.running.Some? then None
      else Some(s.(running := Some(Process(binary, if install then InstallStarted else UninstallStarted))))
    case Advance => if s.running.Some? then Some(Step(agent, s)) else None
    case Crash => Some(Stop(s))
    case Edit(config) => Some(s.(config := config))
  }

  ghost predicate IsRun(agent: Agent, states: seq<State>, events: seq<Event>) {
    && |states| == |events| + 1 && states[0].running.None?
    && forall i :: 0 <= i < |events| ==> Apply(agent, states[i], events[i]) == Some(states[i + 1])
  }

  // Coverage: what the installer wrote and is still there, the receipt owns.

  /** Every occurrence that the installer wrote is owned by these entries. */
  ghost predicate CoveredBy(config: Option<Config>, entries: seq<Owned>) {
    forall p :: p in Flatten(Content(config)) && p.handler.ours ==> OwnedBy(p, entries)
  }

  /** What the receipt on disk owns. One without entries was left by an older installer, whose
      binary was `origin`. */
  function Owns(agent: Agent, receipt: Option<Receipt>, origin: string): seq<Owned> {
    if receipt.None? then [] else EntriesOf(agent, receipt.value, origin)
  }

  ghost predicate Covered(agent: Agent, s: State, origin: string) {
    CoveredBy(s.config, Owns(agent, s.receipt, origin))
  }

  /** The run does not meet a receipt without entries under another binary while a handler that the
      receipt stands for is left. */
  ghost predicate LegacyOk(s: State, binary: string, origin: string) {
    s.receipt.Some? && s.receipt.value.owned == [] ==> binary == origin || CoveredBy(s.config, [])
  }

  /** Edits write no handler on the installer's behalf. */
  ghost predicate Admissible(s: State, e: Event, origin: string) {
    match e
    case Start(binary, _) => LegacyOk(s, binary, origin)
    case Edit(config) =>
      forall p :: p in Flatten(Content(config)) && p.handler.ours ==> p in Flatten(Content(s.config))
    case _ => true
  }

  /** What a running process relies on. */
  ghost predicate PhaseOk(agent: Agent, s: State, origin: string) {
    s.running.Some? ==>
      var binary := s.running.value.binary;
      var owns := Owns(agent, s.receipt, origin);
      var mine := Owns(agent, s.receipt, binary);
      match s.running.value.phase
      case InstallStarted | UninstallStarted => CoveredBy(s.config, mine)
      case InstallRead(original) => CoveredBy(original, mine) && CoveredBy(s.config, mine)
      case InstallReady(original, prior, _) => CoveredBy(original, prior) && CoveredBy(s.config, prior)
      case Journaled(original, prior, _) =>
        owns == Journal(prior, Installed(agent, binary)) && CoveredBy(original, prior)
      case InstallChecked(original, prior, _) =>
        owns == Journal(prior, Installed(agent, binary)) && CoveredBy(original, prior)
      case InstallPublished(_) => CoveredBy(s.config, [Installed(agent, binary)])
      case UninstallReceipt(entries, _) => CoveredBy(s.config, entries)
      case UninstallRead(entries, _, original) => CoveredBy(original, entries)
      case UninstallChecked(entries, _, original) => CoveredBy(original, entries)
      case UninstallPublished => CoveredBy(s.config, [])
  }

  /** At the start of an admissible run, what it takes for its own covers what was written. */
  lemma StartCovers(agent: Agent, s: State, binary: string, origin: string)
    requires Covered(agent, s, origin) && LegacyOk(s, binary, origin)
    ensures CoveredBy(s.config, Owns(agent, s.receipt, binary))
  {
    hide CoveredBy;
    if CoveredBy(s.config, []) {
      CoveredMore(s.config, [], Owns(agent, s.receipt, binary));
    }
  }

  lemma RemovalUncovers(config: Option<Config>, entries: seq<Owned>)
    requires CoveredBy(config, entries)
    ensures CoveredBy(Some(RemoveOwned(Content(config), entries)), [])
  {
    hide OwnedBy, RemoveOwned, Flatten;
    RemovalFilters(Content(config), entries);
    forall p | p in Flatten(RemoveOwned(Content(config), entries)) ensures !p.handler.ours {
      UnownedExact(Flatten(Content(config)), entries, p);
    }
  }

  lemma AddCovers(c: Config, o: Owned, entries: seq<Owned>)
    requires CoveredBy(Some(c), []) && o in entries
    ensures CoveredBy(Some(AddHook(c, o)), entries)
  {
    hide AddHook, Flatten;
    var k := AddInserts(c, o);
    var j :| 0 <= j < |entries| && entries[j] == o;
    assert Matches(OursAt(o), entries[j]);
    forall p | p in Flatten(AddHook(c, o)) && p.handler.ours ensures OwnedBy(p, entries) {
      assert p in Flatten(c) || p == OursAt(o);
    }
  }

  lemma PublishCovers(agent: Agent, binary: string, original: Option<Config>, prior: seq<Owned>, entries: seq<Owned>)
    requires CoveredBy(original, prior) && Installed(agent, binary) in entries
    ensures CoveredBy(Some(WithInstalled(agent, binary, original, prior)), entries)
  {
    hide CoveredBy, Installed, RemoveOwned, AddHook;
    RemovalUncovers(original, prior);
    AddCovers(RemoveOwned(Content(original), prior), Installed(agent, binary), entries);
  }

  lemma CoveredMore(config: Option<Config>, a: seq<Owned>, b: seq<Owned>)
    requires CoveredBy(config, a) && forall o :: o in a ==> o in b
    ensures CoveredBy(config, b)
  {
    forall p | p in Flatten(Content(config)) && p.handler.ours ensures OwnedBy(p, b) {
      assert OwnedBy(p, a);
      var i :| 0 <= i < |a| && Matches(p, a[i]);
      assert a[i] in b;
      var j :| 0 <= j < |b| && b[j] == a[i];
      assert Matches(p, b[j]);
    }
  }

  lemma NothingCovered(entries: seq<Owned>)
    ensures CoveredBy(None, entries)
  {
  }

  lemma StepCovers(agent: Agent, s: State, origin: string)
    requires s.running.Some? && Covered(agent, s, origin) && PhaseOk(agent, s, origin)
    ensures Covered(agent, Step(agent, s), origin) && PhaseOk(agent, Step(agent, s), origin)
  {
    hide CoveredBy, RemoveOwned, AddHook, Plain, Installed, Legacy, Covered, PhaseOk, Step;
    var phase := s.running.value.phase;
    if phase.InstallStarted? || phase.InstallRead? || phase.InstallReady? {
      EarlyStepCovers(agent, s, origin);
    } else if phase.Journaled? || phase.InstallChecked? || phase.InstallPublished? {
      LateStepCovers(agent, s, origin);
    } else {
      UninstallStepCovers(agent, s, origin);
    }
  }

  lemma EarlyStepCovers(agent: Agent, s: State, origin: string)
    requires s.running.Some? && Covered(agent, s, origin) && PhaseOk(agent, s, origin)
    requires var phase := s.running.value.phase; phase.InstallStarted? || phase.InstallRead? || phase.InstallReady?
    ensures Covered(agent, Step(agent, s), origin) && PhaseOk(agent, Step(agent, s), origin)
  {
    hide CoveredBy, RemoveOwned, AddHook, Plain, Installed, Legacy;
    var phase := s.running.value.phase;
    if phase.InstallReady? {
      CoveredMore(s.config, phase.prior, Journal(phase.prior, Installed(agent, s.running.value.binary)));
    }
  }

  lemma LateStepCovers(agent: Agent, s: State, origin: string)
    requires s.running.Some? && Covered(agent, s, origin) && PhaseOk(agent, s, origin)
    requires var phase := s.running.value.phase; phase.Journaled? || phase.InstallChecked? || phase.InstallPublished?
    ensures Covered(agent, Step(agent, s), origin) && PhaseOk(agent, Step(agent, s), origin)
  {
    hide CoveredBy, RemoveOwned, AddHook, Plain, Installed, Legacy;
    var binary, phase := s.running.value.binary, s.running.value.phase;
    var installed := Installed(agent, binary);
    if phase.InstallChecked? {
      PublishCovers(agent, binary, phase.original, phase.prior, [installed]);
      CoveredMore(Some(WithInstalled(agent, binary, phase.original, phase.prior)), [installed],
                  Journal(phase.prior, installed));
    }
  }

  lemma UninstallStepCovers(agent: Agent, s: State, origin: string)
    requires s.running.Some? && Covered(agent, s, origin) && PhaseOk(agent, s, origin)
    requires var phase := s.running.value.phase;
             || phase.UninstallStarted? || phase.UninstallReceipt? || phase.UninstallRead?
             || phase.UninstallChecked? || phase.UninstallPublished?
    ensures Covered(agent, Step(agent, s), origin) && PhaseOk(agent, Step(agent, s), origin)
  {
    hide CoveredBy, RemoveOwned, AddHook, Plain, Installed, Legacy;
    var phase := s.running.value.phase;
    if phase.UninstallChecked? {
      RemovalUncovers(phase.original, phase.entries);
      NothingCovered([]);
      CoveredMore(Step(agent, s).config, [], Owns(agent, s.receipt, origin));
    }
  }

  lemma EditCovers(before: Option<Config>, after: Option<Config>, entries: seq<Owned>)
    requires CoveredBy(before, entries)
    requires forall p :: p in Flatten(Content(after)) && p.handler.ours ==> p in Flatten(Content(before))
    ensures CoveredBy(after, entries)
  {
  }

  lemma EventCovers(agent: Agent, s: State, e: Event, t: State, origin: string)
    requires Apply(agent, s, e) == Some(t) && Admissible(s, e, origin)
    requires Covered(agent, s, origin) && PhaseOk(agent, s, origin)
    ensures Covered(agent, t, origin) && PhaseOk(agent, t, origin)
  {
    hide CoveredBy, Step, Flatten;
    match e {
      case Advance => StepCovers(agent, s, origin);
      case Start(binary, _) => StartCovers(agent, s, binary, origin);
      case Edit(config) =>
        forall entries | CoveredBy(s.config, entries) ensures CoveredBy(config, entries) {
          EditCovers(s.config, config, entries);
        }
      case _ =>
    }
  }

  /** In every history of installs, uninstalls, crashes and edits, each handler that the installer
      wrote and that is still in the file is owned by the receipt on disk. */
  lemma {:induction false} RunCovers(agent: Agent, states: seq<State>, events: seq<Event>, n: nat, origin: string)
    requires IsRun(agent, states, events) && n <= |events|
    requires Covered(agent, states[0], origin)
    requires forall i :: 0 <= i < n ==> Admissible(states[i], events[i], origin)
    ensures Covered(agent, states[n], origin) && PhaseOk(agent, states[n], origin)
  {
    hide Covered, PhaseOk, Admissible, Apply;
    if n > 0 {
      RunCovers(agent, states, events, n - 1, origin);
      EventCovers(agent, states[n - 1], events[n - 1], states[n], origin);
    } else {
      IdleOk(agent, states[0], origin);
    }
  }

  lemma IdleOk(agent: Agent, s: State, origin: string)
    requires s.running.None?
    ensures PhaseOk(agent, s, origin)
  {
  }

  // Journals and retries.

  /** A journal of an accepted receipt stays within two entries exactly when there was at most one
      or the handler was already owned. */
  lemma JournalBound(prior: seq<Owned>, installed: Owned)
    requires |prior| <= 2
    ensures |Journal(prior, installed)| <= 2 <==> |prior| <= 1 || installed in prior
    ensures installed in Journal(prior, installed)
    ensures forall o :: o in prior ==> o in Journal(prior, installed)
  {
  }

  predicate Small(entries: seq<Owned>, installed: Owned) {
    |entries| <= 1 || (|entries| <= 2 && installed in entries)
  }

  /** Copies in the file are owned by the entries, or there are none. */
  predicate CopiesOk(config: Option<Config>, entries: seq<Owned>, installed: Owned) {
    installed in entries || Copies(Flatten(Content(config)), installed) == 0
  }

  /** Every run uses this binary, and edits add no copy of its handler. */
  predicate SameBinary(agent: Agent, s: State, e: Event, binary: string) {
    match e
    case Start(b, _) => b == binary
    case Edit(config) =>
      Copies(Flatten(Content(config)), Installed(agent, binary))
      <= Copies(Flatten(Content(s.config)), Installed(agent, binary))
    case _ => true
  }

  predicate RetryOk(agent: Agent, s: State, binary: string) {
    var installed := Installed(agent, binary);
    var owns := Owns(agent, s.receipt, binary);
    && Small(owns, installed) && CopiesOk(s.config, owns, installed)
    && (s.running.Some? ==> s.running.value.binary == binary && RetryPhase(s, owns, installed))
  }

  predicate RetryPhase(s: State, owns: seq<Owned>, installed: Owned)
    requires s.running.Some?
  {
    match s.running.value.phase
    case InstallStarted | UninstallStarted => true
    case InstallRead(original) => CopiesOk(original, owns, installed)
    case InstallReady(original, prior, _) => prior == owns && CopiesOk(original, prior, installed)
    case Journaled(original, prior, _) => installed in owns && CopiesOk(original, prior, installed)
    case InstallChecked(original, prior, _) => installed in owns && CopiesOk(original, prior, installed)
    case InstallPublished(_) => installed in owns
    case UninstallReceipt(entries, _) => entries == owns
    case UninstallRead(entries, _, original) => entries == owns && CopiesOk(original, entries, installed)
    case UninstallChecked(entries, _, original) => entries == owns && CopiesOk(original, entries, installed)
    case UninstallPublished => Copies(Flatten(Content(s.config)), installed) == 0
  }

  lemma UninstalledCopies(original: Option<Config>, entries: seq<Owned>, existed: bool, installed: Owned)
    requires CopiesOk(original, entries, installed)
    ensures Copies(Flatten(Content(Uninstalled(original, entries, existed))), installed) == 0
  {
    hide Flatten, RemoveOwned;
    RemovalFilters(Content(original), entries);
    CopiesUnowned(Flatten(Content(original)), entries, installed);
    NoCopiesInEmpty(installed);
  }

  lemma NoCopiesInEmpty(installed: Owned)
    ensures Copies(Flatten(EMPTY), installed) == 0
  {
  }

  lemma StepRetries(agent: Agent, s: State, binary: string)
    requires s.running.Some? && RetryOk(agent, s, binary)
    ensures RetryOk(agent, Step(agent, s), binary)
  {
    hide Copies, Flatten, RemoveOwned, AddHook, Plain, Installed, Legacy;
    var phase := s.running.value.phase;
    if phase.UninstallStarted? || phase.UninstallReceipt? || phase.UninstallRead? || phase.UninstallChecked?
       || phase.UninstallPublished?
    {
      UninstallStepRetries(agent, s, binary);
    } else if phase.InstallStarted? || phase.InstallRead? || phase.InstallReady? {
      EarlyStepRetries(agent, s, binary);
    }
  }

  lemma EarlyStepRetries(agent: Agent, s: State, binary: string)
    requires s.running.Some? && RetryOk(agent, s, binary)
    requires var phase := s.running.value.phase; phase.InstallStarted? || phase.InstallRead? || phase.InstallReady?
    ensures RetryOk(agent, Step(agent, s), binary)
  {
    hide Copies, Flatten, RemoveOwned, AddHook, Plain, Installed, Legacy;
  }

  lemma UninstallStepRetries(agent: Agent, s: State, binary: string)
    requires s.running.Some? && RetryOk(agent, s, binary)
    requires var phase := s.running.value.phase;
             || phase.UninstallStarted? || phase.UninstallReceipt? || phase.UninstallRead?
             || phase.UninstallChecked? || phase.UninstallPublished?
    ensures RetryOk(agent, Step(agent, s), binary)
  {
    hide Copies, Flatten, RemoveOwned, AddHook, Plain, Installed, Legacy;
    var phase := s.running.value.phase;
    if phase.UninstallChecked? {
      UninstalledCopies(phase.original, phase.entries, phase.existed, Installed(agent, binary));
    }
  }

  lemma EventRetries(agent: Agent, s: State, e: Event, t: State, binary: string)
    requires Apply(agent, s, e) == Some(t) && SameBinary(agent, s, e, binary) && RetryOk(agent, s, binary)
    ensures RetryOk(agent, t, binary)
  {
    hide Copies, Flatten, Step, Installed, Small;
    match e {
      case Advance => StepRetries(agent, s, binary);
      case _ =>
    }
  }

  /** Retrying with one binary from a receipt of at most one entry, through any crashes: the receipt
      never has more than two entries, and whenever an install publishes the file it holds exactly
      one copy of the handler. */
  lemma {:induction false} RetriesConverge(agent: Agent, states: seq<State>, events: seq<Event>, n: nat, binary: string)
    requires IsRun(agent, states, events) && n <= |events|
    requires |Owns(agent, states[0].receipt, binary)| <= 1
    requires CopiesOk(states[0].config, Owns(agent, states[0].receipt, binary), Installed(agent, binary))
    requires forall i :: 0 <= i < n ==> SameBinary(agent, states[i], events[i], binary)
    ensures RetryOk(agent, states[n], binary)
    ensures states[n].receipt.Some? ==> |states[n].receipt.value.owned| <= 2
    ensures n > 0 && Publishes(states[n - 1], events[n - 1]) ==>
              Copies(Flatten(Content(states[n].config)), Installed(agent, binary)) == 1
  {
    hide Apply, SameBinary, Installed, Copies, Flatten, Legacy, RetryPhase;
    if n > 0 {
      RetriesConverge(agent, states, events, n - 1, binary);
      EventRetries(agent, states[n - 1], events[n - 1], states[n], binary);
      if Publishes(states[n - 1], events[n - 1]) {
        PublishedOnce(agent, states[n - 1], states[n], binary);
      }
    }
  }

  predicate Publishes(s: State, e: Event) {
    e == Advance && s.running.Some? && s.running.value.phase.InstallChecked?
  }

  lemma PublishedOnce(agent: Agent, s: State, t: State, binary: string)
    requires Publishes(s, Advance) && Apply(agent, s, Advance) == Some(t) && RetryOk(agent, s, binary)
    ensures Copies(Flatten(Content(t.config)), Installed(agent, binary)) == 1
  {
    hide Copies, Flatten, RemoveOwned, AddHook, Installed;
    var phase := s.running.value.phase;
    EditCopies(Content(phase.original), phase.prior, Installed(agent, binary));
  }

  // A receipt with three entries is refused for ever.

  predicate Wedged(s: State) {
    && s.receipt.Some? && |s.receipt.value.owned| > 2
    && (s.running.Some? ==>
          var phase := s.running.value.phase;
          phase.InstallStarted? || phase.InstallRead? || phase.UninstallStarted?)
  }

  /** From a receipt of three entries no install or uninstall ever changes either file. */
  lemma {:induction false} WedgedForever(agent: Agent, states: seq<State>, events: seq<Event>, n: nat)
    requires IsRun(agent, states, events) && n <= |events| && Wedged(states[0])
    ensures Wedged(states[n]) && states[n].receipt == states[0].receipt
    ensures n > 0 && !events[n - 1].Edit? ==> states[n].config == states[n - 1].config
  {
    if n > 0 {
      WedgedForever(agent, states, events, n - 1);
      var s, t := states[n - 1], states[n];
      assert Apply(agent, s, events[n - 1]) == Some(t);
    }
  }

  function StartInstall(s: State, binary: string): State
    requires s.running.None?
  {
    s.(running := Some(Process(binary, InstallStarted)))
  }

  /** An install that crashes just after its journal. */
  function Interrupted(agent: Agent, s: State, binary: string): State
    requires s.running.None?
  {
    var s1 := Step(agent, StartInstall(s, binary));
    var s2 := Step(agent, s1);
    if s2.running.None? then s2 else Stop(Step(agent, s2))
  }

  lemma InterruptedJournals(agent: Agent, s: State, binary: string)
    requires s.running.None? && s.receipt.Some? && s.receipt.value.accepted && 1 <= |s.receipt.value.owned| <= 2
    ensures Interrupted(agent, s, binary)
         == s.(receipt := Some(s.receipt.value.(owned := Journal(s.receipt.value.owned, Installed(agent, binary)))))
  {
  }

  /** The steps of an install that crashes just after its journal. */
  function Interruption(binary: string): seq<Event> {
    [Start(binary, true), Advance, Advance, Advance, Crash]
  }

  lemma InterruptedRun(agent: Agent, s: State, binary: string) returns (states: seq<State>)
    requires s.running.None? && s.receipt.Some? && s.receipt.value.accepted && 1 <= |s.receipt.value.owned| <= 2
    ensures IsRun(agent, states, Interruption(binary)) && states[0] == s && states[5] == Interrupted(agent, s, binary)
  {
    var s1 := StartInstall(s, binary);
    InterruptedPhases(agent, s, binary);
    hide Step, IsRun;
    var s2 := Step(agent, s1);
    var s3 := Step(agent, s2);
    var s4 := Step(agent, s3);
    NoEvents(agent, s);
    OneMore(agent, [s], [], Start(binary, true), s1);
    OneMore(agent, [s, s1], [Start(binary, true)], Advance, s2);
    OneMore(agent, [s, s1, s2], [Start(binary, true), Advance], Advance, s3);
    OneMore(agent, [s, s1, s2, s3], [Start(binary, true), Advance, Advance], Advance, s4);
    states := [s, s1, s2, s3, s4];
    assert IsRun(agent, states, [Start(binary, true), Advance, Advance, Advance]);
    OneMore(agent, states, [Start(binary, true), Advance, Advance, Advance], Crash, Stop(s4));
    states := states + [Stop(s4)];
  }

  lemma NoEvents(agent: Agent, s: State)
    requires s.running.None?
    ensures IsRun(agent, [s], [])
  {
  }

  lemma OneMore(agent: Agent, states: seq<State>, events: seq<Event>, e: Event, t: State)
    requires |states| == |events| + 1 && IsRun(agent, states, events) && Apply(agent, states[|events|], e) == Some(t)
    ensures IsRun(agent, states + [t], events + [e])
  {
    hide Apply;
  }

  lemma InterruptedPhases(agent: Agent, s: State, binary: string)
    requires s.running.None? && s.receipt.Some? && s.receipt.value.accepted && 1 <= |s.receipt.value.owned| <= 2
    ensures var s2 := Step(agent, StartInstall(s, binary));
            s2.running.Some? && Step(agent, s2).running.Some?
  {
  }

  lemma RunsJoin(agent: Agent, a: seq<State>, es: seq<Event>, b: seq<State>, fs: seq<Event>)
    requires IsRun(agent, a, es) && IsRun(agent, b, fs) && a[|es|] == b[0]
    ensures IsRun(agent, a + b[1..], es + fs)
  {
    hide Apply;
    var states, events := a + b[1..], es + fs;
    forall i | 0 <= i < |events| ensures Apply(agent, states[i], events[i]) == Some(states[i + 1]) {
      if i >= |es| {
        assert states[i] == b[i - |es|] && states[i + 1] == b[i + 1 - |es|];
        assert Apply(agent, b[i - |es|], fs[i - |es|]) == Some(b[i - |es| + 1]);
      } else {
        assert states[i] == a[i] && states[i + 1] == a[i + 1];
      }
    }
  }

  /** Two interrupted installs with two further binaries lead there: a run from the state that an
      install left. */
  lemma ThirdBinaryWedges(agent: Agent, config: Option<Config>, existed: bool, a: string, b: string, c: string)
    returns (states: seq<State>)
    requires a != b && b != c && a != c
    ensures IsRun(agent, states, Interruption(b) + Interruption(c))
    ensures states[0] == State(config, Some(Receipt(true, existed, [Installed(agent, a)])), None)
    ensures Wedged(states[10])
  {
    var s := State(config, Some(Receipt(true, existed, [Installed(agent, a)])), None);
    InterruptedJournals(agent, s, b);
    var t := Interrupted(agent, s, b);
    InterruptedJournals(agent, t, c);
    hide Interrupted, IsRun;
    assert t.receipt.value.owned == [Installed(agent, a), Installed(agent, b)];
    var first := InterruptedRun(agent, s, b);
    var second := InterruptedRun(agent, t, c);
    RunLength(agent, first, Interruption(b));
    RunLength(agent, second, Interruption(c));
    RunsJoin(agent, first, Interruption(b), second, Interruption(c));
    states := first + second[1..];
  }

  lemma RunLength(agent: Agent, states: seq<State>, events: seq<Event>)
    requires IsRun(agent, states, events)
    ensures |states| == |events| + 1
  {
  }

  // Uninterrupted runs.

  function Remaining(phase: Phase): nat {
    match phase
    case InstallStarted => 6
    case InstallRead(_) => 5
    case InstallReady(_, _, _) => 4
    case Journaled(_, _, _) => 3
    case InstallChecked(_, _, _) => 2
    case InstallPublished(_) => 1
    case UninstallStarted => 5
    case UninstallReceipt(_, _) => 4
    case UninstallRead(_, _, _) => 3
    case UninstallChecked(_, _, _) => 2
    case UninstallPublished => 1
  }

  function Complete(agent: Agent, s: State): State
    decreases if s.running.Some? then Remaining(s.running.value.phase) else 0
  {
    if s.running.None? then s else Complete(agent, Step(agent, s))
  }

  /** The running process is about to write one of the files. */
  predicate AboutToWrite(phase: Phase) {
    || phase.InstallReady? || phase.InstallChecked? || phase.InstallPublished?
    || phase.UninstallChecked? || phase.UninstallPublished?
  }

  /** The two files after each write of an undisturbed run. */
  function Writes(agent: Agent, s: State): seq<State>
    decreases if s.running.Some? then Remaining(s.running.value.phase) else 0
  {
    if s.running.None? then []
    else
      (if AboutToWrite(s.running.value.phase) then [Stop(Step(agent, s))] else []) + Writes(agent, Step(agent, s))
  }

  /** The two files, with the whole sequence of writes of one run. */
  class Files {
    var config: Option<Config>
    var receipt: Option<Receipt>
    /** The two files after each write so far. */
    ghost var written: seq<State>

    function Now(): State
      reads this
    {
      State(config, receipt, None)
    }

    method WriteReceipt(r: Option<Receipt>)
      modifies this
      ensures receipt == r && config == old(config) && written == old(written) + [Now()]
    {
      receipt := r;
      written := written + [Now()];
    }

    method WriteConfig(c: Option<Config>)
      modifies this
      ensures config == c && receipt == old(receipt) && written == old(written) + [Now()]
    {
      config := c;
      written := written + [Now()];
    }

    method Install(agent: Agent, binary: string) returns (ok: bool)
      modifies this
      ensures written == old(written) + Writes(agent, StartInstall(old(Now()), binary))
      ensures Now() == Complete(agent, StartInstall(old(Now()), binary))
      ensures ok == (old(receipt).Some? ==>
                       old(receipt).value.accepted && |old(receipt).value.owned| <= 2)
      ensures !ok ==> Now() == old(Now())
    {
      hide Step, Complete, Writes, AddHook, RemoveOwned, Installed, Journal;
      var original, prior, existed := config, [], config.Some?;
      if receipt.Some? {
        prior, existed := EntriesOf(agent, receipt.value, binary), receipt.value.existed;
        if !receipt.value.accepted || |prior| > 2 {
          InstallRefused(agent, old(Now()), binary);
          return false;
        }
      }
      var installed := Installed(agent, binary);
      WriteReceipt(Some(Receipt(true, existed, Journal(prior, installed))));
      var document := new Document(Content(original));
      document.Remove(prior);
      document.Add(installed);
      WriteConfig(Some(document.value));
      WriteReceipt(Some(Receipt(true, existed, [installed])));
      InstallCompletes(agent, old(Now()), binary);
      InstallWrites(agent, old(Now()), binary);
      ok := true;
    }

    method Uninstall(agent: Agent, binary: string) returns (ok: bool)
      modifies this
      ensures written == old(written) + Writes(agent, StartUninstall(old(Now()), binary))
      ensures Now() == Complete(agent, StartUninstall(old(Now()), binary))
      ensures ok == (old(receipt).Some? && old(receipt).value.accepted && |old(receipt).value.owned| <= 2)
      ensures !ok ==> Now() == old(Now())
    {
      if receipt.None? {
        UninstallRefused(agent, Now(), binary);
        return false;
      }
      var entries := EntriesOf(agent, receipt.value, binary);
      if !receipt.value.accepted || |entries| > 2 {
        UninstallRefused(agent, Now(), binary);
        return false;
      }
      var document := new Document(Content(config));
      document.Remove(entries);
      if config.None? || (!receipt.value.existed && document.value == EMPTY) {
        WriteConfig(None);
      } else {
        WriteConfig(Some(document.value));
      }
      WriteReceipt(None);
      UninstallCompletes(agent, old(Now()), binary);
      UninstallWrites(agent, old(Now()), binary);
      ok := true;
    }
  }

  function StartUninstall(s: State, binary: string): State
    requires s.running.None?
  {
    s.(running := Some(Process(binary, UninstallStarted)))
  }

  predicate Accepts(s: State) {
    s.receipt.Some? ==> s.receipt.value.accepted && |s.receipt.value.owned| <= 2
  }

  function WasThere(s: State): bool {
    if s.receipt.Some? then s.receipt.value.existed else s.config.Some?
  }

  lemma CompleteStep(agent: Agent, s: State)
    ensures Complete(agent, s) == if s.running.None? then s else Complete(agent, Step(agent, s))
  {
  }

  /** A receipt that is not accepted, or owns too much, stops an install before it writes. */
  lemma InstallRefused(agent: Agent, s: State, binary: string)
    requires s.running.None? && !Accepts(s)
    ensures Complete(agent, StartInstall(s, binary)) == s && Writes(agent, StartInstall(s, binary)) == []
  {
    var s1 := Step(agent, StartInstall(s, binary));
    assert Step(agent, s1) == s;
    hide Complete, Step, Writes;
    WritesStep(agent, StartInstall(s, binary));
    WritesStep(agent, s1);
    WritesStep(agent, s);
    CompleteStep(agent, StartInstall(s, binary));
    CompleteStep(agent, s1);
    CompleteStep(agent, s);
  }

  lemma UninstallRefused(agent: Agent, s: State, binary: string)
    requires s.running.None? && (s.receipt.None? || !Accepts(s))
    ensures Complete(agent, StartUninstall(s, binary)) == s && Writes(agent, StartUninstall(s, binary)) == []
  {
    var s0 := StartUninstall(s, binary);
    assert Step(agent, s0) == s;
    hide Complete, Step, Writes;
    CompleteStep(agent, s0);
    CompleteStep(agent, s);
    WritesStep(agent, s0);
    WritesStep(agent, s);
  }

  lemma WritesStep(agent: Agent, s: State)
    ensures Writes(agent, s)
         == if s.running.None? then []
            else (if AboutToWrite(s.running.value.phase) then [Stop(Step(agent, s))] else []) + Writes(agent, Step(agent, s))
  {
  }

  /** An undisturbed install writes the journal first, which owns both what was there and what it is about to write,
      then the configuration, then the final receipt. */
  lemma InstallWrites(agent: Agent, s: State, binary: string)
    requires s.running.None? && Accepts(s)
    ensures var prior, installed := Owns(agent, s.receipt, binary), Installed(agent, binary);
            var journal := Some(Receipt(true, WasThere(s), Journal(prior, installed)));
            var config := Some(WithInstalled(agent, binary, s.config, prior));
            Writes(agent, StartInstall(s, binary))
            == [State(s.config, journal, None), State(config, journal, None),
                State(config, Some(Receipt(true, WasThere(s), [installed])), None)]
  {
    hide WithInstalled, Installed, Plain, Journal;
    var prior := Owns(agent, s.receipt, binary);
    var s1 := Step(agent, StartInstall(s, binary));
    var s2 := Step(agent, s1);
    assert s2 == Go(s1, InstallReady(s.config, prior, WasThere(s)));
    var s3 := Step(agent, s2);
    var s4 := Step(agent, s3);
    assert s4 == Go(s3, InstallChecked(s.config, prior, WasThere(s)));
    var s5 := Step(agent, s4);
    var s6 := Step(agent, s5);
    hide Writes, Step;
    WritesStep(agent, StartInstall(s, binary));
    WritesStep(agent, s1);
    WritesStep(agent, s2);
    WritesStep(agent, s3);
    WritesStep(agent, s4);
    WritesStep(agent, s5);
    WritesStep(agent, s6);
  }

  /** An undisturbed uninstall writes the configuration, and removes the receipt last. */
  lemma UninstallWrites(agent: Agent, s: State, binary: string)
    requires s.running.None? && Accepts(s) && s.receipt.Some?
    ensures var config := Uninstalled(s.config, Owns(agent, s.receipt, binary), s.receipt.value.existed);
            Writes(agent, StartUninstall(s, binary)) == [State(config, s.receipt, None), State(config, None, None)]
  {
    hide Uninstalled, Plain, Legacy;
    var s0 := StartUninstall(s, binary);
    var entries := Owns(agent, s.receipt, binary);
    var s1 := Step(agent, s0);
    assert s1 == Go(s0, UninstallReceipt(entries, s.receipt.value.existed));
    var s2 := Step(agent, s1);
    var s3 := Step(agent, s2);
    assert s3 == Go(s0, UninstallChecked(entries, s.receipt.value.existed, s.config));
    var s4 := Step(agent, s3);
    var s5 := Step(agent, s4);
    hide Writes, Step;
    WritesStep(agent, s0);
    WritesStep(agent, s1);
    WritesStep(agent, s2);
    WritesStep(agent, s3);
    WritesStep(agent, s4);
    WritesStep(agent, s5);
  }

  lemma InstallCompletes(agent: Agent, s: State, binary: string)
    requires s.running.None? && Accepts(s)
    ensures Complete(agent, StartInstall(s, binary))
         == State(Some(WithInstalled(agent, binary, s.config, Owns(agent, s.receipt, binary))),
                  Some(Receipt(true, WasThere(s), [Installed(agent, binary)])), None)
  {
    hide WithInstalled, Installed, Plain, Journal;
    var prior := Owns(agent, s.receipt, binary);
    var s1 := Step(agent, StartInstall(s, binary));
    var s2 := Step(agent, s1);
    assert s2 == Go(s1, InstallReady(s.config, prior, WasThere(s)));
    var s3 := Step(agent, s2);
    var s4 := Step(agent, s3);
    assert s4 == Go(s3, InstallChecked(s.config, prior, WasThere(s)));
    var s5 := Step(agent, s4);
    var s6 := Step(agent, s5);
    hide Complete, Step;
    CompleteStep(agent, StartInstall(s, binary));
    CompleteStep(agent, s1);
    CompleteStep(agent, s2);
    CompleteStep(agent, s3);
    CompleteStep(agent, s4);
    CompleteStep(agent, s5);
    CompleteStep(agent, s6);
  }

  lemma UninstallCompletes(agent: Agent, s: State, binary: string)
    requires s.running.None? && Accepts(s) && s.receipt.Some?
    ensures Complete(agent, StartUninstall(s, binary))
         == State(Uninstalled(s.config, Owns(agent, s.receipt, binary), s.receipt.value.existed), None, None)
  {
    hide Uninstalled, Plain, Legacy;
    var s0 := StartUninstall(s, binary);
    var entries := Owns(agent, s.receipt, binary);
    var s1 := Step(agent, s0);
    assert s1 == Go(s0, UninstallReceipt(entries, s.receipt.value.existed));
    var s2 := Step(agent, s1);
    var s3 := Step(agent, s2);
    assert s3 == Go(s0, UninstallChecked(entries, s.receipt.value.existed, s.config));
    var s4 := Step(agent, s3);
    var s5 := Step(agent, s4);
    hide Complete, Step;
    CompleteStep(agent, s0);
    CompleteStep(agent, s1);
    CompleteStep(agent, s2);
    CompleteStep(agent, s3);
    CompleteStep(agent, s4);
    CompleteStep(agent, s5);
  }

  /** Install then uninstall, from a state without receipt, gives the configuration back exactly
      when there was none or it was clean. */
  lemma UninstallRestores(agent: Agent, config: Option<Config>, binary: string)
    ensures var s := State(config, None, None);
            var installed := Complete(agent, StartInstall(s, binary));
            installed.running.None?
            && var back := Complete(agent, StartUninstall(installed, binary));
            && back.receipt.None?
            && (back.config == config <==> config.None? || Clean(config.value, Installed(agent, binary)))
  {
    hide Complete, Clean, RemoveOwned, AddHook, Installed;
    var s, o := State(config, None, None), Installed(agent, binary);
    InstallCompletes(agent, s, binary);
    var t := Complete(agent, StartInstall(s, binary));
    UninstallCompletes(agent, t, binary);
    if config.None? {
      EmptyRestored(o);
    } else {
      RestoredAfterPruning(config.value, o);
    }
  }

  lemma EmptyRestored(o: Owned)
    ensures RemoveOwned(AddHook(RemoveOwned(EMPTY, []), o), [o]) == EMPTY
  {
    AddRemoveRestores(EMPTY, o);
  }

  /** Without owned entries only empty groups go. */
  lemma {:induction false} PruneKeepsOrShortens(groups: seq<Group>)
    ensures |KeepGroups(groups, [])| <= |groups|
    ensures |KeepGroups(groups, [])| == |groups| ==> KeepGroups(groups, []) == groups
  {
    hide OwnedBy, Droppable, KeepHandlers;
    if groups != [] {
      var g := groups[0];
      PruneKeepsOrShortens(groups[1..]);
      NobodyOwns(g);
      assert groups == [g] + groups[1..];
    }
  }

  lemma NobodyOwns(g: Group)
    ensures KeepHandlers(g.matcher, g.handlers, []) == g.handlers
  {
    KeepHandlersShrinks(g.matcher, g.handlers, []);
  }

  lemma CleanPrunes(groups: seq<Group>, o: Owned)
    requires CleanGroups(groups, [o])
    ensures KeepGroups(groups, []) == groups
  {
    KeepGroupsShrinks(groups, []);
  }

  /** An install also prunes what was empty before; that does not change when the file comes back. */
  lemma RestoredAfterPruning(c: Config, o: Owned)
    ensures RemoveOwned(AddHook(RemoveOwned(c, []), o), [o]) == c <==> Clean(c, o)
  {
    hide KeepGroups, CleanGroups, AddToGroups;
    var d := RemoveOwned(c, []);
    AddRemoveRestores(d, o);
    if c.hooks.Some? && c.hooks.value.post.Some? && d != c {
      var groups := c.hooks.value.post.value;
      if CleanGroups(groups, [o]) {
        CleanPrunes(groups, o);
      }
      PruneKeepsOrShortens(groups);
      RemoveAdded(d, o);
      KeepGroupsShrinks(KeepGroups(groups, []), [o]);
    }
  }

  /** Where coverage ends: an older receipt, without entries, taken over by an install. If `origin`
      wrote the handler that it stands for, the handler stays covered exactly when the binary is the
      same or the handler is gone. */
  lemma LegacyTakeover(agent: Agent, config: Option<Config>, existed: bool, origin: string, binary: string)
    requires CoveredBy(config, [Legacy(agent, origin)])
    ensures var s := State(config, Some(Receipt(true, existed, [])), None);
            Covered(agent, Complete(agent, StartInstall(s, binary)), origin)
            <==> binary == origin || CoveredBy(config, [])
  {
    var s := State(config, Some(Receipt(true, existed, [])), None);
    var installed := Installed(agent, binary);
    InstallCompletes(agent, s, binary);
    hide Complete, CoveredBy;
    var t := Complete(agent, StartInstall(s, binary));
    var prior := [Legacy(agent, binary)];
    assert t.config == Some(WithInstalled(agent, binary, config, prior));
    assert Owns(agent, t.receipt, origin) == [installed];
    if binary == origin {
      PublishCovers(agent, binary, config, prior, [installed]);
    } else if CoveredBy(config, []) {
      CoveredMore(config, [], prior);
      PublishCovers(agent, binary, config, prior, [installed]);
    } else {
      LegacyStays(agent, config, origin, binary);
    }
  }

  /** The same for an uninstall over such a receipt. */
  lemma LegacyUninstall(agent: Agent, config: Option<Config>, existed: bool, origin: string, binary: string)
    requires CoveredBy(config, [Legacy(agent, origin)])
    ensures var s := State(config, Some(Receipt(true, existed, [])), None);
            Covered(agent, Complete(agent, StartUninstall(s, binary)), origin)
            <==> binary == origin || CoveredBy(config, [])
  {
    var s := State(config, Some(Receipt(true, existed, [])), None);
    UninstallCompletes(agent, s, binary);
    hide Complete, CoveredBy;
    var t := Complete(agent, StartUninstall(s, binary));
    var entries := [Legacy(agent, binary)];
    assert t == State(Uninstalled(config, entries, existed), None, None);
    NothingCovered([]);
    if binary == origin {
      RemovalUncovers(config, entries);
    } else if CoveredBy(config, []) {
      CoveredMore(config, [], entries);
      RemovalUncovers(config, entries);
    } else {
      LegacyLeft(agent, config, existed, origin, binary);
    }
  }

  /** A handler that `origin` wrote survives the removal of another binary's. */
  lemma LegacySurvives(agent: Agent, config: Option<Config>, origin: string, binary: string) returns (p: Placed)
    requires CoveredBy(config, [Legacy(agent, origin)]) && !CoveredBy(config, []) && binary != origin
    ensures p.handler == Handler(Command(origin, LEGACY_STATUS), true)
    ensures p in Flatten(RemoveOwned(Content(config), [Legacy(agent, binary)]))
    ensures !OwnedBy(p, []) && !OwnedBy(p, [Installed(agent, binary)])
  {
    hide RemoveOwned, AddHook, Flatten;
    var c, entries := Content(config), [Legacy(agent, binary)];
    p :| p in Flatten(c) && p.handler.ours && !OwnedBy(p, []);
    assert OwnedBy(p, [Legacy(agent, origin)]);
    assert p.handler.entry == Command(origin, LEGACY_STATUS);
    assert !OwnedBy(p, entries) && !OwnedBy(p, [Installed(agent, binary)]);
    UnownedExact(Flatten(c), entries, p);
    RemovalFilters(c, entries);
  }

  lemma LegacyStays(agent: Agent, config: Option<Config>, origin: string, binary: string)
    requires CoveredBy(config, [Legacy(agent, origin)]) && !CoveredBy(config, []) && binary != origin
    ensures !CoveredBy(Some(WithInstalled(agent, binary, config, [Legacy(agent, binary)])), [Installed(agent, binary)])
  {
    hide RemoveOwned, AddHook, Flatten;
    var p := LegacySurvives(agent, config, origin, binary);
    var d := RemoveOwned(Content(config), [Legacy(agent, binary)]);
    var k := AddInserts(d, Installed(agent, binary));
    assert Flatten(d)[..k] + Flatten(d)[k..] == Flatten(d);
    assert p in Flatten(AddHook(d, Installed(agent, binary)));
  }

  lemma LegacyLeft(agent: Agent, config: Option<Config>, existed: bool, origin: string, binary: string)
    requires CoveredBy(config, [Legacy(agent, origin)]) && !CoveredBy(config, []) && binary != origin
    ensures !CoveredBy(Uninstalled(config, [Legacy(agent, binary)], existed), [])
  {
    var p := LegacySurvives(agent, config, origin, binary);
    var d := RemoveOwned(Content(config), [Legacy(agent, binary)]);
    hide RemoveOwned;
    assert Flatten(EMPTY) == [];
    assert d != EMPTY;
  }

  /** Such a failure: the file that an older installer wrote for one binary, and a run of another. */
  lemma LegacyHandlerLost(agent: Agent, origin: string, binary: string)
    requires binary != origin
    ensures var s := State(Some(AddHook(EMPTY, Legacy(agent, origin))), Some(Receipt(true, false, [])), None);
            && Covered(agent, s, origin)
            && !Covered(agent, Complete(agent, StartInstall(s, binary)), origin)
            && !Covered(agent, Complete(agent, StartUninstall(s, binary)), origin)
  {
    var legacy := Legacy(agent, origin);
    var config := Some(AddHook(EMPTY, legacy));
    hide Complete, AddHook;
    var k := AddInserts(EMPTY, legacy);
    assert Flatten(EMPTY) == [];
    assert Flatten(config.value) == [OursAt(legacy)];
    assert Matches(OursAt(legacy), [legacy][0]);
    assert OwnedBy(OursAt(legacy), [legacy]) && !OwnedBy(OursAt(legacy), []);
    assert OursAt(legacy) in Flatten(Content(config));
    hide Flatten, OwnedBy;
    LegacyTakeover(agent, config, false, origin, binary);
    LegacyUninstall(agent, config, false, origin, binary);
  }

  /** A configuration that an install and an uninstall do not give back: an empty list of groups. */
  lemma EmptyListNotRestored(agent: Agent, binary: string)
    ensures var config := Some(Config([], Some(Hooks([], Some([])))));
            var installed := Complete(agent, StartInstall(State(config, None, None), binary));
            installed.running.None? && Complete(agent, StartUninstall(installed, binary)).config == Some(EMPTY) != config
  {
    hide Complete, Installed;
    var config := Some(Config([], Some(Hooks([], Some([])))));
    var s, o := State(config, None, None), Installed(agent, binary);
    InstallCompletes(agent, s, binary);
    UninstallCompletes(agent, Complete(agent, StartInstall(s, binary)), binary);
    assert RemoveOwned(config.value, []) == EMPTY;
    AddRemoveRestores(EMPTY, o);
  }
}

/** Edits by the user while the hook installer runs: which ones stop it, and which one it overwrites. */
module HookEdits {
  import opened Collections
  import opened HookConfig
  import opened HookInstall

  // When two configurations are the same JSON.

  ghost predicate SameHandlers(a: seq<Handler>, b: seq<Handler>) {
    |a| == |b| && forall i :: 0 <= i < |a| ==> a[i].entry == b[i].entry
  }

  ghost predicate SameGroups(a: seq<Group>, b: seq<Group>) {
    |a| == |b| && forall i :: 0 <= i < |a| ==>
      a[i].matcher == b[i].matcher && a[i].extra == b[i].extra && SameHandlers(a[i].handlers, b[i].handlers)
  }

  ghost predicate SamePost(a: Option<seq<Group>>, b: Option<seq<Group>>) {
    if a.Some? && b.Some? then SameGroups(a.value, b.value) else a.None? && b.None?
  }

  ghost predicate SameHooks(a: Option<Hooks>, b: Option<Hooks>) {
    if a.Some? && b.Some? then a.value.otherEvents == b.value.otherEvents && SamePost(a.value.post, b.value.post)
    else a.None? && b.None?
  }

  ghost predicate SameJson(a: Option<Config>, b: Option<Config>) {
    if a.Some? && b.Some? then a.value.otherKeys == b.value.otherKeys && SameHooks(a.value.hooks, b.value.hooks)
    else a.None? && b.None?
  }

  lemma {:induction false} PlainHandlersIff(a: seq<Handler>, b: seq<Handler>)
    ensures PlainHandlers(a) == PlainHandlers(b) <==> SameHandlers(a, b)
  {
    var x, y := PlainHandlers(a), PlainHandlers(b);
    if x == y {
      forall i | 0 <= i < |a| ensures a[i].entry == b[i].entry {
        assert x[i] == y[i];
      }
    }
  }

  lemma {:induction false} PlainGroupsIff(a: seq<Group>, b: seq<Group>)
    ensures PlainGroups(a) == PlainGroups(b) <==> SameGroups(a, b)
  {
    hide PlainHandlers, SameHandlers;
    var x, y := PlainGroups(a), PlainGroups(b);
    forall i | 0 <= i < |a| && i < |b|
      ensures PlainHandlers(a[i].handlers) == PlainHandlers(b[i].handlers) <==> SameHandlers(a[i].handlers, b[i].handlers)
    {
      PlainHandlersIff(a[i].handlers, b[i].handlers);
    }
    if x == y {
      forall i | 0 <= i < |a|
        ensures a[i].matcher == b[i].matcher && a[i].extra == b[i].extra && SameHandlers(a[i].handlers, b[i].handlers)
      {
        assert x[i] == y[i];
        assert x[i].handlers == PlainHandlers(a[i].handlers) && y[i].handlers == PlainHandlers(b[i].handlers);
      }
    }
  }

  /** The installer compares the JSON, not who wrote it. */
  lemma {:induction false} PlainIff(a: Option<Config>, b: Option<Config>)
    ensures Plain(a) == Plain(b) <==> SameJson(a, b)
  {
    hide PlainGroups, SameGroups;
    if a.Some? && a.value.hooks.Some? && a.value.hooks.value.post.Some?
       && b.Some? && b.value.hooks.Some? && b.value.hooks.value.post.Some? {
      PlainGroupsIff(a.value.hooks.value.post.value, b.value.hooks.value.post.value);
    }
  }

  // A run stops at an edit, or writes what follows from what it read.

  /** The running process is about to compare the file with what it read. */
  ghost predicate Compares(s: State) {
    s.running.Some? && (s.running.value.phase.Journaled? || s.running.value.phase.UninstallRead?)
  }

  /** The running process has compared and is about to write. */
  ghost predicate IsWriting(s: State) {
    s.running.Some? && (s.running.value.phase.InstallChecked? || s.running.value.phase.UninstallChecked?)
  }

  /** What it read. */
  ghost function ReadBy(s: State): Option<Config>
    requires Compares(s) || IsWriting(s)
  {
    s.running.value.phase.original
  }

  /** A run that finds the file changed since it was read stops, and leaves the edit and the receipt in place. */
  lemma {:induction false} ChangeStops(agent: Agent, s: State)
    requires Compares(s)
    ensures Step(agent, s).config == s.config && Step(agent, s).receipt == s.receipt
    ensures if SameJson(s.config, ReadBy(s))
            then IsWriting(Step(agent, s)) && ReadBy(Step(agent, s)) == ReadBy(s)
            else Step(agent, s).running.None?
  {
    hide Plain;
    PlainIff(s.config, ReadBy(s));
  }

  /** What is written: the file that was read without the owned handlers, and for an install with the handler. */
  ghost function Written(agent: Agent, s: State): Option<Config>
    requires IsWriting(s)
  {
    var process := s.running.value;
    if process.phase.InstallChecked?
    then Some(AddHook(RemoveOwned(Content(ReadBy(s)), process.phase.prior), Installed(agent, process.binary)))
    else
      var config := RemoveOwned(Content(ReadBy(s)), process.phase.entries);
      if ReadBy(s).None? || (!process.phase.existed && config == EMPTY) then None else Some(config)
  }

  /** Nothing but an edit or such a write changes the file. */
  lemma {:induction false} OnlyWritesChange(agent: Agent, s: State, e: Event, t: State)
    requires Apply(agent, s, e) == Some(t)
    ensures t.config == (if e.Edit? then e.config else if e.Advance? && IsWriting(s) then Written(agent, s) else s.config)
  {
    hide Plain, RemoveOwned, AddHook, Installed;
  }

  ghost predicate OnlyEdits(events: seq<Event>, a: nat, n: nat)
    requires n <= |events|
  {
    forall k :: a < k < n ==> events[k].Edit?
  }

  /** Before a write comes a comparison in which the file was as read, with nothing but edits between. */
  lemma {:induction false} WriteAfterComparison(agent: Agent, states: seq<State>, events: seq<Event>, n: nat) returns (c: nat)
    requires IsRun(agent, states, events) && n <= |events| && IsWriting(states[n])
    ensures c < n && events[c] == Advance && OnlyEdits(events, c, n)
    ensures Compares(states[c]) && SameJson(states[c].config, ReadBy(states[c]))
    ensures ReadBy(states[c]) == ReadBy(states[n])
  {
    assert n > 0;
    var s, e, t := states[n - 1], events[n - 1], states[n];
    assert Apply(agent, s, e) == Some(t);
    if e.Edit? {
      c := WriteAfterComparison(agent, states, events, n - 1);
    } else {
      c := n - 1;
      WritesFromComparison(agent, s, e, t);
    }
  }

  lemma {:induction false} WritesFromComparison(agent: Agent, s: State, e: Event, t: State)
    requires Apply(agent, s, e) == Some(t) && !e.Edit? && IsWriting(t)
    ensures e == Advance && Compares(s) && SameJson(s.config, ReadBy(s)) && ReadBy(s) == ReadBy(t)
  {
    hide Plain, RemoveOwned, AddHook, Installed, SameJson, Journal;
    if Compares(s) {
      PlainIff(s.config, ReadBy(s));
    }
  }

  /** In every history, what a run overwrites is what it read, unless an edit fell between its comparison and
      its write. */
  lemma {:induction false} OverwritesWhatItRead(agent: Agent, states: seq<State>, events: seq<Event>, n: nat) returns (c: nat)
    requires IsRun(agent, states, events) && n < |events| && events[n] == Advance && IsWriting(states[n])
    ensures c < n && Compares(states[c]) && events[c] == Advance && OnlyEdits(events, c, n)
    ensures c == n - 1 ==> SameJson(states[n].config, ReadBy(states[n]))
    ensures c < n - 1 ==> events[n - 1].Edit? && states[n].config == events[n - 1].config
    ensures states[n + 1].config == Written(agent, states[n])
  {
    hide SameJson, Written, Step;
    assert Apply(agent, states[n - 1], events[n - 1]) == Some(states[n]);
    c := WriteAfterComparison(agent, states, events, n);
    assert Apply(agent, states[n], events[n]) == Some(states[n + 1]);
    OnlyWritesChange(agent, states[n], events[n], states[n + 1]);
    if c == n - 1 {
      assert Apply(agent, states[c], events[c]) == Some(states[n]);
      OnlyWritesChange(agent, states[c], events[c], states[n]);
    }
  }

  /** Such an edit is lost: an install into no file, and an edit after its comparison. */
  lemma {:induction false} LateEditLost(agent: Agent, binary: string, mine: Config) returns (states: seq<State>, events: seq<Event>)
    ensures IsRun(agent, states, events) && |events| == 7
    ensures events[5] == Edit(Some(mine)) && states[6].config == Some(mine)
    ensures states[7].config == Some(AddHook(EMPTY, Installed(agent, binary)))
  {
    hide AddHook, Installed;
    var s0 := State(None, None, None);
    var s1 := StartInstall(s0, binary);
    var s2 := Go(s1, InstallRead(None));
    var s3 := Go(s1, InstallReady(None, [], false));
    var s4 := Go(s1.(receipt := Some(Receipt(true, false, [Installed(agent, binary)]))), Journaled(None, [], false));
    var s5 := Go(s4, InstallChecked(None, [], false));
    var s6 := s5.(config := Some(mine));
    var s7 := Step(agent, s6);
    states := [s0, s1, s2, s3, s4, s5, s6, s7];
    events := [Start(binary, true), Advance, Advance, Advance, Advance, Edit(Some(mine)), Advance];
    assert [] + [Installed(agent, binary)] == [Installed(agent, binary)];
    assert Step(agent, s1) == s2 && Step(agent, s2) == s3 && Step(agent, s3) == s4 && Step(agent, s4) == s5;
    assert RemoveOwned(EMPTY, []) == EMPTY;
  }
}

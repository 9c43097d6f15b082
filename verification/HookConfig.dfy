/** Editing an agent's hook configuration: adding one handler and removing the owned ones. */
module HookConfig {
  import opened Collections

  /** A handler's JSON: the installer's own command for a binary, or anything else. */
  datatype Entry = Command(binary: string, status: string) | Foreign(json: string)

  /** A handler in the file. `ours` is bookkeeping that the JSON does not hold: it marks the
      occurrences that the installer wrote. */
  datatype Handler = Handler(entry: Entry, ours: bool)

  datatype Matcher = Missing | NotText | Text(text: string)

  /** A group has `hooks`, perhaps a `matcher`, and some number of other keys. */
  datatype Group = Group(matcher: Matcher, handlers: seq<Handler>, extra: nat)

  /** The `hooks` object: its other events, and the `PostToolUse` groups if present. */
  datatype Hooks = Hooks(otherEvents: seq<string>, post: Option<seq<Group>>)

  datatype Config = Config(otherKeys: seq<string>, hooks: Option<Hooks>)

  const EMPTY: Config := Config([], None)

  datatype Owned = Owned(matcher: string, entry: Entry)

  /** A handler together with the matcher of its group. */
  datatype Placed = Placed(matcher: Matcher, handler: Handler)

  predicate Matches(p: Placed, o: Owned) {
    p.matcher == Text(o.matcher) && p.handler.entry == o.entry
  }

  predicate OwnedBy(p: Placed, owned: seq<Owned>) {
    exists i :: 0 <= i < |owned| && Matches(p, owned[i])
  }

  // Adding.

  /** The first group with this matcher, or the number of groups. */
  function GroupIndex(groups: seq<Group>, matcher: string): (k: nat)
    ensures k <= |groups|
    ensures k < |groups| ==> groups[k].matcher == Text(matcher)
    ensures forall i :: 0 <= i < k ==> groups[i].matcher != Text(matcher)
  {
    if groups == [] then 0
    else if groups[0].matcher == Text(matcher) then 0
    else 1 + GroupIndex(groups[1..], matcher)
  }

  function AddToGroups(groups: seq<Group>, o: Owned): seq<Group> {
    var k := GroupIndex(groups, o.matcher);
    var h := Handler(o.entry, true);
    if k < |groups|
    then groups[k := groups[k].(handlers := groups[k].handlers + [h])]
    else groups + [Group(Text(o.matcher), [h], 0)]
  }

  function AddHook(c: Config, o: Owned): Config {
    var hooks := if c.hooks.Some? then c.hooks.value else Hooks([], None);
    var groups := if hooks.post.Some? then hooks.post.value else [];
    c.(hooks := Some(hooks.(post := Some(AddToGroups(groups, o)))))
  }

  // Removing.

  function KeepHandlers(matcher: Matcher, handlers: seq<Handler>, owned: seq<Owned>): seq<Handler> {
    if handlers == [] then []
    else if OwnedBy(Placed(matcher, handlers[0]), owned) then KeepHandlers(matcher, handlers[1..], owned)
    else [handlers[0]] + KeepHandlers(matcher, handlers[1..], owned)
  }

  /** An empty group with no more than two keys is dropped. */
  predicate Droppable(g: Group) {
    g.handlers == [] && 1 + (if g.matcher.Missing? then 0 else 1) + g.extra <= 2
  }

  function KeepGroups(groups: seq<Group>, owned: seq<Owned>): seq<Group> {
    if groups == [] then []
    else
      var g := groups[0].(handlers := KeepHandlers(groups[0].matcher, groups[0].handlers, owned));
      if Droppable(g) then KeepGroups(groups[1..], owned) else [g] + KeepGroups(groups[1..], owned)
  }

  function RemoveOwned(c: Config, owned: seq<Owned>): Config {
    if c.hooks.None? || c.hooks.value.post.None? then c
    else
      var groups := KeepGroups(c.hooks.value.post.value, owned);
      var hooks := c.hooks.value.(post := if groups == [] then None else Some(groups));
      c.(hooks := if hooks == Hooks([], None) then None else Some(hooks))
  }

  // What the file holds: its handlers, in order.

  function PlacedOf(matcher: Matcher, handlers: seq<Handler>): seq<Placed> {
    if handlers == [] then [] else [Placed(matcher, handlers[0])] + PlacedOf(matcher, handlers[1..])
  }

  function FlattenGroups(groups: seq<Group>): seq<Placed> {
    if groups == [] then [] else PlacedOf(groups[0].matcher, groups[0].handlers) + FlattenGroups(groups[1..])
  }

  function Flatten(c: Config): seq<Placed> {
    if c.hooks.Some? && c.hooks.value.post.Some? then FlattenGroups(c.hooks.value.post.value) else []
  }

  function Unowned(placed: seq<Placed>, owned: seq<Owned>): seq<Placed> {
    if placed == [] then []
    else if OwnedBy(placed[0], owned) then Unowned(placed[1..], owned)
    else [placed[0]] + Unowned(placed[1..], owned)
  }

  lemma {:induction false} UnownedAppend(a: seq<Placed>, b: seq<Placed>, owned: seq<Owned>)
    ensures Unowned(a + b, owned) == Unowned(a, owned) + Unowned(b, owned)
  {
    hide OwnedBy;
    if a == [] {
      assert a + b == b;
    } else {
      assert (a + b)[1..] == a[1..] + b;
      UnownedAppend(a[1..], b, owned);
    }
  }

  lemma {:induction false} KeepHandlersFilters(matcher: Matcher, handlers: seq<Handler>, owned: seq<Owned>)
    ensures PlacedOf(matcher, KeepHandlers(matcher, handlers, owned)) == Unowned(PlacedOf(matcher, handlers), owned)
  {
    hide OwnedBy;
    if handlers != [] {
      KeepHandlersFilters(matcher, handlers[1..], owned);
    }
  }

  lemma {:induction false} KeepGroupsFilters(groups: seq<Group>, owned: seq<Owned>)
    ensures FlattenGroups(KeepGroups(groups, owned)) == Unowned(FlattenGroups(groups), owned)
  {
    hide OwnedBy;
    if groups != [] {
      var g := groups[0];
      KeepHandlersFilters(g.matcher, g.handlers, owned);
      KeepGroupsFilters(groups[1..], owned);
      UnownedAppend(PlacedOf(g.matcher, g.handlers), FlattenGroups(groups[1..]), owned);
    }
  }

  /** Removal drops exactly the owned handlers, keeps all others in order, and touches nothing
      outside the `PostToolUse` groups. */
  lemma RemovalFilters(c: Config, owned: seq<Owned>)
    ensures Flatten(RemoveOwned(c, owned)) == Unowned(Flatten(c), owned)
    ensures RemoveOwned(c, owned).otherKeys == c.otherKeys
    ensures var events := (d: Config) => if d.hooks.Some? then d.hooks.value.otherEvents else [];
            events(RemoveOwned(c, owned)) == events(c)
  {
    hide Unowned;
    if c.hooks.Some? && c.hooks.value.post.Some? {
      KeepGroupsFilters(c.hooks.value.post.value, owned);
    } else {
      UnownedNone(owned);
    }
  }

  lemma UnownedNone(owned: seq<Owned>)
    ensures Unowned([], owned) == []
  {
  }

  /** An occurrence survives the filter exactly when nobody owns it. */
  lemma {:induction false} UnownedExact(placed: seq<Placed>, owned: seq<Owned>, p: Placed)
    ensures p in Unowned(placed, owned) <==> p in placed && !OwnedBy(p, owned)
  {
    hide OwnedBy;
    if placed != [] {
      UnownedExact(placed[1..], owned, p);
      assert p in placed <==> p == placed[0] || p in placed[1..];
    }
  }

  /** Groups that survive: a group is dropped exactly when nothing is left in it and it has no more keys
      than a matcher beside its handlers. */
  lemma {:induction false} GroupSurvives(groups: seq<Group>, owned: seq<Owned>, g: Group)
    ensures g in KeepGroups(groups, owned) <==>
            (g.handlers != [] || g.extra > (if g.matcher.Missing? then 1 else 0))
            && exists i :: 0 <= i < |groups| && g == Stripped(groups[i], owned)
  {
    if groups != [] {
      GroupSurvives(groups[1..], owned, g);
      assert forall i :: 0 <= i < |groups| - 1 ==> groups[1..][i] == groups[i + 1];
    }
  }

  function Stripped(g: Group, owned: seq<Owned>): Group {
    g.(handlers := KeepHandlers(g.matcher, g.handlers, owned))
  }

  // Adding inserts one occurrence.

  lemma {:induction false} PlacedAppend(matcher: Matcher, a: seq<Handler>, b: seq<Handler>)
    ensures PlacedOf(matcher, a + b) == PlacedOf(matcher, a) + PlacedOf(matcher, b)
  {
    if a == [] {
      assert a + b == b;
    } else {
      assert (a + b)[1..] == a[1..] + b;
      PlacedAppend(matcher, a[1..], b);
    }
  }

  lemma {:induction false} AddToGroupsInserts(groups: seq<Group>, o: Owned) returns (k: nat)
    ensures k <= |FlattenGroups(groups)|
    ensures FlattenGroups(AddToGroups(groups, o)) == Inserted(FlattenGroups(groups), k, OursAt(o))
  {
    var h := Handler(o.entry, true);
    assert PlacedOf(Text(o.matcher), [h]) == [OursAt(o)];
    if groups == [] {
      k := 0;
      assert FlattenGroups(AddToGroups(groups, o)) == PlacedOf(Text(o.matcher), [h]);
    } else {
      var g, rest := groups[0], FlattenGroups(groups[1..]);
      var first := PlacedOf(g.matcher, g.handlers);
      hide PlacedOf;
      if g.matcher == Text(o.matcher) {
        k := |first|;
        PlacedAppend(g.matcher, g.handlers, [h]);
        AddToHead(groups, o);
      } else {
        hide AddToGroups;
        var n := AddToGroupsInserts(groups[1..], o);
        AddToTail(groups, o);
        k := |first| + n;
        InsertedLater(first, rest, n, OursAt(o));
      }
    }
  }

  function OursAt(o: Owned): Placed {
    Placed(Text(o.matcher), Handler(o.entry, true))
  }

  function Inserted(s: seq<Placed>, k: nat, x: Placed): seq<Placed>
    requires k <= |s|
  {
    s[..k] + [x] + s[k..]
  }

  lemma InsertedLater(a: seq<Placed>, b: seq<Placed>, k: nat, x: Placed)
    requires k <= |b|
    ensures Inserted(a + b, |a| + k, x) == a + Inserted(b, k, x)
  {
  }

  lemma AddToHead(groups: seq<Group>, o: Owned)
    requires groups != [] && groups[0].matcher == Text(o.matcher)
    ensures AddToGroups(groups, o)
         == [groups[0].(handlers := groups[0].handlers + [Handler(o.entry, true)])] + groups[1..]
  {
  }

  lemma AddToTail(groups: seq<Group>, o: Owned)
    requires groups != [] && groups[0].matcher != Text(o.matcher)
    ensures AddToGroups(groups, o) == [groups[0]] + AddToGroups(groups[1..], o)
  {
  }

  /** Adding inserts one occurrence of the handler and changes no other. */
  lemma AddInserts(c: Config, o: Owned) returns (k: nat)
    ensures k <= |Flatten(c)|
    ensures Flatten(AddHook(c, o)) == Inserted(Flatten(c), k, OursAt(o))
  {
    var groups := if c.hooks.Some? && c.hooks.value.post.Some? then c.hooks.value.post.value else [];
    k := AddToGroupsInserts(groups, o);
  }

  // Copies of one handler.

  function Copies(placed: seq<Placed>, o: Owned): nat {
    if placed == [] then 0 else (if Matches(placed[0], o) then 1 else 0) + Copies(placed[1..], o)
  }

  lemma {:induction false} CopiesAppend(a: seq<Placed>, b: seq<Placed>, o: Owned)
    ensures Copies(a + b, o) == Copies(a, o) + Copies(b, o)
  {
    if a == [] {
      assert a + b == b;
    } else {
      assert (a + b)[1..] == a[1..] + b;
      CopiesAppend(a[1..], b, o);
    }
  }

  lemma {:induction false} CopiesUnowned(placed: seq<Placed>, owned: seq<Owned>, o: Owned)
    ensures Copies(Unowned(placed, owned), o) == if o in owned then 0 else Copies(placed, o)
  {
    if placed != [] {
      CopiesUnowned(placed[1..], owned, o);
      if Matches(placed[0], o) {
        MatchesOne(placed[0], owned, o);
      }
    }
  }

  lemma MatchesOne(p: Placed, owned: seq<Owned>, o: Owned)
    requires Matches(p, o)
    ensures OwnedBy(p, owned) <==> o in owned
  {
    if OwnedBy(p, owned) {
      var i :| 0 <= i < |owned| && Matches(p, owned[i]);
      assert owned[i] == o;
    }
  }

  /** One edit of a file leaves one copy exactly when the prior entries own the handler or the file
      had none. */
  lemma EditCopies(c: Config, prior: seq<Owned>, o: Owned)
    ensures Copies(Flatten(AddHook(RemoveOwned(c, prior), o)), o)
         == 1 + (if o in prior then 0 else Copies(Flatten(c), o))
  {
    var d := RemoveOwned(c, prior);
    var x := OursAt(o);
    var k := AddInserts(d, o);
    var f := Flatten(d);
    assert f[..k] + f[k..] == f;
    CopiesAppend(f[..k] + [x], f[k..], o);
    CopiesAppend(f[..k], [x], o);
    CopiesAppend(f[..k], f[k..], o);
    assert Copies([x], o) == 1;
    RemovalFilters(c, prior);
    CopiesUnowned(Flatten(c), prior, o);
  }

  // Removing what was added.

  lemma {:induction false} KeepHandlersAppend(matcher: Matcher, a: seq<Handler>, b: seq<Handler>, owned: seq<Owned>)
    ensures KeepHandlers(matcher, a + b, owned) == KeepHandlers(matcher, a, owned) + KeepHandlers(matcher, b, owned)
  {
    hide OwnedBy;
    if a == [] {
      assert a + b == b;
    } else {
      assert (a + b)[1..] == a[1..] + b;
      KeepHandlersAppend(matcher, a[1..], b, owned);
    }
  }

  lemma KeepAddedHandler(handlers: seq<Handler>, o: Owned)
    ensures KeepHandlers(Text(o.matcher), handlers + [Handler(o.entry, true)], [o])
         == KeepHandlers(Text(o.matcher), handlers, [o])
  {
    var h := Handler(o.entry, true);
    KeepHandlersAppend(Text(o.matcher), handlers, [h], [o]);
    assert Matches(Placed(Text(o.matcher), h), [o][0]);
    assert KeepHandlers(Text(o.matcher), [h], [o]) == [];
  }

  lemma {:induction false} KeepAdded(groups: seq<Group>, o: Owned)
    ensures KeepGroups(AddToGroups(groups, o), [o]) == KeepGroups(groups, [o])
  {
    hide KeepHandlers, OwnedBy;
    if groups == [] {
      KeepAddedHandler([], o);
      KeepNone(Text(o.matcher), [o]);
      assert [] + [Handler(o.entry, true)] == [Handler(o.entry, true)];
      assert AddToGroups(groups, o)[1..] == [];
    } else if groups[0].matcher == Text(o.matcher) {
      KeepAddedHandler(groups[0].handlers, o);
      assert AddToGroups(groups, o)[1..] == groups[1..];
    } else {
      KeepAdded(groups[1..], o);
      AddToTail(groups, o);
    }
  }

  lemma KeepNone(matcher: Matcher, owned: seq<Owned>)
    ensures KeepHandlers(matcher, [], owned) == []
  {
  }

  /** Removing the handler just added is removing it from the original file, unless that file has an
      empty `hooks` object, which is then dropped. */
  lemma RemoveAdded(c: Config, o: Owned)
    ensures RemoveOwned(AddHook(c, o), [o]) == RemoveOwned(c, [o]) <==> c.hooks != Some(Hooks([], None))
  {
    var groups := if c.hooks.Some? && c.hooks.value.post.Some? then c.hooks.value.post.value else [];
    KeepAdded(groups, o);
  }

  predicate CleanGroup(g: Group, owned: seq<Owned>) {
    && !Droppable(g)
    && forall j :: 0 <= j < |g.handlers| ==> !OwnedBy(Placed(g.matcher, g.handlers[j]), owned)
  }

  /** Nothing in the groups to clean up. */
  predicate CleanGroups(groups: seq<Group>, owned: seq<Owned>) {
    forall i :: 0 <= i < |groups| ==> CleanGroup(groups[i], owned)
  }

  lemma {:induction false} KeepHandlersShrinks(matcher: Matcher, handlers: seq<Handler>, owned: seq<Owned>)
    ensures |KeepHandlers(matcher, handlers, owned)| <= |handlers|
    ensures KeepHandlers(matcher, handlers, owned) == handlers <==>
            forall j :: 0 <= j < |handlers| ==> !OwnedBy(Placed(matcher, handlers[j]), owned)
  {
    hide OwnedBy;
    if handlers != [] {
      KeepHandlersShrinks(matcher, handlers[1..], owned);
      if OwnedBy(Placed(matcher, handlers[0]), owned) {
        assert |KeepHandlers(matcher, handlers, owned)| < |handlers|;
      } else {
        assert handlers == [handlers[0]] + handlers[1..];
        assert forall j :: 0 <= j < |handlers| - 1 ==> handlers[1..][j] == handlers[j + 1];
        assert KeepHandlers(matcher, handlers, owned)[1..] == KeepHandlers(matcher, handlers[1..], owned);
      }
    }
  }

  lemma StrippedClean(g: Group, owned: seq<Owned>)
    ensures Stripped(g, owned) == g && !Droppable(g) <==> CleanGroup(g, owned)
  {
    hide OwnedBy, KeepHandlers, Droppable;
    KeepHandlersShrinks(g.matcher, g.handlers, owned);
  }

  lemma {:induction false} KeepGroupsShrinks(groups: seq<Group>, owned: seq<Owned>)
    ensures |KeepGroups(groups, owned)| <= |groups|
    ensures KeepGroups(groups, owned) == groups <==> CleanGroups(groups, owned)
  {
    hide OwnedBy, KeepHandlers, Droppable, CleanGroup;
    if groups != [] {
      var g := groups[0];
      KeepGroupsShrinks(groups[1..], owned);
      StrippedClean(g, owned);
      CleanSplit(groups, owned);
      var kept := KeepGroups(groups, owned);
      if Droppable(Stripped(g, owned)) {
        assert |kept| < |groups|;
      } else {
        assert kept[1..] == KeepGroups(groups[1..], owned);
        assert groups == [g] + groups[1..];
      }
    }
  }

  lemma CleanSplit(groups: seq<Group>, owned: seq<Owned>)
    requires groups != []
    ensures CleanGroups(groups, owned) <==> CleanGroup(groups[0], owned) && CleanGroups(groups[1..], owned)
  {
    hide CleanGroup;
    assert groups == [groups[0]] + groups[1..];
  }

  /** A file on which an install and an uninstall leave no trace. */
  predicate Clean(c: Config, o: Owned) {
    match c.hooks
    case None => true
    case Some(Hooks(events, None)) => events != []
    case Some(Hooks(_, Some(groups))) => groups != [] && CleanGroups(groups, [o])
  }

  /** Adding and removing gives the file back exactly when it was clean. */
  lemma AddRemoveRestores(c: Config, o: Owned)
    ensures RemoveOwned(AddHook(c, o), [o]) == c <==> Clean(c, o)
  {
    hide KeepGroups, CleanGroups;
    RemoveAdded(c, o);
    if c.hooks.Some? && c.hooks.value.post.Some? {
      KeepGroupsShrinks(c.hooks.value.post.value, [o]);
    }
  }

  // The same edits, in place.

  class Document {
    var value: Config

    constructor (c: Config)
      ensures value == c
    {
      value := c;
    }

    /** Finds the group with a linear search, creating the missing objects on the way. */
    method Add(o: Owned)
      modifies this
      ensures value == AddHook(old(value), o)
    {
      if value.hooks.None? {
        value := value.(hooks := Some(Hooks([], None)));
      }
      var hooks := value.hooks.value;
      var groups := if hooks.post.None? then [] else hooks.post.value;
      var index := 0;
      while index < |groups| && groups[index].matcher != Text(o.matcher)
        invariant index <= GroupIndex(groups, o.matcher)
      {
        index := index + 1;
      }
      var h := Handler(o.entry, true);
      if index < |groups| {
        groups := groups[index := groups[index].(handlers := groups[index].handlers + [h])];
      } else {
        groups := groups + [Group(Text(o.matcher), [h], 0)];
      }
      value := value.(hooks := Some(hooks.(post := Some(groups))));
    }

    /** Strips every group, then drops the groups, the event and the object left empty. */
    method Remove(owned: seq<Owned>)
      modifies this
      ensures value == RemoveOwned(old(value), owned)
    {
      if value.hooks.None? || value.hooks.value.post.None? {
        return;
      }
      var hooks := value.hooks.value;
      var stripped := StripAll(hooks.post.value, owned);
      var groups := Retain(stripped);
      RetainStripped(hooks.post.value, owned);
      hooks := hooks.(post := Some(groups));
      if groups == [] {
        hooks := hooks.(post := None);
      }
      value := value.(hooks := if hooks.otherEvents == [] && hooks.post.None? then None else Some(hooks));
    }
  }

  function StrippedAll(groups: seq<Group>, owned: seq<Owned>): seq<Group> {
    if groups == [] then [] else [Stripped(groups[0], owned)] + StrippedAll(groups[1..], owned)
  }

  function Retained(groups: seq<Group>): seq<Group> {
    if groups == [] then []
    else if Droppable(groups[0]) then Retained(groups[1..])
    else [groups[0]] + Retained(groups[1..])
  }

  lemma {:induction false} RetainStripped(groups: seq<Group>, owned: seq<Owned>)
    ensures Retained(StrippedAll(groups, owned)) == KeepGroups(groups, owned)
  {
    hide KeepHandlers, Droppable;
    if groups != [] {
      RetainStripped(groups[1..], owned);
      assert StrippedAll(groups, owned)[1..] == StrippedAll(groups[1..], owned);
    }
  }

  method StripAll(groups: seq<Group>, owned: seq<Owned>) returns (r: seq<Group>)
    ensures r == StrippedAll(groups, owned)
  {
    r := [];
    var i := 0;
    while i < |groups|
      invariant i <= |groups| && r + StrippedAll(groups[i..], owned) == StrippedAll(groups, owned)
    {
      var kept := RetainHandlers(groups[i].matcher, groups[i].handlers, owned);
      r := r + [groups[i].(handlers := kept)];
      assert groups[i..][1..] == groups[i + 1..];
      i := i + 1;
    }
  }

  method RetainHandlers(matcher: Matcher, handlers: seq<Handler>, owned: seq<Owned>) returns (r: seq<Handler>)
    ensures r == KeepHandlers(matcher, handlers, owned)
  {
    hide OwnedBy;
    r := [];
    var i := 0;
    while i < |handlers|
      invariant i <= |handlers|
      invariant r + KeepHandlers(matcher, handlers[i..], owned) == KeepHandlers(matcher, handlers, owned)
    {
      assert handlers[i..][1..] == handlers[i + 1..];
      if !OwnedBy(Placed(matcher, handlers[i]), owned) {
        r := r + [handlers[i]];
      }
      i := i + 1;
    }
  }

  method Retain(groups: seq<Group>) returns (r: seq<Group>)
    ensures r == Retained(groups)
  {
    r := [];
    var i := 0;
    while i < |groups|
      invariant i <= |groups| && r + Retained(groups[i..]) == Retained(groups)
    {
      assert groups[i..][1..] == groups[i + 1..];
      if !Droppable(groups[i]) {
        r := r + [groups[i]];
      }
      i := i + 1;
    }
  }
}

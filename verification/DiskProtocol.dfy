/** The on-disk fact cache as a protocol of interleaved atomic steps over one shard: writers that
    publish without clobbering, a repair path and a quota collector under one lock, readers, and
    external corruption. */
module DiskProtocol {
  import opened Bytes
  import opened Collections
  import opened DigestFraming

  type Key = Digest
  type Pid = nat
  type Payload = seq<byte>

  /** What lies at a fact's path: nothing, something that does not validate, or a valid fact. */
  datatype Object = Absent | Invalid | Valid(payload: Payload)

  datatype Outcome = Stored | Contended | NonDeterministic | IoError

  /** Where a writer is. `seen` records whether an object was present at the locked check. */
  datatype Pc =
    | CheckExisting
    | PublishFirst
    | CheckAfterClash
    | TryLock
    | CheckLocked
    | Stat(seen: bool)
    | Unlink(seen: bool)
    | PublishRepair
    | CheckRepair
    | MaybeCollect
    | Collecting
    | Done(outcome: Outcome)

  datatype Writer = Writer(key: Key, payload: Payload, pc: Pc)

  datatype Shard = Shard(objects: map<Key, Object>, lock: Option<Pid>, writers: map<Pid, Writer>)

  datatype Event =
    | Begin(pid: Pid, key: Key, payload: Payload)
    | Advance(pid: Pid)
    | StartCollect(pid: Pid)
    | Evict(pid: Pid, key: Key)
    | EndCollect(pid: Pid)
    | Fault(pid: Pid)
    | Crash(pid: Pid)
    | Get(key: Key)
    | Corrupt(key: Key, damaged: Object)

  function At(s: Shard, k: Key): Object {
    if k in s.objects then s.objects[k] else Absent
  }

  /** `read_payload`: a fact is seen only if it validates. */
  function Read(s: Shard, k: Key): Option<Payload> {
    match At(s, k)
    case Valid(p) => Some(p)
    case _ => None
  }

  predicate NeedsLock(pc: Pc) {
    pc.CheckLocked? || pc.Stat? || pc.Unlink? || pc.PublishRepair? || pc.CheckRepair? || pc.Collecting?
  }

  function Move(s: Shard, pid: Pid, pc: Pc): Shard
    requires pid in s.writers
  {
    s.(writers := s.writers[pid := s.writers[pid].(pc := pc)])
  }

  /** Leaves the locked section. */
  function Release(s: Shard, pid: Pid, pc: Pc): Shard
    requires pid in s.writers
  {
    Move(s, pid, pc).(lock := None)
  }

  function Write(s: Shard, k: Key, o: Object): Shard {
    s.(objects := s.objects[k := o])
  }

  /** `existing_fact` and its three continuations. */
  function Compare<T>(s: Shard, w: Writer, matching: T, conflicting: T, missing: T): T {
    match Read(s, w.key)
    case Some(p) => if p == w.payload then matching else conflicting
    case None => missing
  }

  /** The next step of a writer; the shard is unchanged when it has none. */
  function Step(s: Shard, pid: Pid): Shard
    requires pid in s.writers
  {
    var w := s.writers[pid];
    match w.pc
    case CheckExisting =>
      Move(s, pid, Compare(s, w, Done(Stored), Done(NonDeterministic), PublishFirst))
    case PublishFirst =>
      if At(s, w.key) == Absent then Write(Move(s, pid, MaybeCollect), w.key, Valid(w.payload))
      else Move(s, pid, CheckAfterClash)
    case CheckAfterClash =>
      Move(s, pid, Compare(s, w, Done(Stored), Done(NonDeterministic), TryLock))
    case TryLock =>
      if s.lock.None? then Move(s, pid, CheckLocked).(lock := Some(pid)) else Move(s, pid, Done(Contended))
    case CheckLocked =>
      Compare(s, w, Release(s, pid, Done(Stored)), Release(s, pid, Done(NonDeterministic)),
              Move(s, pid, Stat(At(s, w.key) != Absent)))
    case Stat(seen) =>
      if At(s, w.key) == Absent then Release(s, pid, Done(IoError)) else Move(s, pid, Unlink(seen))
    case Unlink(_) =>
      if At(s, w.key) == Absent then Release(s, pid, Done(IoError))
      else Write(Move(s, pid, PublishRepair), w.key, Absent)
    case PublishRepair =>
      if At(s, w.key) == Absent then Write(Release(s, pid, MaybeCollect), w.key, Valid(w.payload))
      else Move(s, pid, CheckRepair)
    case CheckRepair =>
      Release(s, pid, Compare(s, w, Done(Stored), Done(NonDeterministic), Done(IoError)))
    case MaybeCollect => Move(s, pid, Done(Stored))
    case Collecting => s
    case Done(_) => s
  }

  /** The shard after an event, or nothing if the event is not possible. */
  function Apply(s: Shard, e: Event): Option<Shard> {
    match e
    case Begin(pid, key, payload) =>
      if pid in s.writers then None
      else Some(s.(writers := s.writers[pid := Writer(key, payload, CheckExisting)]))
    case Advance(pid) => if pid in s.writers then Some(Step(s, pid)) else None
    case StartCollect(pid) =>
      if pid !in s.writers || s.writers[pid].pc != MaybeCollect then None
      else if s.lock.None? then Some(Move(s, pid, Collecting).(lock := Some(pid)))
      else Some(Move(s, pid, Done(Stored)))
    case Evict(pid, key) =>
      if pid !in s.writers || s.writers[pid].pc != Collecting then None
      else Some(if At(s, key) == Absent then s else Write(s, key, Absent))
    case EndCollect(pid) =>
      if pid !in s.writers || s.writers[pid].pc != Collecting then None else Some(Release(s, pid, Done(Stored)))
    case Fault(pid) =>
      if pid !in s.writers || s.writers[pid].pc.Done? then None
      else
        var outcome := if s.writers[pid].pc.MaybeCollect? || s.writers[pid].pc.Collecting? then Stored else IoError;
        Some(if NeedsLock(s.writers[pid].pc) then Release(s, pid, Done(outcome)) else Move(s, pid, Done(outcome)))
    case Crash(pid) =>
      if pid !in s.writers then None
      else
        var rest := s.(writers := s.writers - {pid});
        Some(if NeedsLock(s.writers[pid].pc) then rest.(lock := None) else rest)
    case Get(_) => Some(s)
    case Corrupt(key, damaged) => if damaged.Valid? then None else Some(Write(s, key, damaged))
  }

  /** A run: each state follows from the one before by the event between them. */
  ghost predicate IsRun(states: seq<Shard>, events: seq<Event>) {
    |states| == |events| + 1
    && forall i :: 0 <= i < |events| ==> Apply(states[i], events[i]) == Some(states[i + 1])
  }

  lemma RunShape(states: seq<Shard>, events: seq<Event>)
    requires IsRun(states, events)
    ensures |states| == |events| + 1
  {
  }

  /** All writers of a key carry the payload `pay(key)`. */
  ghost predicate Deterministic(events: seq<Event>, pay: Key -> Payload) {
    forall i :: 0 <= i < |events| && events[i].Begin? ==> events[i].payload == pay(events[i].key)
  }

  /** A shard found at start-up: no writer, no lock, and no valid fact with a wrong payload. */
  ghost predicate Initial(s: Shard, pay: Key -> Payload) {
    s.writers == map[] && s.lock == None && forall k :: At(s, k).Valid? ==> At(s, k).payload == pay(k)
  }

  /** The lock is held exactly by the writer inside a locked section. */
  ghost predicate LockDiscipline(s: Shard) {
    forall pid :: s.lock == Some(pid) <==> pid in s.writers && NeedsLock(s.writers[pid].pc)
  }

  ghost predicate RightPayloads(s: Shard, pay: Key -> Payload) {
    && (forall k :: At(s, k).Valid? ==> At(s, k).payload == pay(k))
    && (forall pid :: pid in s.writers ==>
          s.writers[pid].payload == pay(s.writers[pid].key) && s.writers[pid].pc != Done(NonDeterministic))
  }

  ghost predicate Safe(s: Shard, pay: Key -> Payload) {
    LockDiscipline(s) && RightPayloads(s, pay)
  }

  /** What a step of writer `pid` may do: move that writer, enter or leave the locked section, and
      change the object at its own key by publishing over nothing or, inside `Unlink`, removing. */
  ghost predicate LocalStep(s: Shard, pid: Pid, t: Shard)
    requires pid in s.writers
  {
    var w := s.writers[pid];
    && t.writers.Keys == s.writers.Keys
    && (forall q :: q in s.writers && q != pid ==> t.writers[q] == s.writers[q])
    && var w' := t.writers[pid];
    && w'.key == w.key && w'.payload == w.payload
    && (forall k :: k != w.key ==> At(t, k) == At(s, k))
    && (|| At(t, w.key) == At(s, w.key)
        || (At(s, w.key) == Absent && At(t, w.key) == Valid(w.payload))
        || (w.pc.Unlink? && w'.pc == PublishRepair && At(t, w.key) == Absent))
    && (NeedsLock(w.pc) == NeedsLock(w'.pc) ==> t.lock == s.lock)
    && (!NeedsLock(w.pc) && NeedsLock(w'.pc) ==> s.lock == None && t.lock == Some(pid))
    && (NeedsLock(w.pc) && !NeedsLock(w'.pc) ==> t.lock == None)
    && (w'.pc == Done(NonDeterministic) && w.pc != w'.pc ==> At(s, w.key).Valid? && At(s, w.key).payload != w.payload)
    && (w'.pc.Stat? ==> (w'.pc.seen <==> At(t, w.key) == Invalid))
    && (w'.pc.Unlink? ==> w.pc == Stat(w'.pc.seen) && At(t, w.key) == At(s, w.key))
  }

  lemma CheckIsLocal(s: Shard, pid: Pid)
    requires pid in s.writers
    requires s.writers[pid].pc.CheckExisting? || s.writers[pid].pc.CheckAfterClash?
    ensures LocalStep(s, pid, Step(s, pid))
  {
  }

  lemma LockedCheckIsLocal(s: Shard, pid: Pid)
    requires pid in s.writers
    requires s.writers[pid].pc.CheckLocked? || s.writers[pid].pc.CheckRepair?
    ensures LocalStep(s, pid, Step(s, pid))
  {
  }

  lemma PublishIsLocal(s: Shard, pid: Pid)
    requires pid in s.writers && (s.writers[pid].pc.PublishFirst? || s.writers[pid].pc.PublishRepair?)
    ensures LocalStep(s, pid, Step(s, pid))
  {
  }

  lemma RemovalIsLocal(s: Shard, pid: Pid)
    requires pid in s.writers && (s.writers[pid].pc.Stat? || s.writers[pid].pc.Unlink?)
    ensures LocalStep(s, pid, Step(s, pid))
  {
  }

  lemma EveryStepIsLocal(s: Shard, pid: Pid)
    requires pid in s.writers
    ensures LocalStep(s, pid, Step(s, pid))
  {
    var pc := s.writers[pid].pc;
    if pc.Stat? || pc.Unlink? {
      RemovalIsLocal(s, pid);
    } else if pc.PublishFirst? || pc.PublishRepair? {
      PublishIsLocal(s, pid);
    } else if pc.CheckExisting? || pc.CheckAfterClash? {
      CheckIsLocal(s, pid);
    } else if pc.CheckLocked? || pc.CheckRepair? {
      LockedCheckIsLocal(s, pid);
    }
  }

  /** Starting and ending a collection, and failing, are local to a writer as well. */
  lemma TransitionIsLocal(s: Shard, e: Event, t: Shard)
    requires LockDiscipline(s) && Apply(s, e) == Some(t) && (e.StartCollect? || e.EndCollect? || e.Fault?)
    ensures e.pid in s.writers && LocalStep(s, e.pid, t)
  {
  }

  lemma LocalKeepsDiscipline(s: Shard, pid: Pid, t: Shard)
    requires LockDiscipline(s) && pid in s.writers && LocalStep(s, pid, t)
    ensures LockDiscipline(t)
  {
  }

  lemma LocalKeepsPayloads(s: Shard, pid: Pid, t: Shard, pay: Key -> Payload)
    requires RightPayloads(s, pay) && pid in s.writers && LocalStep(s, pid, t)
    ensures RightPayloads(t, pay)
  {
  }

  /** Events that add or remove a writer, or change an object from outside a writer's own step. */
  lemma OtherEventKeepsSafe(s: Shard, e: Event, t: Shard, pay: Key -> Payload)
    requires Safe(s, pay) && Apply(s, e) == Some(t)
    requires e.Begin? || e.Crash? || e.Evict? || e.Corrupt? || e.Get?
    requires e.Begin? ==> e.payload == pay(e.key)
    ensures Safe(t, pay)
  {
    hide Step, Safe;
    if e.Evict? || e.Corrupt? {
      ObjectEventKeepsSafe(s, e, t, pay);
    } else if e.Begin? || e.Crash? {
      WriterEventKeepsSafe(s, e, t, pay);
    }
  }

  lemma ObjectEventKeepsSafe(s: Shard, e: Event, t: Shard, pay: Key -> Payload)
    requires Safe(s, pay) && Apply(s, e) == Some(t) && (e.Evict? || e.Corrupt?)
    ensures Safe(t, pay)
  {
    hide Step;
    assert forall k :: k != e.key ==> At(t, k) == At(s, k);
    assert t.writers == s.writers && t.lock == s.lock;
  }

  lemma WriterEventKeepsSafe(s: Shard, e: Event, t: Shard, pay: Key -> Payload)
    requires Safe(s, pay) && Apply(s, e) == Some(t) && (e.Begin? || e.Crash?)
    requires e.Begin? ==> e.payload == pay(e.key)
    ensures Safe(t, pay)
  {
    hide Step;
    assert t.objects == s.objects;
    assert forall k :: At(t, k) == At(s, k);
  }

  lemma EventKeepsSafe(s: Shard, e: Event, t: Shard, pay: Key -> Payload)
    requires Safe(s, pay) && Apply(s, e) == Some(t)
    requires e.Begin? ==> e.payload == pay(e.key)
    ensures Safe(t, pay)
  {
    hide Step;
    hide LocalStep;
    if e.Advance? || e.StartCollect? || e.EndCollect? || e.Fault? {
      if e.Advance? {
        EveryStepIsLocal(s, e.pid);
      } else {
        TransitionIsLocal(s, e, t);
      }
      LocalKeepsDiscipline(s, e.pid, t);
      LocalKeepsPayloads(s, e.pid, t, pay);
    } else {
      OtherEventKeepsSafe(s, e, t, pay);
    }
  }

  lemma {:induction false} RunSafe(states: seq<Shard>, events: seq<Event>, pay: Key -> Payload, n: nat)
    requires IsRun(states, events) && Deterministic(events, pay) && Initial(states[0], pay)
    requires n <= |events|
    ensures Safe(states[n], pay)
  {
    if n > 0 {
      RunSafe(states, events, pay, n - 1);
      EventKeepsSafe(states[n - 1], events[n - 1], states[n], pay);
    }
  }

  lemma EventKeepsDiscipline(s: Shard, e: Event, t: Shard)
    requires LockDiscipline(s) && Apply(s, e) == Some(t)
    ensures LockDiscipline(t)
  {
    hide Step, LocalStep;
    if e.Advance? {
      EveryStepIsLocal(s, e.pid);
      LocalKeepsDiscipline(s, e.pid, t);
    } else if e.StartCollect? || e.EndCollect? || e.Fault? {
      TransitionIsLocal(s, e, t);
      LocalKeepsDiscipline(s, e.pid, t);
    }
  }

  /** The lock discipline holds in every run, whatever the writers carry. */
  lemma {:induction false} RunKeepsDiscipline(states: seq<Shard>, events: seq<Event>, n: nat)
    requires IsRun(states, events) && states[0].writers == map[] && states[0].lock == None
    requires n <= |events|
    ensures LockDiscipline(states[n])
  {
    hide Apply;
    if n > 0 {
      RunKeepsDiscipline(states, events, n - 1);
      EventKeepsDiscipline(states[n - 1], events[n - 1], states[n]);
    }
  }

  ghost predicate AtMostOneLocked(s: Shard) {
    forall p, q ::
      (p in s.writers && q in s.writers && NeedsLock(s.writers[p].pc) && NeedsLock(s.writers[q].pc)) ==> p == q
  }

  /** In every interleaving of writers, repairers, collectors, faults, crashes and corruption, if
      all writers of a key carry the same payload then every read yields that payload or a miss,
      no writer reports a nondeterministic fact, and at most one process is in a locked section. */
  lemma ReadersSeeTheRightPayload(states: seq<Shard>, events: seq<Event>, pay: Key -> Payload)
    requires IsRun(states, events) && Deterministic(events, pay) && Initial(states[0], pay)
    ensures forall i, k :: 0 <= i < |states| ==> Read(states[i], k) == None || Read(states[i], k) == Some(pay(k))
    ensures forall i, pid :: 0 <= i < |states| && pid in states[i].writers ==>
              states[i].writers[pid].pc != Done(NonDeterministic)
    ensures forall i :: 0 <= i < |states| ==> AtMostOneLocked(states[i])
  {
    forall i | 0 <= i < |states|
      ensures Safe(states[i], pay)
    {
      RunSafe(states, events, pay, i);
    }
  }

  /** While a process holds the shard lock, an object that is present at any path is changed only by a step
      or an eviction of that process, external corruption apart. */
  lemma LockedObjectsStable(s: Shard, e: Event, t: Shard, pid: Pid, k: Key)
    requires LockDiscipline(s) && s.lock == Some(pid) && Apply(s, e) == Some(t)
    requires e != Advance(pid) && e != Evict(pid, k) && !e.Corrupt?
    requires At(s, k) != Absent
    ensures At(t, k) == At(s, k)
  {
    hide Step;
    if e.Advance? {
      EveryStepIsLocal(s, e.pid);
    }
  }

  /** Only corruption makes an object invalid. */
  lemma NoNewInvalid(s: Shard, e: Event, t: Shard, k: Key)
    requires LockDiscipline(s) && Apply(s, e) == Some(t) && !e.Corrupt?
    requires At(s, k) != Invalid
    ensures At(t, k) != Invalid
  {
    hide Step;
    if e.Advance? {
      EveryStepIsLocal(s, e.pid);
    }
  }

  /** A repairer between its locked check and its removal faces an invalid object exactly when it
      saw an object at the check. */
  ghost predicate RepairsInvalid(s: Shard) {
    forall pid ::
      (pid in s.writers && (s.writers[pid].pc.Stat? || s.writers[pid].pc.Unlink?)) ==>
        (s.writers[pid].pc.seen <==> At(s, s.writers[pid].key) == Invalid)
  }

  lemma EventKeepsRepairs(s: Shard, e: Event, t: Shard)
    requires LockDiscipline(s) && RepairsInvalid(s) && Apply(s, e) == Some(t) && !e.Corrupt?
    ensures RepairsInvalid(t)
  {
    hide Step;
    if e.Advance? {
      EveryStepIsLocal(s, e.pid);
    }
    forall pid | pid in t.writers && (t.writers[pid].pc.Stat? || t.writers[pid].pc.Unlink?)
      ensures t.writers[pid].pc.seen <==> At(t, t.writers[pid].key) == Invalid
    {
      if e != Advance(pid) {
        assert s.lock == Some(pid);
        if At(s, t.writers[pid].key) != Invalid {
          NoNewInvalid(s, e, t, t.writers[pid].key);
        } else {
          LockedObjectsStable(s, e, t, pid, t.writers[pid].key);
        }
      }
    }
  }

  /** Without external corruption, what a repair is about to remove is invalid exactly when an
      object was present at its locked check. */
  lemma {:induction false} RemovesInvalidIffSeen(states: seq<Shard>, events: seq<Event>, n: nat)
    requires IsRun(states, events) && states[0].writers == map[] && states[0].lock == None
    requires forall i :: 0 <= i < |events| ==> !events[i].Corrupt?
    requires n <= |events|
    ensures RepairsInvalid(states[n])
  {
    if n > 0 {
      RemovesInvalidIffSeen(states, events, n - 1);
      RunKeepsDiscipline(states, events, n - 1);
      EventKeepsRepairs(states[n - 1], events[n - 1], states[n]);
    }
  }

  // One key at a time.

  /** A valid fact at this key, and every writer of it, carries an allowed payload. */
  ghost predicate OnlyAllowed(s: Shard, k: Key, allowed: Payload -> bool) {
    && (At(s, k).Valid? ==> allowed(At(s, k).payload))
    && (forall pid :: pid in s.writers && s.writers[pid].key == k ==> allowed(s.writers[pid].payload))
  }

  lemma LocalKeepsAllowed(s: Shard, pid: Pid, t: Shard, k: Key, allowed: Payload -> bool)
    requires OnlyAllowed(s, k, allowed) && pid in s.writers && LocalStep(s, pid, t)
    ensures OnlyAllowed(t, k, allowed)
  {
  }

  lemma EventKeepsAllowed(s: Shard, e: Event, t: Shard, k: Key, allowed: Payload -> bool)
    requires LockDiscipline(s) && OnlyAllowed(s, k, allowed) && Apply(s, e) == Some(t)
    requires e.Begin? && e.key == k ==> allowed(e.payload)
    ensures OnlyAllowed(t, k, allowed)
  {
    hide Step, LocalStep;
    if e.Advance? {
      EveryStepIsLocal(s, e.pid);
      LocalKeepsAllowed(s, e.pid, t, k, allowed);
    } else if e.StartCollect? || e.EndCollect? || e.Fault? {
      TransitionIsLocal(s, e, t);
      LocalKeepsAllowed(s, e.pid, t, k, allowed);
    }
  }

  /** Whatever happens at other keys, a reader of this one sees only what its writers may write. */
  lemma {:induction false} ReadersSeeAllowed(states: seq<Shard>, events: seq<Event>, k: Key, allowed: Payload -> bool, n: nat)
    requires IsRun(states, events) && n <= |events|
    requires states[0].writers == map[] && states[0].lock == None && OnlyAllowed(states[0], k, allowed)
    requires forall i :: 0 <= i < |events| && events[i].Begin? && events[i].key == k ==> allowed(events[i].payload)
    ensures OnlyAllowed(states[n], k, allowed)
    ensures Read(states[n], k).Some? ==> allowed(Read(states[n], k).value)
  {
    hide Apply, LockDiscipline;
    if n > 0 {
      ReadersSeeAllowed(states, events, k, allowed, n - 1);
      RunKeepsDiscipline(states, events, n - 1);
      EventKeepsAllowed(states[n - 1], events[n - 1], states[n], k, allowed);
    }
  }

  lemma ExtendRun(states: seq<Shard>, events: seq<Event>, e: Event, t: Shard)
    requires IsRun(states, events) && Apply(states[|events|], e) == Some(t)
    ensures IsRun(states + [t], events + [e])
  {
  }

  /** When the path was absent at the locked check, another writer may publish before the removal:
      from a shard holding one invalid object, and without corruption, the last event of this run
      removes a valid fact with the right payload. Writer 3 collects the invalid object, writer 1
      takes the lock and finds nothing, writer 2 publishes, writer 1 removes. */
  lemma RepairMayRemoveValid(a: Key, b: Key, p: Payload, q: Payload) returns (states: seq<Shard>, events: seq<Event>)
    requires a != b
    ensures IsRun(states, events) && |events| == 17
    ensures Initial(states[0], k => if k == a then p else q)
    ensures Deterministic(events, k => if k == a then p else q)
    ensures forall i :: 0 <= i < |events| ==> !events[i].Corrupt?
    ensures At(states[16], a) == Valid(p) && At(states[17], a) == Absent
    ensures events[16] == Advance(1) && 1 in states[16].writers && states[16].writers[1].pc == Unlink(false)
  {
    hide IsRun, Deterministic;
    var s0 := Shard(map[a := Invalid], None, map[]);
    states, events := FirstClash(s0, a, p);
    states, events := CollectorPublishes(states, events, a, b, p, q);
    states, events := CollectorEvicts(states, events, a, b, p, q);
    states, events := WriterStarts(states, events, a, b, p, q);
    states, events := RepairerFindsNothing(states, events, a, b, p, q);
    states, events := WriterPublishes(states, events, a, b, p, q);
    ScriptIsFair(events, a, b, p, q);
  }

  lemma ScriptIsFair(events: seq<Event>, a: Key, b: Key, p: Payload, q: Payload)
    requires a != b
    requires events == [Begin(1, a, p), Advance(1), Advance(1), Advance(1), Begin(3, b, q), Advance(3), Advance(3),
                        StartCollect(3), Evict(3, a), EndCollect(3), Begin(2, a, p), Advance(2), Advance(1), Advance(1),
                        Advance(2), Advance(1), Advance(1)]
    ensures Deterministic(events, k => if k == a then p else q)
    ensures forall i :: 0 <= i < |events| ==> !events[i].Corrupt?
  {
  }

  lemma Extend(states: seq<Shard>, events: seq<Event>, e: Event) returns (states': seq<Shard>, events': seq<Event>)
    requires IsRun(states, events) && Apply(states[|events|], e).Some?
    ensures states' == states + [Apply(states[|events|], e).value] && events' == events + [e]
    ensures IsRun(states', events')
  {
    ExtendRun(states, events, e, Apply(states[|events|], e).value);
    states', events' := states + [Apply(states[|events|], e).value], events + [e];
  }

  lemma FirstClash(s0: Shard, a: Key, p: Payload) returns (states: seq<Shard>, events: seq<Event>)
    requires s0 == Shard(map[a := Invalid], None, map[])
    ensures IsRun(states, events) && states[0] == s0
    ensures events == [Begin(1, a, p), Advance(1), Advance(1), Advance(1)]
    ensures states[4] == Shard(map[a := Invalid], None, map[1 := Writer(a, p, TryLock)])
  {
    states, events := [s0], [];
    states, events := Extend(states, events, Begin(1, a, p));
    states, events := Extend(states, events, Advance(1));
    states, events := Extend(states, events, Advance(1));
    states, events := Extend(states, events, Advance(1));
  }

  lemma CollectorPublishes(before: seq<Shard>, done: seq<Event>, a: Key, b: Key, p: Payload, q: Payload)
    returns (states: seq<Shard>, events: seq<Event>)
    requires a != b && IsRun(before, done) && |done| == 4
    requires before[4] == Shard(map[a := Invalid], None, map[1 := Writer(a, p, TryLock)])
    ensures IsRun(states, events) && |states| >= 5 && states[..5] == before
    ensures events == done + [Begin(3, b, q), Advance(3), Advance(3)]
    ensures states[7] == Shard(map[a := Invalid, b := Valid(q)], None,
                               map[1 := Writer(a, p, TryLock), 3 := Writer(b, q, MaybeCollect)])
  {
    hide IsRun;
    states, events := Extend(before, done, Begin(3, b, q));
    states, events := Extend(states, events, Advance(3));
    states, events := Extend(states, events, Advance(3));
  }

  lemma CollectorEvicts(before: seq<Shard>, done: seq<Event>, a: Key, b: Key, p: Payload, q: Payload)
    returns (states: seq<Shard>, events: seq<Event>)
    requires a != b && IsRun(before, done) && |done| == 7
    requires before[7] == Shard(map[a := Invalid, b := Valid(q)], None,
                                map[1 := Writer(a, p, TryLock), 3 := Writer(b, q, MaybeCollect)])
    ensures IsRun(states, events) && |states| >= 8 && states[..8] == before
    ensures events == done + [StartCollect(3), Evict(3, a), EndCollect(3)]
    ensures states[10] == Shard(map[a := Absent, b := Valid(q)], None,
                                map[1 := Writer(a, p, TryLock), 3 := Writer(b, q, Done(Stored))])
  {
    hide IsRun, Step;
    states, events := Extend(before, done, StartCollect(3));
    states, events := Extend(states, events, Evict(3, a));
    states, events := Extend(states, events, EndCollect(3));
  }

  lemma WriterStarts(before: seq<Shard>, done: seq<Event>, a: Key, b: Key, p: Payload, q: Payload)
    returns (states: seq<Shard>, events: seq<Event>)
    requires a != b && IsRun(before, done) && |done| == 10
    requires before[10] == Shard(map[a := Absent, b := Valid(q)], None,
                                 map[1 := Writer(a, p, TryLock), 3 := Writer(b, q, Done(Stored))])
    ensures IsRun(states, events) && |states| >= 11 && states[..11] == before
    ensures events == done + [Begin(2, a, p), Advance(2)]
    ensures states[12] == Shard(map[a := Absent, b := Valid(q)], None,
                                map[1 := Writer(a, p, TryLock), 2 := Writer(a, p, PublishFirst),
                                    3 := Writer(b, q, Done(Stored))])
  {
    hide IsRun;
    states, events := Extend(before, done, Begin(2, a, p));
    states, events := Extend(states, events, Advance(2));
  }

  lemma RepairerFindsNothing(before: seq<Shard>, done: seq<Event>, a: Key, b: Key, p: Payload, q: Payload)
    returns (states: seq<Shard>, events: seq<Event>)
    requires a != b && IsRun(before, done) && |done| == 12
    requires before[12] == Shard(map[a := Absent, b := Valid(q)], None,
                                 map[1 := Writer(a, p, TryLock), 2 := Writer(a, p, PublishFirst),
                                     3 := Writer(b, q, Done(Stored))])
    ensures IsRun(states, events) && |states| >= 13 && states[..13] == before
    ensures events == done + [Advance(1), Advance(1)]
    ensures states[14] == Shard(map[a := Absent, b := Valid(q)], Some(1),
                                map[1 := Writer(a, p, Stat(false)), 2 := Writer(a, p, PublishFirst),
                                    3 := Writer(b, q, Done(Stored))])
  {
    hide IsRun;
    states, events := Extend(before, done, Advance(1));
    states, events := Extend(states, events, Advance(1));
  }

  lemma WriterPublishes(before: seq<Shard>, done: seq<Event>, a: Key, b: Key, p: Payload, q: Payload)
    returns (states: seq<Shard>, events: seq<Event>)
    requires a != b && IsRun(before, done) && |done| == 14
    requires before[14] == Shard(map[a := Absent, b := Valid(q)], Some(1),
                                 map[1 := Writer(a, p, Stat(false)), 2 := Writer(a, p, PublishFirst),
                                     3 := Writer(b, q, Done(Stored))])
    ensures IsRun(states, events) && |states| >= 15 && states[..15] == before
    ensures events == done + [Advance(2), Advance(1), Advance(1)]
    ensures At(states[16], a) == Valid(p) && At(states[17], a) == Absent
    ensures 1 in states[16].writers && states[16].writers[1].pc == Unlink(false)
  {
    hide IsRun;
    states, events := Extend(before, done, Advance(2));
    states, events := Extend(states, events, Advance(1));
    states, events := Extend(states, events, Advance(1));
  }
}

/** What a writer of the on-disk cache achieves: when it reports which outcome, that a stored fact was
    there to be read, and that a writer left alone stores its fact. */
module DiskOutcomes {
  import opened Collections
  import opened DiskProtocol

  predicate Checks(pc: Pc) {
    pc.CheckExisting? || pc.CheckAfterClash? || pc.CheckLocked? || pc.CheckRepair?
  }

  predicate Publishes(pc: Pc) {
    pc.PublishFirst? || pc.PublishRepair?
  }

  /** The fact is published and the quota may be looked after, or all is done. */
  predicate Published(pc: Pc) {
    pc.MaybeCollect? || pc.Collecting? || pc == Done(Stored)
  }

  /** A writer stores by publishing over nothing or by finding its own fact at a check; a different fact at a
      check is nondeterminism; a held lock is contention; it fails when the file to be repaired is gone or
      the repaired one is not valid. Nothing but a publication or a removal changes an object. */
  lemma {:induction false} OutcomeTold(s: Shard, pid: Pid)
    requires pid in s.writers && !Published(s.writers[pid].pc) && !s.writers[pid].pc.Done?
    ensures var w, t := s.writers[pid], Step(s, pid);
            && pid in t.writers
            && (t.writers[pid].pc == Done(Stored) <==> Checks(w.pc) && Read(s, w.key) == Some(w.payload))
            && (t.writers[pid].pc == Done(NonDeterministic)
                <==> Checks(w.pc) && Read(s, w.key).Some? && Read(s, w.key) != Some(w.payload))
            && (t.writers[pid].pc == Done(Contended) <==> w.pc == TryLock && s.lock.Some?)
            && (t.writers[pid].pc == Done(IoError)
                <==> ((w.pc.Stat? || w.pc.Unlink?) && At(s, w.key) == Absent)
                     || (w.pc == CheckRepair && Read(s, w.key) == None))
            && (t.writers[pid].pc == MaybeCollect <==> Publishes(w.pc) && At(s, w.key) == Absent)
            && !t.writers[pid].pc.Collecting?
            && At(t, w.key) == (if Publishes(w.pc) && At(s, w.key) == Absent then Valid(w.payload)
                                else if w.pc.Unlink? then Absent else At(s, w.key))
  {
  }

  function Distance(pc: Pc): nat {
    match pc
    case CheckExisting => 10
    case PublishFirst => 9
    case CheckAfterClash => 8
    case TryLock => 7
    case CheckLocked => 6
    case Stat(_) => 5
    case Unlink(_) => 4
    case PublishRepair => 3
    case CheckRepair => 2
    case MaybeCollect => 1
    case Collecting => 1
    case Done(_) => 0
  }

  /** Every step of a writer brings it closer to the end, so that it makes at most ten. */
  lemma {:induction false} StepsForward(s: Shard, pid: Pid)
    requires pid in s.writers && !s.writers[pid].pc.Collecting? && !s.writers[pid].pc.Done?
    ensures pid in Step(s, pid).writers && Distance(Step(s, pid).writers[pid].pc) < Distance(s.writers[pid].pc)
  {
  }

  // A stored fact was there.

  ghost predicate Same(s: Shard, t: Shard, pid: Pid) {
    pid in s.writers && pid in t.writers
    && s.writers[pid].key == t.writers[pid].key && s.writers[pid].payload == t.writers[pid].payload
  }

  /** Whoever newly counts as having published can read its payload then; and publication is not undone. */
  lemma {:induction false} EventPublishes(s: Shard, e: Event, t: Shard, pid: Pid)
    requires Apply(s, e) == Some(t) && pid in s.writers && pid in t.writers
    ensures Same(s, t, pid)
    ensures !Published(s.writers[pid].pc) && Published(t.writers[pid].pc) ==>
              Read(t, t.writers[pid].key) == Some(t.writers[pid].payload)
    ensures Published(s.writers[pid].pc) ==> Published(t.writers[pid].pc)
  {
    hide Step;
    if e.Advance? {
      if e.pid == pid {
        StepPublishes(s, pid);
      } else {
        EveryStepIsLocal(s, e.pid);
      }
    }
  }

  lemma {:induction false} StepPublishes(s: Shard, pid: Pid)
    requires pid in s.writers
    ensures Same(s, Step(s, pid), pid)
    ensures var w, t := s.writers[pid], Step(s, pid);
            && (!Published(w.pc) && Published(t.writers[pid].pc) ==> Read(t, w.key) == Some(w.payload))
            && (Published(w.pc) ==> Published(t.writers[pid].pc))
  {
    if !Published(s.writers[pid].pc) && !s.writers[pid].pc.Done? {
      OutcomeTold(s, pid);
    }
  }

  /** In every run, a writer that reports its fact stored was able to read it at some moment since it began. */
  lemma {:induction false} StoredWasReadable(states: seq<Shard>, events: seq<Event>, n: nat, pid: Pid) returns (m: nat)
    requires IsRun(states, events) && states[0].writers == map[] && n <= |events|
    requires pid in states[n].writers && Published(states[n].writers[pid].pc)
    ensures m <= n && forall i :: m <= i <= n ==> Same(states[i], states[n], pid)
    ensures Read(states[m], states[n].writers[pid].key) == Some(states[n].writers[pid].payload)
  {
    hide Apply, Read;
    if n > 0 && pid in states[n - 1].writers {
      EventPublishes(states[n - 1], events[n - 1], states[n], pid);
      if Published(states[n - 1].writers[pid].pc) {
        m := StoredWasReadable(states, events, n - 1, pid);
      } else {
        m := n;
      }
    } else {
      NewcomersHaveNotPublished(states, events, n, pid);
      assert false;
    }
  }

  lemma {:induction false} NewcomersHaveNotPublished(states: seq<Shard>, events: seq<Event>, n: nat, pid: Pid)
    requires IsRun(states, events) && states[0].writers == map[] && n <= |events|
    requires pid in states[n].writers && (n > 0 ==> pid !in states[n - 1].writers)
    ensures n > 0 && events[n - 1].Begin? && states[n].writers[pid].pc == CheckExisting
  {
    hide Step;
    if n > 0 {
      assert Apply(states[n - 1], events[n - 1]) == Some(states[n]);
      if events[n - 1].Advance? {
        EveryStepIsLocal(states[n - 1], events[n - 1].pid);
      }
    }
  }

  // A writer left alone.

  ghost function Steps(s: Shard, pid: Pid, n: nat): Shard
    requires pid in s.writers
    decreases n
  {
    if n == 0 then s
    else
      EveryStepIsLocal(s, pid);
      Steps(Step(s, pid), pid, n - 1)
  }

  /** The shard in which the writer is done and the object at its key is this one. */
  ghost function Ended(s: Shard, pid: Pid, key: Key, payload: Payload, outcome: Outcome, o: Object): Shard {
    Shard(s.objects[key := o], s.lock, s.writers[pid := Writer(key, payload, Done(outcome))])
  }

  ghost predicate SameShard(a: Shard, b: Shard) {
    a.lock == b.lock && a.writers == b.writers && forall k :: At(a, k) == At(b, k)
  }

  /** A writer that nobody disturbs stores its fact where there was none or, unless the lock is held, an
      invalid one; it keeps its own fact and refuses another; and it touches nothing else. */
  lemma {:induction false} LoneWriter(s: Shard, pid: Pid, key: Key, payload: Payload)
    requires pid !in s.writers
    ensures Apply(s, Begin(pid, key, payload)).Some?
    ensures var b, was := Apply(s, Begin(pid, key, payload)).value, At(s, key);
            && pid in b.writers
            && (was == Absent ==> SameShard(Steps(b, pid, 3), Ended(s, pid, key, payload, Stored, Valid(payload))))
            && (was == Invalid && s.lock == None ==>
                  SameShard(Steps(b, pid, 9), Ended(s, pid, key, payload, Stored, Valid(payload))))
            && (was == Invalid && s.lock != None ==>
                  SameShard(Steps(b, pid, 4), Ended(s, pid, key, payload, Contended, Invalid)))
            && (was == Valid(payload) ==> SameShard(Steps(b, pid, 1), Ended(s, pid, key, payload, Stored, was)))
            && (was.Valid? && was != Valid(payload) ==>
                  SameShard(Steps(b, pid, 1), Ended(s, pid, key, payload, NonDeterministic, was)))
  {
    var b := Apply(s, Begin(pid, key, payload)).value;
    match At(s, key) {
      case Absent => LonePublication(s, b, pid, key, payload);
      case Valid(_) =>
        var t := Step(b, pid);
        assert Steps(b, pid, 1) == Steps(t, pid, 0) == t;
      case Invalid =>
        if s.lock == None {
          LoneRepair(s, b, pid, key, payload);
        } else {
          LoneContention(s, b, pid, key, payload);
        }
    }
  }

  ghost predicate Started(s: Shard, b: Shard, pid: Pid, key: Key, payload: Payload) {
    pid !in s.writers && b == s.(writers := s.writers[pid := Writer(key, payload, CheckExisting)])
  }

  /** The writer is at `pc` and the rest is as it was, apart from the lock and the object at its key. */
  ghost predicate Reached(s: Shard, b: Shard, pid: Pid, key: Key, payload: Payload, pc: Pc, lock: Option<Pid>, o: Object) {
    && b.writers == s.writers[pid := Writer(key, payload, pc)] && b.lock == lock
    && forall k :: At(b, k) == if k == key then o else At(s, k)
  }

  lemma {:induction false} StepsOne(s: Shard, pid: Pid, n: nat)
    requires pid in s.writers && n > 0
    ensures pid in Step(s, pid).writers && Steps(s, pid, n) == Steps(Step(s, pid), pid, n - 1)
  {
    EveryStepIsLocal(s, pid);
  }

  lemma {:induction false} LonePublication(s: Shard, b: Shard, pid: Pid, key: Key, payload: Payload)
    requires Started(s, b, pid, key, payload) && At(s, key) == Absent
    ensures SameShard(Steps(b, pid, 3), Ended(s, pid, key, payload, Stored, Valid(payload)))
  {
    var b1 := Step(b, pid);
    assert Reached(s, b1, pid, key, payload, PublishFirst, s.lock, Absent);
    var b2 := Step(b1, pid);
    assert Reached(s, b2, pid, key, payload, MaybeCollect, s.lock, Valid(payload));
    var b3 := Step(b2, pid);
    assert Reached(s, b3, pid, key, payload, Done(Stored), s.lock, Valid(payload));
    hide Step;
    StepsOne(b, pid, 3);
    StepsOne(b1, pid, 2);
    StepsOne(b2, pid, 1);
  }

  /** Up to the lock. */
  lemma {:induction false} LoneClash(s: Shard, b: Shard, pid: Pid, key: Key, payload: Payload, n: nat) returns (b3: Shard)
    requires Started(s, b, pid, key, payload) && At(s, key) == Invalid
    ensures Reached(s, b3, pid, key, payload, TryLock, s.lock, Invalid) && pid in b3.writers
    ensures Steps(b, pid, n + 3) == Steps(b3, pid, n)
  {
    var b1 := Step(b, pid);
    assert Reached(s, b1, pid, key, payload, PublishFirst, s.lock, Invalid);
    var b2 := Step(b1, pid);
    assert Reached(s, b2, pid, key, payload, CheckAfterClash, s.lock, Invalid);
    b3 := Step(b2, pid);
    assert Reached(s, b3, pid, key, payload, TryLock, s.lock, Invalid);
    hide Step;
    StepsOne(b, pid, n + 3);
    StepsOne(b1, pid, n + 2);
    StepsOne(b2, pid, n + 1);
  }

  lemma {:induction false} LoneContention(s: Shard, b: Shard, pid: Pid, key: Key, payload: Payload)
    requires Started(s, b, pid, key, payload) && At(s, key) == Invalid && s.lock != None
    ensures SameShard(Steps(b, pid, 4), Ended(s, pid, key, payload, Contended, Invalid))
  {
    var b3 := LoneClash(s, b, pid, key, payload, 1);
    var b4 := Step(b3, pid);
    assert Reached(s, b4, pid, key, payload, Done(Contended), s.lock, Invalid);
    StepsOne(b3, pid, 1);
  }

  lemma {:induction false} LoneRepair(s: Shard, b: Shard, pid: Pid, key: Key, payload: Payload)
    requires Started(s, b, pid, key, payload) && At(s, key) == Invalid && s.lock == None
    ensures SameShard(Steps(b, pid, 9), Ended(s, pid, key, payload, Stored, Valid(payload)))
  {
    hide Step, Steps, At;
    var b3 := LoneClash(s, b, pid, key, payload, 6);
    var b4 := Locks(s, b3, pid, key, payload, 5);
    var b5 := FindsInvalid(s, b4, pid, key, payload, 4);
    var b6 := Looks(s, b5, pid, key, payload, 3);
    var b7 := Removes(s, b6, pid, key, payload, 2);
    var b8 := Republishes(s, b7, pid, key, payload, 1);
    var b9 := Finishes(s, b8, pid, key, payload, 0);
    AtTheEnd(s, b, b9, pid, key, payload);
  }

  lemma {:induction false} AtTheEnd(s: Shard, b: Shard, t: Shard, pid: Pid, key: Key, payload: Payload)
    requires pid in b.writers && Reached(s, t, pid, key, payload, Done(Stored), s.lock, Valid(payload))
    requires pid in t.writers && Steps(b, pid, 9) == Steps(t, pid, 0)
    ensures SameShard(Steps(b, pid, 9), Ended(s, pid, key, payload, Stored, Valid(payload)))
  {
    hide Step;
    assert Steps(t, pid, 0) == t;
  }

  lemma {:induction false} Locks(s: Shard, b: Shard, pid: Pid, key: Key, payload: Payload, n: nat) returns (t: Shard)
    requires Reached(s, b, pid, key, payload, TryLock, None, Invalid)
    ensures Reached(s, t, pid, key, payload, CheckLocked, Some(pid), Invalid)
    ensures pid in b.writers && pid in t.writers && Steps(b, pid, n + 1) == Steps(t, pid, n)
  {
    t := Step(b, pid);
    assert t.writers == s.writers[pid := Writer(key, payload, CheckLocked)];
    assert forall k :: At(t, k) == At(b, k);
    StepsOne(b, pid, n + 1);
  }

  lemma {:induction false} FindsInvalid(s: Shard, b: Shard, pid: Pid, key: Key, payload: Payload, n: nat) returns (t: Shard)
    requires Reached(s, b, pid, key, payload, CheckLocked, Some(pid), Invalid)
    ensures Reached(s, t, pid, key, payload, Stat(true), Some(pid), Invalid)
    ensures pid in b.writers && pid in t.writers && Steps(b, pid, n + 1) == Steps(t, pid, n)
  {
    t := Step(b, pid);
    assert t.writers == s.writers[pid := Writer(key, payload, Stat(true))];
    assert forall k :: At(t, k) == At(b, k);
    StepsOne(b, pid, n + 1);
  }

  lemma {:induction false} Looks(s: Shard, b: Shard, pid: Pid, key: Key, payload: Payload, n: nat) returns (t: Shard)
    requires Reached(s, b, pid, key, payload, Stat(true), Some(pid), Invalid)
    ensures Reached(s, t, pid, key, payload, Unlink(true), Some(pid), Invalid)
    ensures pid in b.writers && pid in t.writers && Steps(b, pid, n + 1) == Steps(t, pid, n)
  {
    t := Step(b, pid);
    assert t.writers == s.writers[pid := Writer(key, payload, Unlink(true))];
    assert forall k :: At(t, k) == At(b, k);
    StepsOne(b, pid, n + 1);
  }

  lemma {:induction false} Removes(s: Shard, b: Shard, pid: Pid, key: Key, payload: Payload, n: nat) returns (t: Shard)
    requires Reached(s, b, pid, key, payload, Unlink(true), Some(pid), Invalid)
    ensures Reached(s, t, pid, key, payload, PublishRepair, Some(pid), Absent)
    ensures pid in b.writers && pid in t.writers && Steps(b, pid, n + 1) == Steps(t, pid, n)
  {
    t := Step(b, pid);
    assert t.writers == s.writers[pid := Writer(key, payload, PublishRepair)];
    StepsOne(b, pid, n + 1);
  }

  lemma {:induction false} Republishes(s: Shard, b: Shard, pid: Pid, key: Key, payload: Payload, n: nat) returns (t: Shard)
    requires Reached(s, b, pid, key, payload, PublishRepair, Some(pid), Absent)
    ensures Reached(s, t, pid, key, payload, MaybeCollect, None, Valid(payload))
    ensures pid in b.writers && pid in t.writers && Steps(b, pid, n + 1) == Steps(t, pid, n)
  {
    t := Step(b, pid);
    assert t.writers == s.writers[pid := Writer(key, payload, MaybeCollect)];
    StepsOne(b, pid, n + 1);
  }

  lemma {:induction false} Finishes(s: Shard, b: Shard, pid: Pid, key: Key, payload: Payload, n: nat) returns (t: Shard)
    requires Reached(s, b, pid, key, payload, MaybeCollect, None, Valid(payload))
    ensures Reached(s, t, pid, key, payload, Done(Stored), None, Valid(payload))
    ensures pid in b.writers && pid in t.writers && Steps(b, pid, n + 1) == Steps(t, pid, n)
  {
    t := Step(b, pid);
    assert t.writers == s.writers[pid := Writer(key, payload, Done(Stored))];
    assert forall k :: At(t, k) == At(b, k);
    StepsOne(b, pid, n + 1);
  }
}

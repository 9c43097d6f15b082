/** Loading facts through a cache, in memory or on disk, returns what analysis without one returns. */
module FactLoad {
  import opened Bytes
  import opened Collections
  import opened DigestFraming
  import DiskProtocol
  import opened FactFile
  import opened MemoryCache
  import opened PersistentCache

  datatype SourceFile = SourceFile(content: Digest, mode: seq<byte>)

  datatype Outcome<+F> = Loaded(facts: F) | Cancelled | Failed(error: seq<byte>)

  /** Deterministic analysis of a file under given parser options, when it is not cancelled. */
  type Analyzer<!F> = (SourceFile, seq<byte>) -> Outcome<F>

  /** The moments at which `load` can observe the cancel token. */
  datatype Observed = Observed(atEntry: bool, afterHit: bool, duringAnalysis: bool)

  const NEVER: Observed := Observed(false, false, false)

  const NONDETERMINISTIC: seq<byte> := [0]

  /** What `load` is asked: a file under parser options. */
  datatype Question = Question(file: SourceFile, options: seq<byte>)

  ghost predicate Storable(q: Question, abi: seq<byte>) {
    Addressable(q.file.content) && Addressable(q.file.mode) && Addressable(q.options) && Addressable(abi)
  }

  function KeyInput(abi: seq<byte>, q: Question): seq<byte> {
    FactInput(q.file.content, q.file.mode, q.options, abi)
  }

  /** `facts::key` */
  function Key(sha: Hash, abi: seq<byte>, q: Question): Digest {
    FactKey(sha, q.file.content, q.file.mode, q.options, abi)
  }

  function Uncached<F>(analyze: Analyzer<F>, q: Question): Outcome<F> {
    analyze(q.file, q.options)
  }

  /** The questions that arise while the cache is in use: the hash does not collide on their keys. */
  ghost predicate NoClash(sha: Hash, abi: seq<byte>, known: set<Question>) {
    && (forall q :: q in known ==> Storable(q, abi))
    && (forall q, r :: q in known && r in known ==> Distinguishes(sha, KeyInput(abi, q), KeyInput(abi, r)))
  }

  lemma SameKey(sha: Hash, abi: seq<byte>, known: set<Question>, q: Question, r: Question)
    requires NoClash(sha, abi, known) && q in known && r in known
    ensures Key(sha, abi, q) == Key(sha, abi, r) <==> q == r
  {
    FactKeyInjective(sha, q.file.content, q.file.mode, q.options, abi, r.file.content, r.file.mode, r.options, abi);
  }

  // The memory cache.

  /** Every stored fact is what analysis yields for the questions of its key. */
  ghost predicate Agrees<F(!new)>(entries: map<Digest, (F, nat)>, sha: Hash, abi: seq<byte>, analyze: Analyzer<F>,
                                  known: set<Question>)
  {
    forall q :: q in known && Key(sha, abi, q) in entries ==> Uncached(analyze, q) == Loaded(entries[Key(sha, abi, q)].0)
  }

  lemma AgreesAfterInsert<F(!new)>(entries: map<Digest, (F, nat)>, now: map<Digest, (F, nat)>, sha: Hash, abi: seq<byte>,
                                   analyze: Analyzer<F>, known: set<Question>, q: Question, facts: F)
    requires Agrees(entries, sha, abi, analyze, known) && NoClash(sha, abi, known) && q in known
    requires Uncached(analyze, q) == Loaded(facts)
    requires forall k :: k in now ==> (k == Key(sha, abi, q) && now[k].0 == facts) || (k in entries && now[k] == entries[k])
    ensures Agrees(now, sha, abi, analyze, known)
  {
    hide NoClash;
    forall r | r in known && Key(sha, abi, r) in now ensures Uncached(analyze, r) == Loaded(now[Key(sha, abi, r)].0) {
      SameKey(sha, abi, known, q, r);
    }
  }

  // The on-disk cache.

  /** Every payload that a read would accept is the encoding of what analysis yields for the
      questions of its key. */
  ghost predicate Trusted<F(!new)>(files: Files, codec: Codec<F>, sha: Hash, abi: seq<byte>, analyze: Analyzer<F>,
                                   known: set<Question>)
  {
    forall q :: q in known ==> Right(PayloadAt(sha, files, Key(sha, abi, q)), codec, Uncached(analyze, q))
  }

  ghost predicate Right<F(!new)>(payload: Option<seq<byte>>, codec: Codec<F>, outcome: Outcome<F>) {
    payload.Some? ==> outcome.Loaded? && payload.value == codec.encode(outcome.facts)
  }

  lemma TrustedAfterPut<F(!new)>(files: Files, codec: Codec<F>, sha: Hash, abi: seq<byte>, analyze: Analyzer<F>,
                                 known: set<Question>, q: Question)
    requires Trusted(files, codec, sha, abi, analyze, known) && FixedWidth(sha) && NoClash(sha, abi, known) && q in known
    requires Uncached(analyze, q).Loaded? && |codec.encode(Uncached(analyze, q).facts)| <= MAX_ENTRY_BYTES
    ensures var key := Key(sha, abi, q);
            var payload := codec.encode(Uncached(analyze, q).facts);
            var now := files[key := Encode(sha, key, payload)];
            Trusted(now, codec, sha, abi, analyze, known) && PayloadAt(sha, now, key) == Some(payload)
  {
    hide Encode, ReadPayload, NoClash, Uncached;
    var key, payload := Key(sha, abi, q), codec.encode(Uncached(analyze, q).facts);
    var now := files[key := Encode(sha, key, payload)];
    WriteThenRead(sha, key, payload);
    forall r | r in known ensures Right(PayloadAt(sha, now, Key(sha, abi, r)), codec, Uncached(analyze, r)) {
      assert Right(PayloadAt(sha, files, Key(sha, abi, r)), codec, Uncached(analyze, r));
      SameKey(sha, abi, known, q, r);
    }
  }

  // The disk along a run of the publication protocol.

  /** The disk is as the protocol state says, at the keys of these questions. */
  ghost predicate Reflects(files: Files, s: DiskProtocol.Shard, sha: Hash, abi: seq<byte>, known: set<Question>) {
    forall q :: q in known ==> PayloadAt(sha, files, Key(sha, abi, q)) == DiskProtocol.Read(s, Key(sha, abi, q))
  }

  /** The run starts with right facts and no writer, and its writers write what analysis yields. */
  ghost predicate HonestRun<F(!new)>(states: seq<DiskProtocol.Shard>, events: seq<DiskProtocol.Event>, codec: Codec<F>,
                                     sha: Hash, abi: seq<byte>, analyze: Analyzer<F>, known: set<Question>)
  {
    && DiskProtocol.IsRun(states, events) && states[0].writers == map[] && states[0].lock == None
    && (forall q :: q in known ==>
          Right(DiskProtocol.Read(states[0], Key(sha, abi, q)), codec, Uncached(analyze, q)))
    && (forall i, q :: 0 <= i < |events| && q in known && events[i].Begin? && events[i].key == Key(sha, abi, q) ==>
          Right(Some(events[i].payload), codec, Uncached(analyze, q)))
  }

  /** Whatever the interleaving, faults, crashes, evictions and damage, the disk is to be trusted in
      every state of such a run. */
  lemma RunKeepsTrust<F(!new)>(states: seq<DiskProtocol.Shard>, events: seq<DiskProtocol.Event>, n: nat, files: Files,
                               codec: Codec<F>, sha: Hash, abi: seq<byte>, analyze: Analyzer<F>, known: set<Question>)
    requires HonestRun(states, events, codec, sha, abi, analyze, known)
    requires n < |states| && Reflects(files, states[n], sha, abi, known)
    ensures Trusted(files, codec, sha, abi, analyze, known)
  {
    hide DiskProtocol.IsRun;
    hide Key, Uncached;
    DiskProtocol.RunShape(states, events);
    forall q | q in known ensures Right(PayloadAt(sha, files, Key(sha, abi, q)), codec, Uncached(analyze, q)) {
      var outcome := Uncached(analyze, q);
      var allowed := (p: seq<byte>) => outcome.Loaded? && p == codec.encode(outcome.facts);
      assert Right(DiskProtocol.Read(states[0], Key(sha, abi, q)), codec, outcome);
      DiskProtocol.ReadersSeeAllowed(states, events, Key(sha, abi, q), allowed, n);
    }
  }

  /** The hypotheses can be met: for every hash of the right width, any one question, an empty disk and
      the run that has not begun. */
  lemma HypothesesMet<F(!new)>(codec: Codec<F>, sha: Hash, abi: seq<byte>, analyze: Analyzer<F>, q: Question)
    requires FixedWidth(sha) && Storable(q, abi)
    ensures var start := DiskProtocol.Shard(map[], None, map[]);
            && NoClash(sha, abi, {q}) && HonestRun([start], [], codec, sha, abi, analyze, {q})
            && Reflects(map[], start, sha, abi, {q})
  {
  }

  // Either cache.

  datatype Cache<!F(==, !new)> =
    | InMemory(memory: MemoryFactCache<Digest, F>)
    | OnDisk(disk: PersistentFactCache<F>)

  function Footprint<F(==, !new)>(cache: Cache<F>): set<object> {
    match cache
    case InMemory(memory) => {memory}
    case OnDisk(disk) => {disk}
  }

  /** The cache holds nothing that analysis would contradict. */
  ghost predicate Faithful<F(!new)>(cache: Cache<F>, sha: Hash, abi: seq<byte>, analyze: Analyzer<F>, known: set<Question>)
    reads Footprint(cache)
  {
    match cache
    case InMemory(memory) => memory.Valid() && Agrees(memory.entries, sha, abi, analyze, known)
    case OnDisk(disk) =>
      disk.sha == sha && FixedWidth(sha) && Lossless(disk.codec)
      && Trusted(disk.files, disk.codec, sha, abi, analyze, known)
  }

  /** The cache holds this fact under this key. */
  ghost predicate Holds<F(!new)>(cache: Cache<F>, key: Digest, facts: F)
    reads Footprint(cache)
  {
    match cache
    case InMemory(memory) => key in memory.entries && memory.entries[key].0 == facts
    case OnDisk(disk) => PayloadAt(disk.sha, disk.files, key) == Some(disk.codec.encode(facts))
  }

  /** The fact is within the size that the cache takes, and publication does not fail. */
  ghost predicate Takes<F(!new)>(cache: Cache<F>, facts: F, weather: Weather) {
    match cache
    case InMemory(memory) => memory.size(facts) <= MAX_BYTES
    case OnDisk(disk) => |disk.codec.encode(facts)| <= MAX_ENTRY_BYTES && weather.published
  }

  ghost predicate CanRead<F(!new)>(cache: Cache<F>, weather: Weather) {
    cache.InMemory? || weather.readable
  }

  ghost function Hits<F(!new)>(cache: Cache<F>): nat
    reads Footprint(cache)
  {
    match cache
    case InMemory(memory) => memory.hits
    case OnDisk(disk) => disk.hits
  }

  ghost function Misses<F(!new)>(cache: Cache<F>): nat
    reads Footprint(cache)
  {
    match cache
    case InMemory(memory) => memory.misses
    case OnDisk(disk) => disk.misses
  }

  /** What the file system does with the read and with the publication; memory never fails. */
  datatype Weather = Weather(readable: bool, published: bool)

  method Lookup<F(==, !new)>(cache: Cache<F>, key: Digest, weather: Weather, sha: Hash, abi: seq<byte>,
                             analyze: Analyzer<F>, q: Question, ghost known: set<Question>)
    returns (got: Got<F>)
    requires Faithful(cache, sha, abi, analyze, known) && q in known && key == Key(sha, abi, q)
    modifies Footprint(cache)
    ensures Faithful(cache, sha, abi, analyze, known)
    ensures got.Hit? ==> Uncached(analyze, q) == Loaded(got.facts) && Holds(cache, key, got.facts)
    ensures CanRead(cache, weather) && old(exists f: F :: Holds(cache, key, f)) ==> got.Hit?
    ensures Hits(cache) == old(Hits(cache)) + (if got.Hit? then 1 else 0)
    ensures Misses(cache) == old(Misses(cache)) + (if got.Miss? then 1 else 0)
    ensures CanRead(cache, weather) ==> !got.Unreadable?
  {
    hide Key, Uncached;
    match cache {
      case InMemory(memory) =>
        var found := memory.Get(key);
        got := if found.Some? then Hit(found.value) else Miss;
      case OnDisk(disk) =>
        got := disk.Get(key, weather.readable);
        assert Right(PayloadAt(sha, disk.files, key), disk.codec, Uncached(analyze, q));
    }
  }

  method Remember<F(==, !new)>(cache: Cache<F>, key: Digest, facts: F, weather: Weather, sha: Hash, abi: seq<byte>,
                               analyze: Analyzer<F>, q: Question, ghost known: set<Question>)
    returns (stored: Stored)
    requires Faithful(cache, sha, abi, analyze, known) && NoClash(sha, abi, known) && q in known
    requires key == Key(sha, abi, q) && Uncached(analyze, q) == Loaded(facts)
    modifies Footprint(cache)
    ensures Faithful(cache, sha, abi, analyze, known) && stored != Conflict
    ensures Takes(cache, facts, weather) ==> Holds(cache, key, facts)
    ensures Hits(cache) == old(Hits(cache)) && Misses(cache) == old(Misses(cache))
  {
    hide NoClash, Key, Uncached;
    match cache {
      case InMemory(memory) => stored := RememberInMemory(memory, key, facts, sha, abi, analyze, q, known);
      case OnDisk(disk) => stored := RememberOnDisk(disk, key, facts, weather, sha, abi, analyze, q, known);
    }
  }

  method RememberInMemory<F(==, !new)>(memory: MemoryFactCache<Digest, F>, key: Digest, facts: F, sha: Hash, abi: seq<byte>,
                                       analyze: Analyzer<F>, q: Question, ghost known: set<Question>)
    returns (stored: Stored)
    requires memory.Valid() && Agrees(memory.entries, sha, abi, analyze, known) && NoClash(sha, abi, known) && q in known
    requires key == Key(sha, abi, q) && Uncached(analyze, q) == Loaded(facts)
    modifies memory
    ensures memory.Valid() && Agrees(memory.entries, sha, abi, analyze, known) && stored != Conflict
    ensures memory.size(facts) <= MAX_BYTES ==> key in memory.entries && memory.entries[key].0 == facts
    ensures memory.hits == old(memory.hits) && memory.misses == old(memory.misses)
  {
    hide NoClash, Key, Uncached;
    ghost var entries := memory.entries;
    var deterministic := memory.Put(key, facts);
    AgreesAfterInsert(entries, memory.entries, sha, abi, analyze, known, q, facts);
    stored := if deterministic then Kept else Conflict;
  }

  method RememberOnDisk<F(==, !new)>(disk: PersistentFactCache<F>, key: Digest, facts: F, weather: Weather, sha: Hash,
                                     abi: seq<byte>, analyze: Analyzer<F>, q: Question, ghost known: set<Question>)
    returns (stored: Stored)
    requires disk.sha == sha && FixedWidth(sha) && Trusted(disk.files, disk.codec, sha, abi, analyze, known)
    requires NoClash(sha, abi, known) && q in known
    requires key == Key(sha, abi, q) && Uncached(analyze, q) == Loaded(facts)
    modifies disk
    ensures Trusted(disk.files, disk.codec, sha, abi, analyze, known) && stored != Conflict
    ensures |disk.codec.encode(facts)| <= MAX_ENTRY_BYTES && weather.published ==>
              PayloadAt(disk.sha, disk.files, key) == Some(disk.codec.encode(facts))
    ensures disk.hits == old(disk.hits) && disk.misses == old(disk.misses)
  {
    hide NoClash, FixedWidth, Encode, ReadPayload, Key, Uncached;
    assert Right(PayloadAt(sha, disk.files, key), disk.codec, Uncached(analyze, q));
    if |disk.codec.encode(facts)| <= MAX_ENTRY_BYTES {
      TrustedAfterPut(disk.files, disk.codec, sha, abi, analyze, known, q);
    }
    stored := disk.Put(key, facts, weather.published);
  }

  /** `load`: whichever the cache, whatever it holds, evicts or fails to do, the outcome is
      cancellation or the uncached analysis, and it is the latter when cancellation is not observed. */
  method Load<F(==, !new)>(sha: Hash, abi: seq<byte>, analyze: Analyzer<F>, cache: Cache<F>, weather: Weather,
                           q: Question, cancel: Observed, ghost known: set<Question>) returns (outcome: Outcome<F>)
    requires NoClash(sha, abi, known) && q in known && Faithful(cache, sha, abi, analyze, known)
    modifies Footprint(cache)
    ensures Faithful(cache, sha, abi, analyze, known)
    ensures outcome == Cancelled || outcome == Uncached(analyze, q)
    ensures cancel == NEVER ==> outcome == Uncached(analyze, q)
    ensures cancel.atEntry ==> outcome == Cancelled
    ensures outcome.Loaded? && Takes(cache, outcome.facts, weather) ==> Holds(cache, Key(sha, abi, q), outcome.facts)
    ensures CanRead(cache, weather) && !cancel.atEntry && old(exists f: F :: Holds(cache, Key(sha, abi, q), f)) ==>
              Hits(cache) == old(Hits(cache)) + 1 && Misses(cache) == old(Misses(cache))
    ensures Hits(cache) >= old(Hits(cache)) && Misses(cache) <= old(Misses(cache)) + 1
  {
    hide Faithful, NoClash, Key, Holds, Takes;
    if cancel.atEntry {
      return Cancelled;
    }
    var key := Key(sha, abi, q);
    var got := Lookup(cache, key, weather, sha, abi, analyze, q, known);
    if got.Hit? {
      if cancel.afterHit {
        return Cancelled;
      }
      return Loaded(got.facts);
    }
    if cancel.duringAnalysis {
      return Cancelled;
    }
    outcome := analyze(q.file, q.options);
    if !outcome.Loaded? {
      return outcome;
    }
    var stored := Remember(cache, key, outcome.facts, weather, sha, abi, analyze, q, known);
    if stored == Conflict {
      return Failed(NONDETERMINISTIC);
    }
  }

  /** A file is analyzed once: after a load that succeeds, and unless the fact is too large or cannot be
      published, the next load of the same question hits and yields the same fact. */
  method LoadTwice<F(==, !new)>(sha: Hash, abi: seq<byte>, analyze: Analyzer<F>, cache: Cache<F>, first: Weather,
                                second: Weather, q: Question, ghost known: set<Question>)
    returns (outcome: Outcome<F>, again: Outcome<F>)
    requires NoClash(sha, abi, known) && q in known && Faithful(cache, sha, abi, analyze, known)
    modifies Footprint(cache)
    ensures Faithful(cache, sha, abi, analyze, known) && again == outcome == Uncached(analyze, q)
    ensures outcome.Loaded? && Takes(cache, outcome.facts, first) && CanRead(cache, second) ==>
              Hits(cache) > old(Hits(cache)) && Misses(cache) <= old(Misses(cache)) + 1
  {
    hide Faithful, NoClash, Key, Takes;
    outcome := Load(sha, abi, analyze, cache, first, q, NEVER, known);
    again := Load(sha, abi, analyze, cache, second, q, NEVER, known);
  }

  function Asked(questions: seq<Question>): set<Question> {
    set i | 0 <= i < |questions| :: questions[i]
  }

  method EmptyCache<F(==, !new)>(sha: Hash, abi: seq<byte>, analyze: Analyzer<F>, size: F -> nat, ghost known: set<Question>)
    returns (cache: Cache<F>)
    ensures cache.InMemory? && fresh(cache.memory) && Faithful(cache, sha, abi, analyze, known)
  {
    hide MemoryFactCache.Valid;
    var memory := new MemoryFactCache<Digest, F>(size);
    cache := InMemory(memory);
  }

  /** Any sequence of loads through one memory cache yields the uncached analyses, in order, unless
      the hash collides on two of the keys. */
  method LoadAll<F(==, !new)>(sha: Hash, abi: seq<byte>, analyze: Analyzer<F>, size: F -> nat, questions: seq<Question>)
    returns (outcomes: seq<Outcome<F>>)
    requires NoClash(sha, abi, Asked(questions))
    ensures |outcomes| == |questions|
    ensures forall i :: 0 <= i < |questions| ==> outcomes[i] == Uncached(analyze, questions[i])
  {
    hide Faithful, NoClash, Uncached;
    ghost var known := Asked(questions);
    var cache := EmptyCache(sha, abi, analyze, size, known);
    outcomes := [];
    for i := 0 to |questions|
      invariant cache.InMemory? && fresh(cache.memory) && Faithful(cache, sha, abi, analyze, known)
      invariant |outcomes| == i && forall j :: 0 <= j < i ==> outcomes[j] == Uncached(analyze, questions[j])
    {
      var outcome := Load(sha, abi, analyze, cache, Weather(true, true), questions[i], NEVER, known);
      outcomes := outcomes + [outcome];
    }
  }

  /** Any sequence of loads through the disk cache yields them too, with other processes at work: the
      disk that each load meets is that of some state of a run of the publication protocol, and reads
      and publications may fail. */
  method LoadAllFromDisk<F(==, !new)>(sha: Hash, abi: seq<byte>, analyze: Analyzer<F>, codec: Codec<F>,
                                      questions: seq<Question>, disks: seq<Files>, weather: seq<Weather>,
                                      ghost states: seq<DiskProtocol.Shard>, ghost events: seq<DiskProtocol.Event>,
                                      ghost at: seq<nat>)
    returns (outcomes: seq<Outcome<F>>)
    requires FixedWidth(sha) && Lossless(codec) && NoClash(sha, abi, Asked(questions))
    requires |disks| == |weather| == |at| == |questions|
    requires HonestRun(states, events, codec, sha, abi, analyze, Asked(questions))
    requires forall i :: 0 <= i < |disks| ==> at[i] < |states| && Reflects(disks[i], states[at[i]], sha, abi, Asked(questions))
    ensures |outcomes| == |questions|
    ensures forall i :: 0 <= i < |questions| ==> outcomes[i] == Uncached(analyze, questions[i])
  {
    hide Trusted, NoClash, FixedWidth, Lossless, HonestRun, Reflects, Uncached;
    ghost var known := Asked(questions);
    var disk := new PersistentFactCache<F>(sha, codec, map[]);
    var cache := OnDisk(disk);
    outcomes := [];
    for i := 0 to |questions|
      invariant fresh(disk) && disk.sha == sha && disk.codec == codec
      invariant |outcomes| == i && forall j :: 0 <= j < i ==> outcomes[j] == Uncached(analyze, questions[j])
    {
      disk.Interfere(disks[i]);
      RunKeepsTrust(states, events, at[i], disks[i], codec, sha, abi, analyze, known);
      var outcome := Load(sha, abi, analyze, cache, weather[i], questions[i], NEVER, known);
      outcomes := outcomes + [outcome];
    }
  }
}

/** The on-disk fact cache as one process sees it: its shard files may be anything, and other
    processes and the file system decide what becomes of a read or a publication. */
module PersistentCache {
  import opened Bytes
  import opened Collections
  import opened DigestFraming
  import opened FactFile

  datatype Got<+F> = Hit(facts: F) | Miss | Unreadable

  datatype Stored = Kept | Conflict | NotStored

  /** Serialization of facts. */
  datatype Codec<!F> = Codec(encode: F -> seq<byte>, decode: seq<byte> -> Option<F>)

  ghost predicate Lossless<F(!new)>(codec: Codec<F>) {
    forall f: F :: codec.decode(codec.encode(f)) == Some(f)
  }

  type Files = map<Digest, seq<byte>>

  /** The payload that a read of this key accepts. */
  function PayloadAt(sha: Hash, files: Files, key: Digest): Option<seq<byte>> {
    if key in files then ReadPayload(sha, files[key], key) else None
  }

  class PersistentFactCache<F(==, !new)> {
    const sha: Hash
    const codec: Codec<F>
    var files: Files
    var hits: nat
    var misses: nat

    constructor (sha: Hash, codec: Codec<F>, files: Files)
      ensures this.sha == sha && this.codec == codec && this.files == files && hits == misses == 0
    {
      this.sha, this.codec, this.files, hits, misses := sha, codec, files, 0, 0;
    }

    /** A read fails, finds no valid fact, or finds one. */
    method Get(key: Digest, readable: bool) returns (got: Got<F>)
      modifies this`hits, this`misses
      ensures got == (if !readable then Unreadable
                      else match PayloadAt(sha, files, key)
                           case None => Miss
                           case Some(p) => if codec.decode(p).Some? then Hit(codec.decode(p).value) else Miss)
      ensures hits == old(hits) + (if got.Hit? then 1 else 0)
      ensures misses == old(misses) + (if got.Miss? then 1 else 0)
    {
      if !readable {
        return Unreadable;
      }
      var payload := PayloadAt(sha, files, key);
      if payload.Some? && codec.decode(payload.value).Some? {
        hits := hits + 1;
        return Hit(codec.decode(payload.value).value);
      }
      misses := misses + 1;
      got := Miss;
    }

    /** A valid fact that is already there decides; otherwise the fact is published, unless it is too
        large or publication fails. */
    method Put(key: Digest, facts: F, published: bool) returns (stored: Stored)
      modifies this`files
      ensures var payload, existing := codec.encode(facts), PayloadAt(sha, old(files), key);
              && stored == (if |payload| > MAX_ENTRY_BYTES then NotStored
                            else if existing.Some? then (if existing.value == payload then Kept else Conflict)
                            else if published then Kept else NotStored)
              && files == (if |payload| <= MAX_ENTRY_BYTES && existing.None? && published
                           then old(files)[key := Encode(sha, key, payload)] else old(files))
    {
      var payload := codec.encode(facts);
      if |payload| > MAX_ENTRY_BYTES {
        return NotStored;
      }
      var existing := PayloadAt(sha, files, key);
      if existing.Some? {
        return if existing.value == payload then Kept else Conflict;
      }
      if published {
        files := files[key := Encode(sha, key, payload)];
        return Kept;
      }
      stored := NotStored;
    }

    /** Other processes publish, collect and repair, and files are damaged: the disk may hold anything
        afterwards. */
    method Interfere(now: Files)
      modifies this`files
      ensures files == now
    {
      files := now;
    }
  }
}

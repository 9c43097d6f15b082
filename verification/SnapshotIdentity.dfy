/** The identity of a source snapshot: the digest of its manifest. */
module SnapshotIdentity {
  import opened Bytes
  import opened DigestFraming

  const DIGEST_BYTES: nat := 32

  datatype Language = JavaScript | TypeScript | Rust | Python | Go | Hcl | Shell | Protobuf

  datatype Entry = Entry(path: seq<byte>, language: Language, mode: seq<byte>, content: Digest)

  function LanguageName(l: Language): (s: seq<byte>)
    ensures 0 < |s| < 16
  {
    match l
    case JavaScript => [106, 97, 118, 97, 115, 99, 114, 105, 112, 116]
    case TypeScript => [116, 121, 112, 101, 115, 99, 114, 105, 112, 116]
    case Rust => [114, 117, 115, 116]
    case Python => [112, 121, 116, 104, 111, 110]
    case Go => [103, 111]
    case Hcl => [104, 99, 108]
    case Shell => [115, 104, 101, 108, 108]
    case Protobuf => [112, 114, 111, 116, 111, 98, 117, 102]
  }

  lemma LanguageNameInjective(a: Language, b: Language)
    requires LanguageName(a) == LanguageName(b)
    ensures a == b
  {
    assert LanguageName(a)[0] == LanguageName(b)[0];
    assert |LanguageName(a)| == |LanguageName(b)|;
  }

  ghost predicate Storable(e: Entry) {
    Addressable(e.path) && Addressable(e.mode) && |e.content| == DIGEST_BYTES
  }

  function EntryBytes(e: Entry): seq<byte> {
    Field(e.path) + Field(LanguageName(e.language)) + Field(e.mode) + e.content
  }

  function Manifest(files: seq<Entry>): seq<byte> {
    if files == [] then [] else Manifest(files[..|files| - 1]) + EntryBytes(files[|files| - 1])
  }

  lemma Regroup(a: seq<byte>, b: seq<byte>, c: seq<byte>, d: seq<byte>, x: seq<byte>)
    ensures a + b + c + d + x == a + (b + (c + (d + x)))
  {
  }

  /** An entry can be split off the front of a manifest in one way only. */
  lemma EntrySplits(a: Entry, x: seq<byte>, b: Entry, y: seq<byte>)
    requires Storable(a) && Storable(b)
    requires EntryBytes(a) + x == EntryBytes(b) + y
    ensures a == b && x == y
  {
    hide Field;
    hide LanguageName;
    Ranges();
    var nameA, nameB := LanguageName(a.language), LanguageName(b.language);
    var tailA, tailB := a.content + x, b.content + y;
    var midA, midB := Field(a.mode) + tailA, Field(b.mode) + tailB;
    var restA, restB := Field(nameA) + midA, Field(nameB) + midB;
    Regroup(Field(a.path), Field(nameA), Field(a.mode), a.content, x);
    Regroup(Field(b.path), Field(nameB), Field(b.mode), b.content, y);
    FieldSplits(a.path, restA, b.path, restB);
    FieldSplits(nameA, midA, nameB, midB);
    FieldSplits(a.mode, tailA, b.mode, tailB);
    assert tailA[..DIGEST_BYTES] == a.content && tailB[..DIGEST_BYTES] == b.content;
    assert tailA[DIGEST_BYTES..] == x && tailB[DIGEST_BYTES..] == y;
    LanguageNameInjective(a.language, b.language);
  }

  lemma ManifestSnoc(files: seq<Entry>)
    requires files != []
    ensures Manifest(files) == Manifest(files[..|files| - 1]) + EntryBytes(files[|files| - 1])
  {
  }

  lemma EntryNotEmpty(files: seq<Entry>)
    ensures files != [] ==> EntryBytes(files[0]) != []
    ensures files == [] ==> Manifest(files) == []
  {
  }

  lemma {:induction false} ManifestCons(files: seq<Entry>)
    requires files != []
    ensures Manifest(files) == EntryBytes(files[0]) + Manifest(files[1..])
  {
    hide EntryBytes;
    var n := |files| - 1;
    if n == 0 {
      assert files[..n] == [] && files[1..] == [];
    } else {
      ManifestCons(files[..n]);
      var tail := files[1..];
      assert files[..n][1..] == tail[..n - 1] && tail[n - 1] == files[n];
      ManifestSnoc(tail);
      ManifestSnoc(files);
    }
  }

  /** Manifests are uniquely decodable. */
  lemma {:induction false} ManifestInjective(a: seq<Entry>, b: seq<Entry>)
    requires forall e :: e in a ==> Storable(e)
    requires forall e :: e in b ==> Storable(e)
    requires Manifest(a) == Manifest(b)
    ensures a == b
  {
    hide EntryBytes, Storable, Manifest;
    EntryNotEmpty(a);
    EntryNotEmpty(b);
    if a == [] || b == [] {
      if a != [] {
        ManifestCons(a);
      }
      if b != [] {
        ManifestCons(b);
      }
    } else {
      ManifestCons(a);
      ManifestCons(b);
      EntrySplits(a[0], Manifest(a[1..]), b[0], Manifest(b[1..]));
      ManifestInjective(a[1..], b[1..]);
      assert a == [a[0]] + a[1..] && b == [b[0]] + b[1..];
    }
  }

  /** "source-snapshot/v2" */
  const SOURCE_SNAPSHOT: seq<byte> := [115, 111, 117, 114, 99, 101, 45, 115, 110, 97, 112, 115, 104, 111, 116, 47, 118, 50]

  /** `SourceSnapshot::new`: hashes the manifest of the files, listed by path. */
  method SnapshotId(sha: Hash, files: seq<Entry>) returns (id: Digest)
    ensures id == sha(Framed(SOURCE_SNAPSHOT, [Manifest(files)]))
  {
    var manifest: seq<byte> := [];
    for i := 0 to |files|
      invariant manifest == Manifest(files[..i])
    {
      var file := files[i];
      assert files[..i + 1][..i] == files[..i];
      var name := LanguageName(file.language);
      manifest := manifest + (Field(file.path) + Field(name) + Field(file.mode) + file.content);
    }
    assert files[..|files|] == files;
    id := HashDomain(sha, SOURCE_SNAPSHOT, [manifest]);
  }

  /** Unless the hash collides on their manifests, two snapshots have one identity exactly when they
      list the same paths, languages, modes and contents. */
  lemma SnapshotIdentifiesFiles(sha: Hash, a: seq<Entry>, b: seq<Entry>)
    requires Distinguishes(sha, Framed(SOURCE_SNAPSHOT, [Manifest(a)]), Framed(SOURCE_SNAPSHOT, [Manifest(b)]))
    requires forall e :: e in a ==> Storable(e)
    requires forall e :: e in b ==> Storable(e)
    requires Addressable(Manifest(a)) && Addressable(Manifest(b))
    ensures sha(Framed(SOURCE_SNAPSHOT, [Manifest(a)])) == sha(Framed(SOURCE_SNAPSHOT, [Manifest(b)])) <==> a == b
  {
    if sha(Framed(SOURCE_SNAPSHOT, [Manifest(a)])) == sha(Framed(SOURCE_SNAPSHOT, [Manifest(b)])) {
      Ranges();
      FramedInjective(SOURCE_SNAPSHOT, [Manifest(a)], SOURCE_SNAPSHOT, [Manifest(b)]);
      assert [Manifest(a)][0] == [Manifest(b)][0];
      ManifestInjective(a, b);
    }
  }
}

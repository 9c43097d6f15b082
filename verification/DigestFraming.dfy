/** Length-prefixed framing of everything that is hashed: digests of framed values identify the
    values, given that the underlying hash does not collide. */
module DigestFraming {
  import opened Bytes

  /** Lengths are written in eight bytes. */
  const LENGTH_BYTES: nat := 8

  type Digest = seq<byte>

  /** The SHA-256 function, left abstract. */
  type Hash = seq<byte> -> Digest

  /** The two inputs do not collide. */
  ghost predicate Distinguishes(sha: Hash, a: seq<byte>, b: seq<byte>) {
    sha(a) == sha(b) ==> a == b
  }

  /** Every byte string held in memory has a length below 2^64. */
  ghost predicate Addressable(s: seq<byte>) {
    |s| < Range256(LENGTH_BYTES)
  }

  function Field(s: seq<byte>): seq<byte> {
    BigEndian(|s|, LENGTH_BYTES) + s
  }

  /** A field can be split off the front of a string in one way only. */
  lemma FieldSplits(a: seq<byte>, x: seq<byte>, b: seq<byte>, y: seq<byte>)
    requires Addressable(a) && Addressable(b)
    requires Field(a) + x == Field(b) + y
    ensures a == b && x == y
  {
    var left, right := Field(a) + x, Field(b) + y;
    assert left[..LENGTH_BYTES] == BigEndian(|a|, LENGTH_BYTES);
    assert right[..LENGTH_BYTES] == BigEndian(|b|, LENGTH_BYTES);
    BigEndianInjective(|a|, |b|, LENGTH_BYTES);
    assert left[LENGTH_BYTES..][..|a|] == a && right[LENGTH_BYTES..][..|b|] == b;
    assert left[LENGTH_BYTES..][|a|..] == x && right[LENGTH_BYTES..][|b|..] == y;
  }

  /** "opcore" and a zero byte */
  const PRODUCT: seq<byte> := [111, 112, 99, 111, 114, 101, 0]

  function Fields(parts: seq<seq<byte>>): seq<byte> {
    if parts == [] then [] else Fields(parts[..|parts| - 1]) + Field(parts[|parts| - 1])
  }

  /** What `hash_domain` feeds to the hash. */
  function Framed(domain: seq<byte>, parts: seq<seq<byte>>): seq<byte> {
    PRODUCT + Field(domain) + Fields(parts)
  }

  /** `hash_domain` */
  method HashDomain(sha: Hash, domain: seq<byte>, parts: seq<seq<byte>>) returns (digest: Digest)
    ensures digest == sha(Framed(domain, parts))
  {
    var fed := PRODUCT;
    fed := fed + BigEndian(|domain|, LENGTH_BYTES);
    fed := fed + domain;
    ghost var head := PRODUCT + Field(domain);
    assert fed == head;
    for i := 0 to |parts|
      invariant fed == head + Fields(parts[..i])
    {
      assert parts[..i + 1][..i] == parts[..i];
      fed := fed + BigEndian(|parts[i]|, LENGTH_BYTES);
      fed := fed + parts[i];
      assert fed == head + (Fields(parts[..i]) + Field(parts[i]));
    }
    assert parts[..|parts|] == parts;
    digest := sha(fed);
  }

  lemma FieldsSnoc(parts: seq<seq<byte>>)
    requires parts != []
    ensures Fields(parts) == Fields(parts[..|parts| - 1]) + Field(parts[|parts| - 1])
  {
  }

  lemma {:induction false} FieldsCons(parts: seq<seq<byte>>)
    requires parts != []
    ensures Fields(parts) == Field(parts[0]) + Fields(parts[1..])
  {
    hide Field;
    var n := |parts| - 1;
    if n == 0 {
      assert parts[..n] == [] && parts[1..] == [];
    } else {
      FieldsCons(parts[..n]);
      var tail := parts[1..];
      assert parts[..n][1..] == tail[..n - 1] && tail[n - 1] == parts[n];
      FieldsSnoc(tail);
      FieldsSnoc(parts);
    }
  }

  lemma {:induction false} FieldsInjective(a: seq<seq<byte>>, b: seq<seq<byte>>)
    requires forall p :: p in a ==> Addressable(p)
    requires forall p :: p in b ==> Addressable(p)
    requires Fields(a) == Fields(b)
    ensures a == b
  {
    if a == [] || b == [] {
      if a != [] {
        FieldsCons(a);
      }
      if b != [] {
        FieldsCons(b);
      }
    } else {
      FieldsCons(a);
      FieldsCons(b);
      FieldSplits(a[0], Fields(a[1..]), b[0], Fields(b[1..]));
      FieldsInjective(a[1..], b[1..]);
      assert a == [a[0]] + a[1..] && b == [b[0]] + b[1..];
    }
  }

  /** The framing is uniquely decodable: equal frames have equal domains and equal parts. */
  lemma FramedInjective(domain: seq<byte>, parts: seq<seq<byte>>, other: seq<byte>, others: seq<seq<byte>>)
    requires Addressable(domain) && Addressable(other)
    requires forall p :: p in parts ==> Addressable(p)
    requires forall p :: p in others ==> Addressable(p)
    requires Framed(domain, parts) == Framed(other, others)
    ensures domain == other && parts == others
  {
    hide Field;
    var left, right := Framed(domain, parts), Framed(other, others);
    assert left[|PRODUCT|..] == Field(domain) + Fields(parts);
    assert right[|PRODUCT|..] == Field(other) + Fields(others);
    FieldSplits(domain, Fields(parts), other, Fields(others));
    FieldsInjective(parts, others);
  }

  /** "file-fact/v1" */
  const FILE_FACT: seq<byte> := [102, 105, 108, 101, 45, 102, 97, 99, 116, 47, 118, 49]

  function FactInput(content: Digest, mode: seq<byte>, options: seq<byte>, abi: seq<byte>): seq<byte> {
    Framed(FILE_FACT, [content, mode, options, abi])
  }

  /** `FileFactKey::new` */
  function FactKey(sha: Hash, content: Digest, mode: seq<byte>, options: seq<byte>, abi: seq<byte>): Digest {
    sha(FactInput(content, mode, options, abi))
  }

  /** Unless the hash collides on the two inputs concerned, a fact key identifies the content, the
      mode, the parser options and the fact ABI. */
  lemma FactKeyInjective(sha: Hash, content: Digest, mode: seq<byte>, options: seq<byte>, abi: seq<byte>,
                         content': Digest, mode': seq<byte>, options': seq<byte>, abi': seq<byte>)
    requires Distinguishes(sha, FactInput(content, mode, options, abi), FactInput(content', mode', options', abi'))
    requires Addressable(content) && Addressable(mode) && Addressable(options) && Addressable(abi)
    requires Addressable(content') && Addressable(mode') && Addressable(options') && Addressable(abi')
    ensures FactKey(sha, content, mode, options, abi) == FactKey(sha, content', mode', options', abi')
            <==> content == content' && mode == mode' && options == options' && abi == abi'
  {
    if FactKey(sha, content, mode, options, abi) == FactKey(sha, content', mode', options', abi') {
      var a, b := [content, mode, options, abi], [content', mode', options', abi'];
      Ranges();
      FramedInjective(FILE_FACT, a, FILE_FACT, b);
      assert content == a[0] && mode == a[1] && options == a[2] && abi == a[3];
      assert content' == b[0] && mode' == b[1] && options' == b[2] && abi' == b[3];
    }
  }
}

/** The self-validating file format of persisted facts. */
module FactFile {
  import opened Collections
  import opened Bytes
  import opened DigestFraming

  /** "OPZFACT" and a zero byte */
  const MAGIC: seq<byte> := [79, 80, 90, 70, 65, 67, 84, 0]
  const SCHEMA_VERSION: nat := 1
  const KEY_BYTES: nat := 32
  const CHECKSUM_BYTES: nat := 32
  const HEADER_BYTES: nat := 8 + 2 + 32 + 8 + 32
  const MAX_ENTRY_BYTES: nat := 16 * 1024 * 1024

  /** SHA-256 yields 32 bytes. */
  ghost predicate FixedWidth(sha: Hash) {
    forall s :: |sha(s)| == CHECKSUM_BYTES
  }

  /** `write_temporary_fact` */
  function Encode(sha: Hash, key: seq<byte>, payload: seq<byte>): seq<byte> {
    MAGIC + BigEndian(SCHEMA_VERSION, 2) + key + BigEndian(|payload|, 8) + sha(payload) + payload
  }

  /** `payload_length`: the length a header promises, if the header is for this version and key
      and the promise matches the file's length. */
  function PayloadLength(header: seq<byte>, fileLength: nat, key: seq<byte>): Option<nat>
    requires |header| == HEADER_BYTES
  {
    if FromBigEndian(header[8..10]) != SCHEMA_VERSION || header[10..42] != key then None
    else
      var length := FromBigEndian(header[42..50]);
      if length <= MAX_ENTRY_BYTES && fileLength == HEADER_BYTES + length then Some(length) else None
  }

  /** `read_payload` on an existing regular file. */
  function ReadPayload(sha: Hash, file: seq<byte>, key: seq<byte>): Option<seq<byte>> {
    if |file| < HEADER_BYTES || |file| > HEADER_BYTES + MAX_ENTRY_BYTES then None
    else
      var header := file[..HEADER_BYTES];
      if header[..8] != MAGIC then None
      else
        match PayloadLength(header, |file|, key)
        case None => None
        case Some(length) =>
          var payload := file[HEADER_BYTES..];
          if sha(payload) != header[50..82] then None else Some(payload)
  }

  /** Where the parts of an encoded file lie. */
  lemma EncodedParts(sha: Hash, key: seq<byte>, payload: seq<byte>)
    requires FixedWidth(sha) && |key| == KEY_BYTES
    ensures var f := Encode(sha, key, payload);
            && |f| == HEADER_BYTES + |payload|
            && f[..8] == MAGIC && f[8..10] == BigEndian(SCHEMA_VERSION, 2) && f[10..42] == key
            && f[42..50] == BigEndian(|payload|, 8) && f[50..82] == sha(payload) && f[82..] == payload
  {
    var a := MAGIC + BigEndian(SCHEMA_VERSION, 2);
    var b := a + key;
    var c := b + BigEndian(|payload|, 8);
    var d := c + sha(payload);
    assert Encode(sha, key, payload) == d + payload;
    assert |a| == 10 && |b| == 42 && |c| == 50 && |d| == 82;
  }

  /** A file of header size or more is the concatenation of its parts. */
  lemma FileParts(file: seq<byte>)
    requires |file| >= HEADER_BYTES
    ensures file == file[..8] + file[8..10] + file[10..42] + file[42..50] + file[50..82] + file[82..]
  {
  }

  /** Reading back what was written yields the payload. */
  lemma WriteThenRead(sha: Hash, key: seq<byte>, payload: seq<byte>)
    requires FixedWidth(sha) && |key| == KEY_BYTES && |payload| <= MAX_ENTRY_BYTES
    ensures ReadPayload(sha, Encode(sha, key, payload), key) == Some(payload)
  {
    Ranges();
    EncodedParts(sha, key, payload);
    DecodeEncode(SCHEMA_VERSION, 2);
    DecodeEncode(|payload|, 8);
    var f := Encode(sha, key, payload);
    var header := f[..HEADER_BYTES];
    assert header[..8] == f[..8] && header[8..10] == f[8..10] && header[10..42] == f[10..42];
    assert header[42..50] == f[42..50] && header[50..82] == f[50..82];
  }

  /** A file is accepted for a key, yielding a payload, exactly when it is byte for byte the
      encoding of that key and payload. */
  lemma AcceptedIffEncoded(sha: Hash, file: seq<byte>, key: seq<byte>, payload: seq<byte>)
    requires FixedWidth(sha) && |key| == KEY_BYTES
    ensures ReadPayload(sha, file, key) == Some(payload)
       <==> file == Encode(sha, key, payload) && |payload| <= MAX_ENTRY_BYTES
  {
    if file == Encode(sha, key, payload) && |payload| <= MAX_ENTRY_BYTES {
      WriteThenRead(sha, key, payload);
    }
    if ReadPayload(sha, file, key) == Some(payload) {
      var header := file[..HEADER_BYTES];
      assert header[..8] == file[..8] && header[8..10] == file[8..10] && header[10..42] == file[10..42];
      assert header[42..50] == file[42..50] && header[50..82] == file[50..82];
      EncodeDecode(file[8..10]);
      EncodeDecode(file[42..50]);
      FileParts(file);
    }
  }
}

/**
  The encrypted backup file: a chunked AEAD stream behind a header whose last two fields are
  patched in place after the payload pass (backend/app/backup.py).

  AES-GCM, SHA-256, base64 and the JSON serializer are the fields of `Primitives`; the only facts
  used about them are the laws in `Lawful`.
 */
module BackupFormat {
  import opened Wrappers
  import opened Decimals

  newtype byte = x: int | 0 <= x < 256
  type Bytes = seq<byte>

  const MAGIC: Bytes := [72, 82, 77, 66, 67, 75, 49, 10]
  const FORMAT_VERSION := 1
  const CIPHER_NAME := "aes-256-gcm"
  const PLAIN_SIZE_WIDTH := 20
  const CHUNK_SIZE := 1024 * 1024
  const TAG_BYTES := 16
  const MAX_HEADER := 16 * 1024
  const MAX_CHUNK := 64 * 1024 * 1024

  datatype Json = JStr(s: string) | JInt(n: int)

  /** The keys of the header object; any other key of a parsed header is an `Extra`. */
  datatype Field =
    | Version | KeyId | CreatedAt | Cipher | Nonce | ChunkSize | PlainSize | PlainSha256
    | Extra(name: string)

  type Header = map<Field, Json>

  predicate Known(h: Header) {
    forall f :: f in h ==> !f.Extra?
  }

  datatype Error = FormatError | KeyError | IntegrityError | StructError

  /** Characters that JSON prints as themselves; all that the two patched fields ever contain. */
  predicate Hex(s: string) {
    forall i :: 0 <= i < |s| ==> IsLowerHexDigit(s[i])
  }

  datatype Primitives = Primitives(
    seal: (Bytes, Bytes, Bytes, Bytes) -> Bytes,
    unseal: (Bytes, Bytes, Bytes, Bytes) -> Option<Bytes>,
    sha256: Bytes -> string,
    encode64: Bytes -> string,
    decode64: string -> Option<Bytes>,
    dump: Header -> Bytes,
    load: Bytes -> Option<Header>)
  {
    ghost predicate Lawful() {
      && (forall k, n, p, a :: |seal(k, n, p, a)| == |p| + TAG_BYTES)
      && (forall k, n, p, a :: unseal(k, n, seal(k, n, p, a), a) == Some(p))
      && (forall p :: |sha256(p)| == 64 && Hex(sha256(p)))
      && (forall b :: decode64(encode64(b)) == Some(b))
      && (forall h :: Known(h) ==> load(dump(h)) == Some(h))
      && (forall h, f, s :: Verbatim(h, f, s))
    }

    /** A plain text is printed verbatim: replacing it moves the rest by the change in length. */
    ghost predicate Verbatim(h: Header, f: Field, s: string) {
      f in h && h[f].JStr? && Hex(h[f].s) && Hex(s)
      ==> |dump(h[f := JStr(s)])| + |h[f].s| == |dump(h)| + |s|
    }
  }

  // ---------------------------------------------------------------- u64, little endian

  function PackLE(n: nat, width: nat): (b: Bytes)
    ensures |b| == width
  {
    if width == 0 then [] else [(n % 256) as byte] + PackLE(n / 256, width - 1)
  }

  function UnpackLE(b: Bytes): nat {
    if b == [] then 0 else b[0] as int + 256 * UnpackLE(b[1..])
  }

  function Pow256(k: nat): nat {
    if k == 0 then 1 else 256 * Pow256(k - 1)
  }

  lemma LengthFieldIsWide()
    ensures MAX_HEADER < Pow256(8)
  {
  }

  lemma {:induction false} UnpackOfPack(n: nat, width: nat)
    requires n < Pow256(width)
    ensures UnpackLE(PackLE(n, width)) == n
  {
    if width > 0 {
      UnpackOfPack(n / 256, width - 1);
      assert PackLE(n, width)[1..] == PackLE(n / 256, width - 1);
    }
  }

  /** The least significant byte comes first; two bytes hold every length the reader accepts. */
  lemma LowByteFirst(n: nat)
    requires n <= MAX_HEADER
    ensures PackLE(n, 8) == [(n % 256) as byte, (n / 256) as byte, 0, 0, 0, 0, 0, 0]
  {
    ZeroBytes(6);
    assert PackLE(n, 8) == [(n % 256) as byte] + PackLE(n / 256, 7);
    assert PackLE(n / 256, 7) == [(n / 256) as byte] + PackLE(0, 6);
  }

  lemma {:induction false} ZeroBytes(width: nat)
    ensures PackLE(0, width) == seq(width, _ => 0)
  {
    if width > 0 {
      ZeroBytes(width - 1);
    }
  }

  // ---------------------------------------------------------------- streams

  /** A seekable binary file object: `read`, `write` and `seek` as Python defines them. */
  class Stream {
    var data: Bytes
    var pos: nat

    ghost predicate Valid() reads this { pos <= |data| }

    /** The bytes not read yet. */
    ghost function Rest(): Bytes
      requires Valid()
      reads this
    {
      data[pos..]
    }

    constructor (content: Bytes)
      ensures Valid() && data == content && pos == 0 && Rest() == content
    {
      data, pos := content, 0;
    }

    method Read(n: nat) returns (chunk: Bytes)
      requires Valid()
      modifies this`pos
      ensures Valid()
      ensures pos == old(pos) + |chunk|
      ensures chunk == Take(old(Rest()), n) && Rest() == Drop(old(Rest()), n)
    {
      chunk := Take(data[pos..], n);
      pos := pos + |chunk|;
    }

    method Write(b: Bytes)
      requires Valid()
      modifies this
      ensures Valid() && pos == old(pos) + |b|
      ensures data == if old(pos) == |old(data)| then old(data) + b
                      else old(data)[..old(pos)] + b + Drop(old(data)[old(pos)..], |b|)
    {
      data := if pos == |data| then data + b else data[..pos] + b + Drop(data[pos..], |b|);
      pos := pos + |b|;
    }

    method Seek(offset: nat)
      requires offset <= |data|
      modifies this`pos
      ensures Valid() && pos == offset && Rest() == data[offset..]
    {
      pos := offset;
    }
  }

  function Take(b: Bytes, n: nat): Bytes { if |b| <= n then b else b[..n] }
  function Drop(b: Bytes, n: nat): Bytes { if |b| <= n then [] else b[n..] }

  lemma Assoc(a: Bytes, b: Bytes, c: Bytes)
    ensures (a + b) + c == a + (b + c)
  {
  }

  lemma TakeDrop(before: Bytes, b: Bytes, n: nat)
    ensures before + b == (before + Take(b, n)) + Drop(b, n)
  {
  }

  // ---------------------------------------------------------------- encryption

  function Placeholder(p: Primitives, keyId: string, createdAt: string, nonce: Bytes): Header {
    map[
      Version := JInt(FORMAT_VERSION),
      KeyId := JStr(keyId),
      CreatedAt := JStr(createdAt),
      Cipher := JStr(CIPHER_NAME),
      Nonce := JStr(p.encode64(nonce)),
      ChunkSize := JInt(CHUNK_SIZE),
      PlainSize := JStr(Zeros(PLAIN_SIZE_WIDTH)),
      PlainSha256 := JStr(Zeros(64))
    ]
  }

  function Patched(h: Header, size: string, digest: string): Header {
    h[PlainSize := JStr(size)][PlainSha256 := JStr(digest)]
  }

  /** The records of a payload: every chunk sealed on its own against the same header bytes. */
  function Records(p: Primitives, key: Bytes, nonce: Bytes, plain: Bytes, aad: Bytes): Bytes
    decreases |plain|
  {
    if plain == [] then []
    else p.seal(key, nonce, Take(plain, CHUNK_SIZE), aad)
         + Records(p, key, nonce, Drop(plain, CHUNK_SIZE), aad)
  }

  /** Magic, header length, the patched header of one payload, and the records of another. */
  function FileWith(p: Primitives, key: Bytes, placeholder: Header, nonce: Bytes, plain: Bytes, other: Bytes): Bytes {
    var final := p.dump(Patched(placeholder, Pad(|plain|, PLAIN_SIZE_WIDTH), p.sha256(plain)));
    MAGIC + PackLE(|final|, 8) + final + Records(p, key, nonce, other, p.dump(placeholder))
  }

  /** The published file of a payload. */
  function FileOf(p: Primitives, key: Bytes, placeholder: Header, nonce: Bytes, plain: Bytes): Bytes {
    FileWith(p, key, placeholder, nonce, plain, plain)
  }

  function RecordCount(plain: Bytes): nat
    decreases |plain|
  {
    if plain == [] then 0 else 1 + RecordCount(Drop(plain, CHUNK_SIZE))
  }

  /** Every record costs one authentication tag. */
  lemma {:induction false} RecordsSize(p: Primitives, key: Bytes, nonce: Bytes, plain: Bytes, aad: Bytes)
    requires p.Lawful()
    ensures |Records(p, key, nonce, plain, aad)| == |plain| + RecordCount(plain) * TAG_BYTES
    decreases |plain|
  {
    if plain != [] {
      RecordsSize(p, key, nonce, Drop(plain, CHUNK_SIZE), aad);
      TakeDrop([], plain, CHUNK_SIZE);
    }
  }

  lemma FileSize(p: Primitives, key: Bytes, placeholder: Header, nonce: Bytes, plain: Bytes)
    requires p.Lawful()
    ensures
      var final := Patched(placeholder, Pad(|plain|, PLAIN_SIZE_WIDTH), p.sha256(plain));
      |FileOf(p, key, placeholder, nonce, plain)|
      == |MAGIC| + 8 + |p.dump(final)| + |plain| + RecordCount(plain) * TAG_BYTES
  {
    RecordsSize(p, key, nonce, plain, p.dump(placeholder));
  }

  ghost predicate WholeChunks(b: Bytes)
    decreases |b|
  {
    b == [] || (|b| >= CHUNK_SIZE && WholeChunks(Drop(b, CHUNK_SIZE)))
  }

  lemma {:induction false} RecordsSnoc(
      p: Primitives, key: Bytes, nonce: Bytes, done: Bytes, chunk: Bytes, aad: Bytes)
    requires WholeChunks(done) && 0 < |chunk| <= CHUNK_SIZE
    ensures |chunk| == CHUNK_SIZE ==> WholeChunks(done + chunk)
    ensures RecordCount(done + chunk) == RecordCount(done) + 1
    ensures Records(p, key, nonce, done + chunk, aad)
         == Records(p, key, nonce, done, aad) + p.seal(key, nonce, chunk, aad)
    decreases |done|
  {
    if done == [] {
      assert done + chunk == chunk && Take(chunk, CHUNK_SIZE) == chunk;
      assert Drop(chunk, CHUNK_SIZE) == [];
    } else {
      assert Take(done + chunk, CHUNK_SIZE) == Take(done, CHUNK_SIZE);
      assert Drop(done + chunk, CHUNK_SIZE) == Drop(done, CHUNK_SIZE) + chunk;
      RecordsSnoc(p, key, nonce, Drop(done, CHUNK_SIZE), chunk, aad);
    }
  }

  lemma PatchedLength(p: Primitives, h: Header, size: string, digest: string)
    requires p.Lawful() && PlainSize in h && PlainSha256 in h && h[PlainSize].JStr? && h[PlainSha256].JStr?
    requires Hex(h[PlainSize].s) && Hex(h[PlainSha256].s) && Hex(size) && Hex(digest)
    ensures |p.dump(Patched(h, size, digest))| + |h[PlainSize].s| + |h[PlainSha256].s| == |p.dump(h)| + |size| + |digest|
  {
    assert p.Verbatim(h, PlainSize, size);
    assert p.Verbatim(h[PlainSize := JStr(size)], PlainSha256, digest);
  }

  /**
    The patched header keeps its length exactly for the payloads whose size fits its twenty
    digits: beyond 10^20 bytes `encrypt_stream` refuses to patch.
   */
  lemma PatchKeepsLength(p: Primitives, keyId: string, createdAt: string, nonce: Bytes, plain: Bytes)
    requires p.Lawful()
    ensures
      var h := Placeholder(p, keyId, createdAt, nonce);
      |p.dump(Patched(h, Pad(|plain|, PLAIN_SIZE_WIDTH), p.sha256(plain)))| == |p.dump(h)|
      <==> |plain| < Pow10(PLAIN_SIZE_WIDTH)
  {
    var h := Placeholder(p, keyId, createdAt, nonce);
    var size, digest := Pad(|plain|, PLAIN_SIZE_WIDTH), p.sha256(plain);
    PadWidth(|plain|, PLAIN_SIZE_WIDTH);
    assert Hex(size) && Hex(Zeros(PLAIN_SIZE_WIDTH)) && Hex(Zeros(64));
    PatchedLength(p, h, size, digest);
  }

  /** Overwriting a header by one of the same length changes no byte before or after it. */
  lemma PatchInPlace(prefix: Bytes, before: Bytes, after: Bytes, records: Bytes)
    requires |before| == |after|
    ensures
      var file := prefix + before + records;
      file[..|prefix|] + after + Drop(file[|prefix|..], |after|) == prefix + after + records
  {
  }

  /** The payload pass of `encrypt_stream`: appends the records of everything left to read. */
  method SealPayload(p: Primitives, source: Stream, destination: Stream, key: Bytes, nonce: Bytes, aad: Bytes)
    returns (total: nat, records: nat, digested: Bytes)
    requires source != destination && source.Valid() && destination.Valid()
    requires destination.pos == |destination.data|
    modifies source, destination
    ensures source.data == old(source.data) && destination.Valid()
    ensures digested == old(source.Rest()) && total == |digested|
    ensures destination.data == old(destination.data) + Records(p, key, nonce, digested, aad)
    ensures records == RecordCount(digested)
  {
    ghost var plain := source.Rest();
    digested, total, records := [], 0, 0;
    ghost var left := plain;  // the chunk in hand and everything behind it
    var chunk := source.Read(CHUNK_SIZE);
    while chunk != []
      invariant source.Valid() && source.data == old(source.data)
      invariant plain == digested + left
      invariant chunk == Take(left, CHUNK_SIZE) && source.Rest() == Drop(left, CHUNK_SIZE)
      invariant WholeChunks(digested) || chunk == []
      invariant total == |digested|
      invariant destination.Valid() && destination.pos == |destination.data|
      invariant destination.data
             == old(destination.data) + Records(p, key, nonce, digested, aad)
      invariant records == RecordCount(digested)
      decreases |left|
    {
      RecordsSnoc(p, key, nonce, digested, chunk, aad);
      TakeDrop(digested, left, CHUNK_SIZE);
      ghost var done := digested;
      digested := digested + chunk;
      total := total + |chunk|;
      Assoc(old(destination.data), Records(p, key, nonce, done, aad), p.seal(key, nonce, chunk, aad));
      destination.Write(p.seal(key, nonce, chunk, aad));
      records := records + 1;
      left := Drop(left, CHUNK_SIZE);
      chunk := source.Read(CHUNK_SIZE);
    }
    assert digested == plain;
  }

  /** The opening of `encrypt_stream`: magic, header length and the placeholder header. */
  method WriteHeader(destination: Stream, headerBytes: Bytes)
    requires destination.data == [] && destination.pos == 0
    modifies destination
    ensures destination.Valid() && destination.pos == |destination.data|
    ensures destination.data == MAGIC + PackLE(|headerBytes|, 8) + headerBytes
  {
    var packed := PackLE(|headerBytes|, 8);
    destination.Write(MAGIC);
    destination.Write(packed);
    assert destination.data == MAGIC + packed;
    destination.Write(headerBytes);
  }

  /** The end of `encrypt_stream`: the final header is written over the placeholder. */
  method PatchHeader(destination: Stream, ghost prefix: Bytes, ghost before: Bytes, after: Bytes, ghost records: Bytes)
    requires destination.Valid() && destination.data == prefix + before + records
    requires |prefix| == |MAGIC| + 8 && |before| == |after|
    modifies destination
    ensures destination.data == prefix + after + records
  {
    destination.Seek(|MAGIC| + 8);
    PatchInPlace(prefix, before, after, records);
    destination.Write(after);
  }

  /**
    `encrypt_stream`. The random nonce is a parameter. On success the destination holds exactly
    `FileOf` the payload and the returned size is the length of that file; the only failures are
    a header too long for the length field and a payload whose size outgrows its field.
   */
  method EncryptStream(
      p: Primitives, source: Stream, destination: Stream,
      key: Bytes, keyId: string, createdAt: string, nonce: Bytes)
    returns (r: Result<(nat, string), Error>)
    requires p.Lawful()
    requires source != destination && source.Valid()
    requires destination.data == [] && destination.pos == 0
    modifies source, destination
    ensures source.data == old(source.data)
    ensures
      var plain := old(source.Rest());
      var placeholder := Placeholder(p, keyId, createdAt, nonce);
      if |p.dump(placeholder)| >= Pow256(8) then r == Failure(StructError)
      else if |p.dump(Patched(placeholder, Pad(|plain|, PLAIN_SIZE_WIDTH), p.sha256(plain)))|
              != |p.dump(placeholder)| then r == Failure(FormatError)
      else destination.data == FileOf(p, key, placeholder, nonce, plain)
           && r == Success((|destination.data|, p.sha256(plain)))
  {
    ghost var plain := source.Rest();
    var placeholder := Placeholder(p, keyId, createdAt, nonce);
    var headerBytes := p.dump(placeholder);
    if |headerBytes| >= Pow256(8) {
      return Failure(StructError);
    }
    WriteHeader(destination, headerBytes);
    var total, records, digested := SealPayload(p, source, destination, key, nonce, headerBytes);
    FileSize(p, key, placeholder, nonce, plain);
    var finalHeader := Patched(placeholder, Pad(total, PLAIN_SIZE_WIDTH), p.sha256(digested));
    var finalBytes := p.dump(finalHeader);
    if |finalBytes| != |headerBytes| {
      return Failure(FormatError);
    }
    PatchHeader(destination, MAGIC + PackLE(|headerBytes|, 8), headerBytes, finalBytes, Records(p, key, nonce, plain, headerBytes));
    r := Success((|MAGIC| + 8 + |finalBytes| + total + records * TAG_BYTES, p.sha256(digested)));
  }

  // ---------------------------------------------------------------- decryption

  /** What the records of a file decrypt to, or None when one of them fails authentication. */
  function OpenRecords(p: Primitives, key: Bytes, nonce: Bytes, body: Bytes, size: nat, aad: Bytes)
    : Option<Bytes>
    requires size > 0
    decreases |body|
  {
    if body == [] then Some([])
    else match p.unseal(key, nonce, Take(body, size), aad)
      case None => None
      case Some(plain) =>
        match OpenRecords(p, key, nonce, Drop(body, size), size, aad)
        case None => None
        case Some(rest) => Some(plain + rest)
  }

  ghost function After(done: Bytes, rest: Option<Bytes>): Option<Bytes> {
    if rest.None? then None else Some(done + rest.value)
  }

  lemma OpenStep(p: Primitives, key: Bytes, nonce: Bytes, body: Bytes, size: nat, aad: Bytes, done: Bytes)
    requires body != [] && size > 0
    ensures
      var plain := p.unseal(key, nonce, Take(body, size), aad);
      After(done, OpenRecords(p, key, nonce, body, size, aad)) ==
      if plain.None? then None
      else After(done + plain.value, OpenRecords(p, key, nonce, Drop(body, size), size, aad))
  {
    var plain := p.unseal(key, nonce, Take(body, size), aad);
    var tail := OpenRecords(p, key, nonce, Drop(body, size), size, aad);
    if plain.Some? && tail.Some? {
      assert done + (plain.value + tail.value) == (done + plain.value) + tail.value;
    }
  }

  /** `int(...)` of a header value; a text that is not a numeral raises. */
  function AsInt(j: Json): Option<int> {
    match j
    case JInt(n) => Some(n)
    case JStr(s) => if s != "" && AllDigits(s) then Some(Value(s)) else None
  }

  function ChunkSizeOf(h: Header): Option<int> {
    if ChunkSize in h then AsInt(h[ChunkSize]) else Some(CHUNK_SIZE)
  }

  function KeyOf(h: Header, keys: map<string, Bytes>): Option<Bytes> {
    if KeyId in h && h[KeyId].JStr? && h[KeyId].s in keys
    then Some(keys[h[KeyId].s]) else None
  }

  /** The parameters a header yields once every header check has passed: (key, nonce, chunk size). */
  function Accept(p: Primitives, h: Header, keys: map<string, Bytes>): Result<(Bytes, Bytes, nat), Error> {
    if !(Version in h && h[Version] == JInt(FORMAT_VERSION) && Cipher in h && h[Cipher] == JStr(CIPHER_NAME))
      then Failure(FormatError)
    else match KeyOf(h, keys)
      case None => Failure(KeyError)
      case Some(key) =>
        if !(Nonce in h && h[Nonce].JStr?) then Failure(FormatError)
        else match (p.decode64(h[Nonce].s), ChunkSizeOf(h))
          case (Some(nonce), Some(size)) =>
            if size <= 0 || size > MAX_CHUNK then Failure(FormatError)
            else Success((key, nonce, size))
          case _ => Failure(FormatError)
  }

  /** The final comparison of digest and size with the header (or with the caller's digest). */
  function Verify(p: Primitives, h: Header, plain: Bytes, expected: Option<string>): Result<nat, Error> {
    var digest := if expected.Some? then Some(JStr(expected.value))
                  else if PlainSha256 in h then Some(h[PlainSha256]) else None;
    if digest != Some(JStr(p.sha256(plain))) then Failure(IntegrityError)
    else if PlainSize !in h then Success(|plain|)
    else match AsInt(h[PlainSize])
      case None => Failure(StructError)
      case Some(n) => if n == |plain| then Success(|plain|) else Failure(IntegrityError)
  }

  /** The verdict on a whole file: the header part. */
  function HeaderOf(p: Primitives, file: Bytes): Result<(Header, Bytes), Error> {
    if Take(file, 8) != MAGIC then Failure(FormatError)
    else if |file| < 16 then Failure(StructError)
    else
      var n := UnpackLE(file[8..16]);
      if n > MAX_HEADER then Failure(FormatError)
      else match p.load(Take(file[16..], n))
        case None => Failure(FormatError)
        case Some(h) => Success((h, Drop(file[16..], n)))
  }

  /** The verdict on a whole file: the records behind a header. */
  function Opened(p: Primitives, h: Header, body: Bytes, keys: map<string, Bytes>, expected: Option<string>)
    : Result<Bytes, Error>
  {
    match Accept(p, h, keys)
    case Failure(e) => Failure(e)
    case Success((key, nonce, size)) =>
      match OpenRecords(p, key, nonce, body, size + TAG_BYTES, p.dump(Patched(h, Zeros(PLAIN_SIZE_WIDTH), Zeros(64))))
      case None => Failure(IntegrityError)
      case Some(plain) =>
        match Verify(p, h, plain, expected)
        case Failure(e) => Failure(e)
        case Success(_) => Success(plain)
  }

  /** The specification of `decrypt_to_stream`: the payload a file yields, or why it is refused. */
  function Decrypted(p: Primitives, file: Bytes, keys: map<string, Bytes>, expected: Option<string>)
    : Result<Bytes, Error>
  {
    match HeaderOf(p, file)
    case Failure(e) => Failure(e)
    case Success((h, body)) => Opened(p, h, body, keys, expected)
  }

  /** The opening of `decrypt_to_stream`: magic, length and header, leaving the records unread. */
  method ReadHeader(p: Primitives, source: Stream) returns (r: Result<Header, Error>)
    requires source.Valid()
    modifies source`pos
    ensures source.Valid()
    ensures
      match HeaderOf(p, old(source.Rest()))
      case Failure(e) => r == Failure(e)
      case Success((h, body)) => r == Success(h) && source.Rest() == body
  {
    ghost var file := source.Rest();
    var magic := source.Read(|MAGIC|);
    if magic != MAGIC {
      return Failure(FormatError);
    }
    var packed := source.Read(8);
    if |packed| < 8 {
      return Failure(StructError);
    }
    assert packed == file[8..16] && source.Rest() == file[16..];
    var headerLen := UnpackLE(packed);
    if headerLen > MAX_HEADER {
      return Failure(FormatError);
    }
    var rawHeader := source.Read(headerLen);
    var parsed := p.load(rawHeader);
    r := if parsed == None then Failure(FormatError) else Success(parsed.value);
  }

  /** The payload pass of `decrypt_to_stream`: authenticates and appends record after record. */
  method OpenPayload(
      p: Primitives, source: Stream, destination: Stream, key: Bytes, nonce: Bytes, chunkSize: nat, aad: Bytes)
    returns (digested: Option<Bytes>)
    requires source != destination && source.Valid() && destination.Valid()
    requires destination.pos == |destination.data| && chunkSize > 0
    modifies source, destination
    ensures digested == OpenRecords(p, key, nonce, old(source.Rest()), chunkSize + TAG_BYTES, aad)
    ensures digested.Some? ==> destination.data == old(destination.data) + digested.value
  {
    var size := chunkSize + TAG_BYTES;
    ghost var left := source.Rest();
    ghost var all := OpenRecords(p, key, nonce, left, size, aad);
    var done: Bytes := [];
    assert all.Some? ==> done + all.value == all.value;
    while true
      invariant source.Valid() && source.Rest() == left
      invariant destination.Valid() && destination.pos == |destination.data|
      invariant destination.data == old(destination.data) + done
      invariant all == After(done, OpenRecords(p, key, nonce, left, size, aad))
      decreases |left|
    {
      var chunk := source.Read(size);
      if chunk == [] {
        assert left == [] && done + [] == done;
        return Some(done);
      }
      OpenStep(p, key, nonce, left, size, aad, done);
      left := Drop(left, size);
      var plain := p.unseal(key, nonce, chunk, aad);
      if plain == None {
        return None;
      }
      Assoc(old(destination.data), done, plain.value);
      done := done + plain.value;
      destination.Write(plain.value);
    }
  }

  /** `decrypt_to_stream` behind the header: the checks, the payload pass and the final comparison. */
  method OpenBody(
      p: Primitives, header: Header, source: Stream, destination: Stream,
      keys: map<string, Bytes>, expected: Option<string>)
    returns (r: Result<nat, Error>)
    requires source != destination && source.Valid() && destination.Valid()
    requires destination.pos == |destination.data|
    modifies source, destination
    ensures
      match Opened(p, header, old(source.Rest()), keys, expected)
      case Failure(e) => r == Failure(e)
      case Success(plain) =>
        r == Success(|plain|) && destination.data == old(destination.data) + plain
  {
    var accepted := Accept(p, header, keys);
    if accepted.Failure? {
      return Failure(accepted.error);
    }
    var (key, nonce, chunkSize) := accepted.value;
    var aad := p.dump(Patched(header, Zeros(PLAIN_SIZE_WIDTH), Zeros(64)));
    var digested := OpenPayload(p, source, destination, key, nonce, chunkSize, aad);
    if digested == None {
      return Failure(IntegrityError);
    }
    r := Verify(p, header, digested.value, expected);
  }

  /** `decrypt_to_stream`: returns the size, and on success has appended exactly the payload. */
  method DecryptToStream(
      p: Primitives, source: Stream, destination: Stream,
      keys: map<string, Bytes>, expected: Option<string>)
    returns (r: Result<nat, Error>)
    requires source != destination && source.Valid() && destination.Valid()
    requires destination.pos == |destination.data|
    modifies source, destination
    ensures
      match Decrypted(p, old(source.Rest()), keys, expected)
      case Failure(e) => r == Failure(e)
      case Success(plain) =>
        r == Success(|plain|) && destination.data == old(destination.data) + plain
  {
    var read := ReadHeader(p, source);
    if read.Failure? {
      return Failure(read.error);
    }
    r := OpenBody(p, read.value, source, destination, keys, expected);
  }

  // ---------------------------------------------------------------- round trip

  /** Reading back in steps of chunk size + tag finds the record boundaries of every payload. */
  lemma {:induction false} OpenOfRecords(
      p: Primitives, key: Bytes, nonce: Bytes, plain: Bytes, aad: Bytes)
    requires p.Lawful()
    ensures OpenRecords(p, key, nonce, Records(p, key, nonce, plain, aad), CHUNK_SIZE + TAG_BYTES, aad)
         == Some(plain)
    decreases |plain|
  {
    if plain != [] {
      var first, rest := Take(plain, CHUNK_SIZE), Drop(plain, CHUNK_SIZE);
      var record, tail := p.seal(key, nonce, first, aad), Records(p, key, nonce, rest, aad);
      OpenOfRecords(p, key, nonce, rest, aad);
      assert Take(record + tail, CHUNK_SIZE + TAG_BYTES) == record;
      assert Drop(record + tail, CHUNK_SIZE + TAG_BYTES) == tail;
      assert first + rest == plain;
    }
  }

  /** Zeroing the two patched fields rebuilds the placeholder, hence the authenticated header. */
  lemma ZeroingRebuildsAad(p: Primitives, keyId: string, createdAt: string, nonce: Bytes, size: string, digest: string)
    ensures
      var h := Placeholder(p, keyId, createdAt, nonce);
      Patched(Patched(h, size, digest), Zeros(PLAIN_SIZE_WIDTH), Zeros(64)) == h
  {
  }

  /** The reader accepts the writer's own header, and finds the writer's parameters in it. */
  lemma AcceptsOwnHeader(
      p: Primitives, keyId: string, createdAt: string, nonce: Bytes, size: string, digest: string,
      keys: map<string, Bytes>)
    requires p.decode64(p.encode64(nonce)) == Some(nonce)
    ensures
      Accept(p, Patched(Placeholder(p, keyId, createdAt, nonce), size, digest), keys)
      == if keyId in keys then Success((keys[keyId], nonce, CHUNK_SIZE)) else Failure(KeyError)
  {
  }

  lemma VerifiesOwnHeader(p: Primitives, h: Header, plain: Bytes)
    ensures Verify(p, Patched(h, Pad(|plain|, PLAIN_SIZE_WIDTH), p.sha256(plain)), plain, None)
         == Success(|plain|)
  {
    ValueOfPad(|plain|, PLAIN_SIZE_WIDTH);
    assert Pad(|plain|, PLAIN_SIZE_WIDTH) != "";
  }

  lemma ThreeParts(a: Bytes, b: Bytes, c: Bytes)
    requires |a| == |b| == 8
    ensures Take(a + b + c, 8) == a && (a + b + c)[8..16] == b && (a + b + c)[16..] == c
  {
  }

  lemma TwoParts(a: Bytes, b: Bytes)
    ensures Take(a + b, |a|) == a && Drop(a + b, |a|) == b
  {
  }

  /** The header of a file is found behind the magic and its length, when it is not too long for the reader. */
  lemma HeaderOfParts(p: Primitives, packed: Bytes, final: Bytes, body: Bytes)
    requires |packed| == 8 && UnpackLE(packed) == |final|
    ensures HeaderOf(p, MAGIC + packed + (final + body)) ==
      if |final| > MAX_HEADER || p.load(final).None? then Failure(FormatError)
      else Success((p.load(final).value, body))
  {
    ThreeParts(MAGIC, packed, final + body);
    TwoParts(final, body);
  }

  lemma LoadsOwnHeader(p: Primitives, h: Header)
    requires p.Lawful() && Known(h)
    ensures p.load(p.dump(h)) == Some(h)
  {
  }

  lemma OwnHeaderIsKnown(p: Primitives, keyId: string, createdAt: string, nonce: Bytes, size: string, digest: string)
    ensures Known(Patched(Placeholder(p, keyId, createdAt, nonce), size, digest))
  {
  }

  lemma PatchedHeaderIsFound(p: Primitives, key: Bytes, h: Header, nonce: Bytes, plain: Bytes, other: Bytes)
    ensures
      var final := p.dump(Patched(h, Pad(|plain|, PLAIN_SIZE_WIDTH), p.sha256(plain)));
      |final| < Pow256(8) ==>
      HeaderOf(p, FileWith(p, key, h, nonce, plain, other)) ==
        if |final| > MAX_HEADER || p.load(final).None? then Failure(FormatError)
        else Success((p.load(final).value, Records(p, key, nonce, other, p.dump(h))))
  {
    var final := p.dump(Patched(h, Pad(|plain|, PLAIN_SIZE_WIDTH), p.sha256(plain)));
    var packed, body := PackLE(|final|, 8), Records(p, key, nonce, other, p.dump(h));
    if |final| < Pow256(8) {
      UnpackOfPack(|final|, 8);
      Assoc(MAGIC + packed, final, body);
      HeaderOfParts(p, packed, final, body);
    }
  }

  lemma ReadsOwnHeader(p: Primitives, key: Bytes, keyId: string, createdAt: string, nonce: Bytes, plain: Bytes, other: Bytes)
    requires p.Lawful()
    requires |plain| < Pow10(PLAIN_SIZE_WIDTH)
    requires |p.dump(Placeholder(p, keyId, createdAt, nonce))| < Pow256(8)
    ensures
      var h := Placeholder(p, keyId, createdAt, nonce);
      HeaderOf(p, FileWith(p, key, h, nonce, plain, other)) ==
      if |p.dump(h)| > MAX_HEADER then Failure(FormatError)
      else Success((Patched(h, Pad(|plain|, PLAIN_SIZE_WIDTH), p.sha256(plain)),
                    Records(p, key, nonce, other, p.dump(h))))
  {
    var h := Placeholder(p, keyId, createdAt, nonce);
    var size, digest := Pad(|plain|, PLAIN_SIZE_WIDTH), p.sha256(plain);
    PatchKeepsLength(p, keyId, createdAt, nonce, plain);
    OwnHeaderIsKnown(p, keyId, createdAt, nonce, size, digest);
    LoadsOwnHeader(p, Patched(h, size, digest));
    PatchedHeaderIsFound(p, key, h, nonce, plain, other);
  }

  /**
    The round trip, for every payload the size field can hold. What `encrypt_stream` writes is
    decrypted to the payload exactly when its header is within the reader's 16 KiB limit, a limit
    the writer does not check; beyond it the file is refused as malformed.
   */
  lemma RoundTrip(
      p: Primitives, key: Bytes, keyId: string, createdAt: string, nonce: Bytes, plain: Bytes,
      keys: map<string, Bytes>)
    requires p.Lawful()
    requires keyId in keys && keys[keyId] == key
    requires |plain| < Pow10(PLAIN_SIZE_WIDTH)
    requires |p.dump(Placeholder(p, keyId, createdAt, nonce))| < Pow256(8)
    ensures
      var h := Placeholder(p, keyId, createdAt, nonce);
      var file := FileOf(p, key, h, nonce, plain);
      Decrypted(p, file, keys, None)
      == if |p.dump(h)| <= MAX_HEADER then Success(plain) else Failure(FormatError)
  {
    var h := Placeholder(p, keyId, createdAt, nonce);
    var size, digest := Pad(|plain|, PLAIN_SIZE_WIDTH), p.sha256(plain);
    ReadsOwnHeader(p, key, keyId, createdAt, nonce, plain, plain);
    if |p.dump(h)| <= MAX_HEADER {
      AcceptsOwnHeader(p, keyId, createdAt, nonce, size, digest, keys);
      ZeroingRebuildsAad(p, keyId, createdAt, nonce, size, digest);
      OpenOfRecords(p, key, nonce, plain, p.dump(h));
      VerifiesOwnHeader(p, h, plain);
    }
  }

  lemma HeaderHoldsKeyId(p: Primitives, keyId: string, createdAt: string, nonce: Bytes)
    requires p.Lawful() && Hex(keyId)
    ensures |p.dump(Placeholder(p, keyId, createdAt, nonce))| >= |keyId|
  {
    var h := Placeholder(p, "", createdAt, nonce);
    assert p.Verbatim(h, KeyId, keyId);
    assert h[KeyId := JStr(keyId)] == Placeholder(p, keyId, createdAt, nonce);
  }

  /**
    Key ids are not limited in length: with one longer than 16 KiB every backup is written without
    complaint, and none can be read back.
   */
  lemma LongKeyIdIsUnreadable(
      p: Primitives, key: Bytes, keyId: string, createdAt: string, nonce: Bytes, plain: Bytes,
      keys: map<string, Bytes>)
    requires p.Lawful()
    requires Hex(keyId) && |keyId| > MAX_HEADER
    requires keyId in keys && keys[keyId] == key
    requires |plain| < Pow10(PLAIN_SIZE_WIDTH)
    requires |p.dump(Placeholder(p, keyId, createdAt, nonce))| < Pow256(8)
    ensures Decrypted(p, FileOf(p, key, Placeholder(p, keyId, createdAt, nonce), nonce, plain), keys, None)
         == Failure(FormatError)
  {
    HeaderHoldsKeyId(p, keyId, createdAt, nonce);
    RoundTrip(p, key, keyId, createdAt, nonce, plain, keys);
  }

  /**
    What the tags bind: two headers authenticate the same records exactly when they agree on every
    field but the two that are patched.
   */
  lemma TagsBindHeader(p: Primitives, g: Header, h: Header)
    requires p.Lawful() && Known(g) && Known(h)
    ensures p.dump(Patched(g, Zeros(PLAIN_SIZE_WIDTH), Zeros(64))) == p.dump(Patched(h, Zeros(PLAIN_SIZE_WIDTH), Zeros(64)))
      <==> forall f :: f != PlainSize && f != PlainSha256 ==> (f in g <==> f in h) && (f in g ==> g[f] == h[f])
  {
    var zg, zh := Patched(g, Zeros(PLAIN_SIZE_WIDTH), Zeros(64)), Patched(h, Zeros(PLAIN_SIZE_WIDTH), Zeros(64));
    LoadsOwnHeader(p, zg);
    LoadsOwnHeader(p, zh);
    assert forall f :: f != PlainSize && f != PlainSha256 ==>
      (f in zg <==> f in g) && (f in zh <==> f in h) && (f in g ==> zg[f] == g[f]) && (f in h ==> zh[f] == h[f]);
    if forall f :: f != PlainSize && f != PlainSha256 ==> (f in g <==> f in h) && (f in g ==> g[f] == h[f]) {
      assert forall f :: f in zg <==> f in zh;
      assert zg == zh;
    }
  }

  /** A backup whose key is missing from the key ring is refused by name, never decrypted. */
  lemma MissingKeyIsExplicit(
      p: Primitives, key: Bytes, keyId: string, createdAt: string, nonce: Bytes, plain: Bytes,
      keys: map<string, Bytes>, expected: Option<string>)
    requires p.Lawful() && keyId !in keys
    requires |plain| < Pow10(PLAIN_SIZE_WIDTH)
    requires |p.dump(Placeholder(p, keyId, createdAt, nonce))| <= MAX_HEADER
    ensures Decrypted(p, FileOf(p, key, Placeholder(p, keyId, createdAt, nonce), nonce, plain), keys, expected)
         == Failure(KeyError)
  {
    LengthFieldIsWide();
    ReadsOwnHeader(p, key, keyId, createdAt, nonce, plain, plain);
    AcceptsOwnHeader(p, keyId, createdAt, nonce, Pad(|plain|, PLAIN_SIZE_WIDTH), p.sha256(plain), keys);
  }

  // ---------------------------------------------------------------- what is accepted

  /** `int(...)` of a header value gives this number. */
  predicate Says(j: Json, n: int) {
    j == JInt(n) || (j.JStr? && j.s != "" && AllDigits(j.s) && Value(j.s) == n)
  }

  /** The digest asked for, the caller's or else the header's, is the digest of these bytes. */
  predicate DigestAgrees(p: Primitives, h: Header, plain: Bytes, expected: Option<string>) {
    match expected
    case Some(digest) => digest == p.sha256(plain)
    case None => PlainSha256 in h && h[PlainSha256] == JStr(p.sha256(plain))
  }

  predicate SizeAgrees(h: Header, plain: Bytes) { PlainSize in h ==> Says(h[PlainSize], |plain|) }

  /** What a file must be to be opened at all: a short enough header of this format, for a key of the ring. */
  ghost predicate Sealed(p: Primitives, file: Bytes, keys: map<string, Bytes>, h: Header, body: Bytes, key: Bytes, nonce: Bytes, size: nat) {
    && |file| >= 16 && file[..8] == MAGIC
    && var n := UnpackLE(file[8..16]);
    && n <= 16 * 1024 && p.load(Take(file[16..], n)) == Some(h) && body == Drop(file[16..], n)
    && Version in h && h[Version] == JInt(1) && Cipher in h && h[Cipher] == JStr("aes-256-gcm")
    && KeyId in h && h[KeyId].JStr? && h[KeyId].s in keys && key == keys[h[KeyId].s]
    && Nonce in h && h[Nonce].JStr? && p.decode64(h[Nonce].s) == Some(nonce)
    && (if ChunkSize in h then Says(h[ChunkSize], size) else size == 1024 * 1024)
    && 0 < size <= 64 * 1024 * 1024
  }

  function Joined(parts: seq<Bytes>): Bytes { if parts == [] then [] else parts[0] + Joined(parts[1..]) }

  /** The body is a sequence of records, all but the last of full size, each of which authenticates and opens. */
  ghost predicate OpenInto(p: Primitives, key: Bytes, nonce: Bytes, size: nat, aad: Bytes, records: seq<Bytes>, plains: seq<Bytes>) {
    && |records| == |plains|
    && forall i :: 0 <= i < |records| ==>
      && 0 < |records[i]| <= size && (i < |records| - 1 ==> |records[i]| == size)
      && p.unseal(key, nonce, records[i], aad) == Some(plains[i])
  }

  lemma {:induction false} OpensAsRecords(p: Primitives, key: Bytes, nonce: Bytes, body: Bytes, size: nat, aad: Bytes)
    returns (records: seq<Bytes>, plains: seq<Bytes>)
    requires size > 0 && OpenRecords(p, key, nonce, body, size, aad).Some?
    ensures Joined(records) == body && Some(Joined(plains)) == OpenRecords(p, key, nonce, body, size, aad)
    ensures OpenInto(p, key, nonce, size, aad, records, plains)
    decreases |body|
  {
    records, plains := [], [];
    if body != [] {
      var first := Take(body, size);
      var tail, others := OpensAsRecords(p, key, nonce, Drop(body, size), size, aad);
      records, plains := [first] + tail, [p.unseal(key, nonce, first, aad).value] + others;
      assert records[1..] == tail && plains[1..] == others;
      TakeDrop([], body, size);
      if tail != [] {
        assert tail[0] <= Joined(tail);
      }
    }
  }

  lemma {:induction false} RecordsOpen(p: Primitives, key: Bytes, nonce: Bytes, size: nat, aad: Bytes, records: seq<Bytes>, plains: seq<Bytes>)
    requires size > 0 && OpenInto(p, key, nonce, size, aad, records, plains)
    ensures OpenRecords(p, key, nonce, Joined(records), size, aad) == Some(Joined(plains))
    decreases |records|
  {
    if records != [] {
      var rest := Joined(records[1..]);
      RecordsOpen(p, key, nonce, size, aad, records[1..], plains[1..]);
      if |records| == 1 {
        assert rest == [] && records[0] + rest == records[0];
      }
      assert Take(records[0] + rest, size) == records[0] && Drop(records[0] + rest, size) == rest;
    }
  }

  /**
    Whatever is restored was asked for: the file is of this format and for a key of the ring, its
    records authenticate, and the restored bytes have the digest given by the caller, or else by the
    header, and the size the header gives.
   */
  lemma RestoredMeans(p: Primitives, file: Bytes, keys: map<string, Bytes>, expected: Option<string>)
    returns (h: Header, body: Bytes, key: Bytes, nonce: Bytes, size: nat, records: seq<Bytes>, plains: seq<Bytes>)
    requires Decrypted(p, file, keys, expected).Success?
    ensures Sealed(p, file, keys, h, body, key, nonce, size) && Joined(records) == body
    ensures OpenInto(p, key, nonce, size + TAG_BYTES, p.dump(Patched(h, Zeros(20), Zeros(64))), records, plains)
    ensures Joined(plains) == Decrypted(p, file, keys, expected).value
    ensures DigestAgrees(p, h, Joined(plains), expected) && SizeAgrees(h, Joined(plains))
  {
    var header := HeaderOf(p, file);
    h, body := header.value.0, header.value.1;
    var accepted := Accept(p, h, keys).value;
    key, nonce, size := accepted.0, accepted.1, accepted.2;
    records, plains := OpensAsRecords(p, key, nonce, body, size + TAG_BYTES, p.dump(Patched(h, Zeros(20), Zeros(64))));
  }

  lemma SaysIff(j: Json, n: int)
    ensures Says(j, n) <==> AsInt(j) == Some(n)
  {
  }

  lemma SealedIsAccepted(p: Primitives, file: Bytes, keys: map<string, Bytes>, h: Header, body: Bytes, key: Bytes, nonce: Bytes, size: nat)
    requires Sealed(p, file, keys, h, body, key, nonce, size)
    ensures HeaderOf(p, file) == Success((h, body)) && Accept(p, h, keys) == Success((key, nonce, size))
  {
    if ChunkSize in h {
      SaysIff(h[ChunkSize], size);
    }
  }

  lemma OpenedBehind(
      p: Primitives, h: Header, body: Bytes, keys: map<string, Bytes>, expected: Option<string>, key: Bytes, nonce: Bytes,
      size: nat, plain: Bytes)
    requires Accept(p, h, keys) == Success((key, nonce, size))
    requires OpenRecords(p, key, nonce, body, size + TAG_BYTES, p.dump(Patched(h, Zeros(20), Zeros(64)))) == Some(plain)
    ensures Opened(p, h, body, keys, expected) ==
      if DigestAgrees(p, h, plain, expected) && SizeAgrees(h, plain) then Success(plain)
      else if DigestAgrees(p, h, plain, expected) && AsInt(h[PlainSize]).None? then Failure(StructError)
      else Failure(IntegrityError)
  {
    if PlainSize in h {
      SaysIff(h[PlainSize], |plain|);
    }
  }

  /**
    And all of that is enough. Records that authenticate are refused exactly when the digest or the
    size is wrong: as damaged, unless the header's size is no number at all.
   */
  lemma RestoredWhen(
      p: Primitives, file: Bytes, keys: map<string, Bytes>, expected: Option<string>, h: Header, body: Bytes, key: Bytes,
      nonce: Bytes, size: nat, records: seq<Bytes>, plains: seq<Bytes>)
    requires Sealed(p, file, keys, h, body, key, nonce, size) && Joined(records) == body
    requires OpenInto(p, key, nonce, size + TAG_BYTES, p.dump(Patched(h, Zeros(20), Zeros(64))), records, plains)
    ensures Decrypted(p, file, keys, expected) ==
      if DigestAgrees(p, h, Joined(plains), expected) && SizeAgrees(h, Joined(plains)) then Success(Joined(plains))
      else if DigestAgrees(p, h, Joined(plains), expected) && AsInt(h[PlainSize]).None? then Failure(StructError)
      else Failure(IntegrityError)
  {
    SealedIsAccepted(p, file, keys, h, body, key, nonce, size);
    RecordsOpen(p, key, nonce, size + TAG_BYTES, p.dump(Patched(h, Zeros(20), Zeros(64))), records, plains);
    OpenedBehind(p, h, body, keys, expected, key, nonce, size, Joined(plains));
  }

  /** How a file is refused before its contents are compared: cut short, of another format, without its key, or forged. */
  lemma RefusedAs(p: Primitives, file: Bytes, h: Header, body: Bytes, keys: map<string, Bytes>, expected: Option<string>)
    ensures HeaderOf(p, file).Failure? ==>
      HeaderOf(p, file).error == if |file| < 16 && Take(file, 8) == MAGIC then StructError else FormatError
    ensures Accept(p, h, keys).Failure? ==>
      var ours := Version in h && h[Version] == JInt(1) && Cipher in h && h[Cipher] == JStr("aes-256-gcm");
      var known := KeyId in h && h[KeyId].JStr? && h[KeyId].s in keys;
      Opened(p, h, body, keys, expected) == Failure(if ours && !known then KeyError else FormatError)
    ensures Accept(p, h, keys).Success? ==>
      var (key, nonce, size) := Accept(p, h, keys).value;
      OpenRecords(p, key, nonce, body, size + TAG_BYTES, p.dump(Patched(h, Zeros(20), Zeros(64)))).None?
      ==> Opened(p, h, body, keys, expected) == Failure(IntegrityError)
  {
  }

  lemma OtherRecordsOpen(
      p: Primitives, key: Bytes, keyId: string, createdAt: string, nonce: Bytes, plain: Bytes, other: Bytes,
      keys: map<string, Bytes>, expected: Option<string>)
    requires p.Lawful() && keyId in keys && keys[keyId] == key
    ensures
      var h := Placeholder(p, keyId, createdAt, nonce);
      var digest := if expected.Some? then expected.value else p.sha256(plain);
      Opened(p, Patched(h, Pad(|plain|, PLAIN_SIZE_WIDTH), p.sha256(plain)), Records(p, key, nonce, other, p.dump(h)), keys, expected)
      == if p.sha256(other) == digest && |other| == |plain| then Success(other) else Failure(IntegrityError)
  {
    var h := Placeholder(p, keyId, createdAt, nonce);
    var size, digest := Pad(|plain|, PLAIN_SIZE_WIDTH), p.sha256(plain);
    AcceptsOwnHeader(p, keyId, createdAt, nonce, size, digest, keys);
    ZeroingRebuildsAad(p, keyId, createdAt, nonce, size, digest);
    OpenOfRecords(p, key, nonce, other, p.dump(h));
    OwnRecordIs(p, h, plain, other);
    OpenedBehind(p, Patched(h, size, digest), Records(p, key, nonce, other, p.dump(h)), keys, expected, key, nonce, CHUNK_SIZE, other);
  }

  /**
    The header of one payload before the records of another, as dropping, repeating or exchanging
    whole records leaves it. Every record authenticates; only digest and size can tell.
   */
  lemma OtherRecordsAreRefused(
      p: Primitives, key: Bytes, keyId: string, createdAt: string, nonce: Bytes, plain: Bytes, other: Bytes,
      keys: map<string, Bytes>, expected: Option<string>)
    requires p.Lawful()
    requires keyId in keys && keys[keyId] == key
    requires |plain| < Pow10(PLAIN_SIZE_WIDTH)
    requires |p.dump(Placeholder(p, keyId, createdAt, nonce))| <= MAX_HEADER
    ensures
      var digest := if expected.Some? then expected.value else p.sha256(plain);
      Decrypted(p, FileWith(p, key, Placeholder(p, keyId, createdAt, nonce), nonce, plain, other), keys, expected)
      == if p.sha256(other) == digest && |other| == |plain| then Success(other) else Failure(IntegrityError)
  {
    LengthFieldIsWide();
    ReadsOwnHeader(p, key, keyId, createdAt, nonce, plain, other);
    OtherRecordsOpen(p, key, keyId, createdAt, nonce, plain, other, keys, expected);
  }

  lemma OwnRecordIs(p: Primitives, h: Header, plain: Bytes, other: Bytes)
    ensures
      var final := Patched(h, Pad(|plain|, PLAIN_SIZE_WIDTH), p.sha256(plain));
      && (SizeAgrees(final, other) <==> |other| == |plain|)
      && (DigestAgrees(p, final, other, None) <==> p.sha256(other) == p.sha256(plain))
      && AsInt(final[PlainSize]) == Some(|plain|)
  {
    ValueOfPad(|plain|, PLAIN_SIZE_WIDTH);
    assert Pad(|plain|, PLAIN_SIZE_WIDTH) != "";
  }

  lemma {:induction false} RecordsConcat(p: Primitives, key: Bytes, nonce: Bytes, a: Bytes, b: Bytes, aad: Bytes)
    requires WholeChunks(a)
    ensures Records(p, key, nonce, a + b, aad) == Records(p, key, nonce, a, aad) + Records(p, key, nonce, b, aad)
    decreases |a|
  {
    if a == [] {
      assert a + b == b;
    } else {
      assert Take(a + b, CHUNK_SIZE) == Take(a, CHUNK_SIZE) && Drop(a + b, CHUNK_SIZE) == Drop(a, CHUNK_SIZE) + b;
      RecordsConcat(p, key, nonce, Drop(a, CHUNK_SIZE), b, aad);
    }
  }

  lemma {:induction false} WholeIsMultiple(b: Bytes)
    ensures WholeChunks(b) <==> |b| % CHUNK_SIZE == 0
    decreases |b|
  {
    if |b| >= CHUNK_SIZE {
      WholeIsMultiple(Drop(b, CHUNK_SIZE));
    }
  }

  /** A published file that has lost whole records, at the end or in the middle, is never restored. */
  lemma LostRecordsAreRefused(
      p: Primitives, key: Bytes, keyId: string, createdAt: string, nonce: Bytes, before: Bytes, lost: Bytes, after: Bytes,
      keys: map<string, Bytes>)
    requires p.Lawful()
    requires keyId in keys && keys[keyId] == key
    requires |before| % CHUNK_SIZE == 0 && lost != [] && (|lost| % CHUNK_SIZE == 0 || after == [])
    requires |before + lost + after| < Pow10(PLAIN_SIZE_WIDTH)
    requires |p.dump(Placeholder(p, keyId, createdAt, nonce))| <= MAX_HEADER
    ensures
      var h := Placeholder(p, keyId, createdAt, nonce);
      var aad, plain := p.dump(h), before + lost + after;
      var final := p.dump(Patched(h, Pad(|plain|, PLAIN_SIZE_WIDTH), p.sha256(plain)));
      var start := MAGIC + PackLE(|final|, 8) + final + Records(p, key, nonce, before, aad);
      && FileOf(p, key, h, nonce, plain)
         == start + Records(p, key, nonce, lost, aad) + Records(p, key, nonce, after, aad)
      && Decrypted(p, start + Records(p, key, nonce, after, aad), keys, None) == Failure(IntegrityError)
  {
    var h := Placeholder(p, keyId, createdAt, nonce);
    var plain := before + lost + after;
    WholeIsMultiple(before);
    WholeIsMultiple(lost);
    RecordsOfThree(p, key, nonce, before, lost, after, p.dump(h));
    RecordsConcat(p, key, nonce, before, after, p.dump(h));
    var opening := MAGIC + PackLE(|p.dump(Patched(h, Pad(|plain|, PLAIN_SIZE_WIDTH), p.sha256(plain)))|, 8)
                   + p.dump(Patched(h, Pad(|plain|, PLAIN_SIZE_WIDTH), p.sha256(plain)));
    Assoc(opening, Records(p, key, nonce, before, p.dump(h)), Records(p, key, nonce, after, p.dump(h)));
    Assoc4(opening, Records(p, key, nonce, before, p.dump(h)), Records(p, key, nonce, lost, p.dump(h)),
           Records(p, key, nonce, after, p.dump(h)));
    OtherRecordsAreRefused(p, key, keyId, createdAt, nonce, plain, before + after, keys, None);
  }

  lemma Assoc4(a: Bytes, b: Bytes, c: Bytes, d: Bytes)
    ensures a + (b + c + d) == a + b + c + d
  {
  }

  lemma RecordsOfThree(p: Primitives, key: Bytes, nonce: Bytes, before: Bytes, lost: Bytes, after: Bytes, aad: Bytes)
    requires WholeChunks(before) && (WholeChunks(lost) || after == [])
    ensures Records(p, key, nonce, before + lost + after, aad)
         == Records(p, key, nonce, before, aad) + Records(p, key, nonce, lost, aad) + Records(p, key, nonce, after, aad)
  {
    Assoc(before, lost, after);
    RecordsConcat(p, key, nonce, before, lost + after, aad);
    if after == [] {
      assert lost + after == lost && Records(p, key, nonce, after, aad) == [];
    } else {
      RecordsConcat(p, key, nonce, lost, after, aad);
    }
  }

  /** Encrypting a file and decrypting the result, run end to end on streams. */
  method EncryptThenDecrypt(
      p: Primitives, plain: Bytes, key: Bytes, keyId: string, createdAt: string, nonce: Bytes,
      keys: map<string, Bytes>)
    returns (r: Result<nat, Error>, restored: Bytes)
    requires p.Lawful()
    requires keyId in keys && keys[keyId] == key
    requires |plain| < Pow10(PLAIN_SIZE_WIDTH)
    requires |p.dump(Placeholder(p, keyId, createdAt, nonce))| <= MAX_HEADER
    ensures r == Success(|plain|) && restored == plain
  {
    var source := new Stream(plain);
    var file := new Stream([]);
    var sink := new Stream([]);
    PatchKeepsLength(p, keyId, createdAt, nonce, plain);
    LengthFieldIsWide();
    var written := EncryptStream(p, source, file, key, keyId, createdAt, nonce);
    file.Seek(0);
    assert file.data[0..] == file.data;
    RoundTrip(p, key, keyId, createdAt, nonce, plain, keys);
    r := DecryptToStream(p, file, sink, keys, None);
    restored := sink.data;
  }
}

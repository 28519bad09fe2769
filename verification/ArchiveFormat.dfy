/** The signed application archive: what the builder writes and what the parser accepts.
    BLAKE3 and UTF-8 validity are parameters; entries are stored without compression. */
module ArchiveFormat {
  import opened Octets
  import opened ArchivePaths

  type Blake3 = h: seq<Byte> -> seq<Byte> | forall m :: |h(m)| == 32 witness (m => Zeros(32))

  datatype Error =
    | BadMagic | UnsupportedVersion | UnexpectedEof | LengthOverflow | InvalidUtf8 | InvalidPath | DuplicatePath
    | EntriesOutOfOrder
    | BadSignatureBlock | UnknownSignatureAlgorithm | BadChunkHash | UnsupportedCompression | ChainTooLarge
    | DigestMismatch

  datatype Result<T> = Ok(value: T) | Err(error: Error)

  const MAGIC: seq<Byte> := [0x42, 0x45, 0x58, 0x41, 0x52, 0x43, 0x56, 0x32]
  const LEGACY_MAGIC: seq<Byte> := [0x42, 0x45, 0x58, 0x41, 0x52, 0x43, 0x56, 0x31]
  const SIGNATURE_MAGIC: seq<Byte> := [0x42, 0x45, 0x58, 0x53, 0x49, 0x47, 0x56, 0x32]
  const VERSION := 2
  const CHUNK := 4096
  const HEADER_BYTES := 32
  const RECORD_BYTES := 72
  const SIGNATURE_BYTES := 96
  const MAX_CERTS := 4
  const MAX_CHAIN := 16384
  const HALF := 0x1_0000_0000
  const WORD := 0x1_0000_0000_0000_0000

  // ---------- What is stored for a file ----------

  function ChunkCount(n: nat): nat {
    (n + CHUNK - 1) / CHUNK
  }

  function ChunkOf(bytes: seq<Byte>, i: nat): seq<Byte>
    requires i < ChunkCount(|bytes|)
  {
    ChunkStarts(|bytes|, i);
    bytes[i * CHUNK..if |bytes| < (i + 1) * CHUNK then |bytes| else (i + 1) * CHUNK]
  }

  lemma ChunkStarts(n: nat, i: nat)
    requires i < ChunkCount(n)
    ensures i * CHUNK < n
  {
  }

  function ChunkHash(hash: Blake3, bytes: seq<Byte>, i: nat): (r: seq<Byte>)
    requires i < ChunkCount(|bytes|)
    ensures |r| == 32
  {
    hash(ChunkOf(bytes, i))
  }

  /** The hashes of the first `n` chunks. */
  function Hashes(hash: Blake3, bytes: seq<Byte>, n: nat): (r: seq<Byte>)
    requires n <= ChunkCount(|bytes|)
    ensures |r| == 32 * n
  {
    if n == 0 then [] else Hashes(hash, bytes, n - 1) + ChunkHash(hash, bytes, n - 1)
  }

  function StoredSize(f: File): nat {
    |f.bytes| + 32 * ChunkCount(|f.bytes|)
  }

  function Stored(hash: Blake3, f: File): (r: seq<Byte>)
    ensures |r| == StoredSize(f)
  {
    f.bytes + Hashes(hash, f.bytes, ChunkCount(|f.bytes|))
  }

  function Data(hash: Blake3, files: seq<File>): seq<Byte> {
    if files == [] then [] else Stored(hash, files[0]) + Data(hash, files[1..])
  }

  // ---------- The directory ----------

  datatype Entry = Entry(path: seq<Byte>, compression: nat, mode: nat, size: nat, storedOffset: nat, storedLen: nat,
                         hashOffset: nat, chunks: nat)

  /** Where a file ends up when its bytes start at `offset`. */
  function EntryOf(f: File, offset: nat): Entry {
    Entry(f.path, 0, f.mode, |f.bytes|, offset, |f.bytes|, offset + |f.bytes|, ChunkCount(|f.bytes|))
  }

  function EntriesOf(files: seq<File>, offset: nat): (r: seq<Entry>)
    ensures |r| == |files|
  {
    if files == [] then [] else [EntryOf(files[0], offset)] + EntriesOf(files[1..], offset + StoredSize(files[0]))
  }

  function Numbers(e: Entry): (r: seq<Byte>)
    ensures |r| == 48
  {
    var w := Then([], 0, ToLittle(|e.path|, 4));
    var w := Then(w, 4, ToLittle(e.compression, 4));
    var w := Then(w, 8, ToLittle(e.mode, 4));
    var w := Then(w, 12, ToLittle(e.chunks, 4));
    var w := Then(w, 16, ToLittle(e.size, 8));
    var w := Then(w, 24, ToLittle(e.storedOffset, 8));
    var w := Then(w, 32, ToLittle(e.storedLen, 8));
    Then(w, 40, ToLittle(e.hashOffset, 8))
  }

  function Record(e: Entry): (r: seq<Byte>)
    ensures |r| == RECORD_BYTES + |e.path|
  {
    Numbers(e) + Zeros(24) + e.path
  }

  function Directory(entries: seq<Entry>): (r: seq<Byte>)
    ensures |r| == DirectoryBytes(entries)
  {
    if entries == [] then [] else Record(entries[0]) + Directory(entries[1..])
  }

  function DirectoryBytes(entries: seq<Entry>): nat {
    if entries == [] then 0 else RECORD_BYTES + |entries[0].path| + DirectoryBytes(entries[1..])
  }

  function PathBytes(files: seq<File>): nat {
    if files == [] then 0 else RECORD_BYTES + |files[0].path| + PathBytes(files[1..])
  }

  function Header(count: nat, directory: nat): (r: seq<Byte>)
    ensures |r| == HEADER_BYTES
  {
    var w := Then([], 0, MAGIC);
    var w := Then(w, 8, ToLittle(VERSION, 4));
    var w := Then(w, 12, ToLittle(count, 4));
    var w := Then(w, 16, ToLittle(HEADER_BYTES, 8));
    Then(w, 24, ToLittle(directory, 8))
  }

  /** Header, directory and data of files in path order. */
  function Unsigned(hash: Blake3, files: seq<File>): seq<Byte> {
    var base := HEADER_BYTES + PathBytes(files);
    Header(|files|, PathBytes(files)) + Directory(EntriesOf(files, base)) + Data(hash, files)
  }

  // ---------- The signature block ----------

  datatype Algorithm = Ed25519 | EcdsaP256

  function AlgorithmNumber(a: Algorithm): nat {
    if a.Ed25519? then 1 else 2
  }

  datatype Envelope = Envelope(algorithm: Algorithm, keyId: seq<Byte>, digest: seq<Byte>, chain: seq<seq<Byte>>,
                               signature: seq<Byte>)

  function Certificates(chain: seq<seq<Byte>>): seq<Byte> {
    if chain == [] then [] else ToLittle(|chain[0]|, 4) + chain[0] + Certificates(chain[1..])
  }

  function ChainBytes(chain: seq<seq<Byte>>): nat {
    if chain == [] then 0 else |chain[0]| + ChainBytes(chain[1..])
  }

  function SignatureHeader(e: Envelope, signedLen: nat): (r: seq<Byte>)
    requires |e.keyId| == 32 && |e.digest| == 32
    ensures |r| == SIGNATURE_BYTES
  {
    var w := Then([], 0, SIGNATURE_MAGIC);
    var w := Then(w, 8, ToLittle(VERSION, 4));
    var w := Then(w, 12, ToLittle(AlgorithmNumber(e.algorithm), 4));
    var w := Then(w, 16, ToLittle(signedLen, 8));
    var w := Then(w, 24, e.keyId);
    var w := Then(w, 56, e.digest);
    var w := Then(w, 88, ToLittle(|e.chain|, 4));
    Then(w, 92, ToLittle(|e.signature|, 4))
  }

  function SignatureBlock(e: Envelope, signedLen: nat): (r: seq<Byte>)
    requires |e.keyId| == 32 && |e.digest| == 32
    ensures |r| >= SIGNATURE_BYTES
  {
    SignatureHeader(e, signedLen) + Certificates(e.chain) + e.signature
  }

  function Signed(unsigned: seq<Byte>, e: Envelope): seq<Byte>
    requires |e.keyId| == 32 && |e.digest| == 32
  {
    unsigned + SignatureBlock(e, |unsigned|) + ToLittle(|SignatureBlock(e, |unsigned|)|, 8)
  }

  // ---------- The builder ----------

  /** The first reason, in the order given, why the paths are refused. */
  function PathError(files: seq<File>, n: nat): Option<Error>
    requires n <= |files|
  {
    if n == 0 then None
    else
      var before := PathError(files, n - 1);
      if before.Some? then before
      else if !ValidPath(files[n - 1].path) then Some(InvalidPath)
      else if exists i :: 0 <= i < n - 1 && files[i].path == files[n - 1].path then Some(DuplicatePath)
      else None
  }

  ghost predicate DistinctUpTo(files: seq<File>, n: nat)
    requires n <= |files|
  {
    forall i, j :: 0 <= i < j < n ==> files[i].path != files[j].path
  }

  /** The builder refuses exactly the lists with a bad path or a repeated one. */
  lemma {:induction false} PathErrorNone(files: seq<File>, n: nat)
    requires n <= |files|
    ensures PathError(files, n).None? <==>
            (forall i :: 0 <= i < n ==> ValidPath(files[i].path)) && DistinctUpTo(files, n)
  {
    hide ValidPath;
    if n > 0 {
      PathErrorNone(files, n - 1);
    }
  }

  function BuildUnsigned(hash: Blake3, files: seq<File>): Result<seq<Byte>> {
    var error := PathError(files, |files|);
    if error.Some? then Err(error.value) else Ok(Unsigned(hash, Sort(files)))
  }

  predicate BadChain(chain: seq<seq<Byte>>) {
    chain == [] || |chain| > MAX_CERTS || ChainBytes(chain) > MAX_CHAIN
  }

  /** The whole builder; the signer's answer for the content root is given. */
  function Build(hash: Blake3, files: seq<File>, keyId: seq<Byte>, algorithm: Algorithm, chain: seq<seq<Byte>>,
                 signature: seq<Byte>): Result<seq<Byte>>
    requires |keyId| == 32
  {
    if BadChain(chain) then Err(ChainTooLarge)
    else
      var unsigned := BuildUnsigned(hash, files);
      if unsigned.Err? then unsigned
      else if |signature| > 64 then Err(BadSignatureBlock)
      else Ok(Signed(unsigned.value, Envelope(algorithm, keyId, hash(unsigned.value), chain, signature)))
  }

  // ---------- The parser ----------

  function Number(bytes: seq<Byte>, offset: nat, width: nat): nat
    requires offset + width <= |bytes|
  {
    LittleEndian(bytes[offset..offset + width])
  }

  /** One directory record at `cursor`, before its place in the order is known. */
  function ParseRecord(utf8: seq<Byte> -> bool, bytes: seq<Byte>, cursor: nat, end: nat): Result<Entry>
    requires end <= |bytes|
  {
    if cursor + RECORD_BYTES > end then Err(UnexpectedEof)
    else
      var pathLen := Number(bytes, cursor, 4);
      if Number(bytes, cursor + 4, 4) > 1 then Err(UnsupportedCompression)
      else if cursor + RECORD_BYTES + pathLen > |bytes| then Err(UnexpectedEof)
      else
        var path := bytes[cursor + RECORD_BYTES..cursor + RECORD_BYTES + pathLen];
        if !utf8(path) then Err(InvalidUtf8)
        else if !ValidPath(path) then Err(InvalidPath)
        else Ok(Entry(path, Number(bytes, cursor + 4, 4), Number(bytes, cursor + 8, 4), Number(bytes, cursor + 16, 8),
                      Number(bytes, cursor + 24, 8), Number(bytes, cursor + 32, 8), Number(bytes, cursor + 40, 8),
                      Number(bytes, cursor + 12, 4)))
  }

  /** Why the bytes [offset, offset + len) are not all signed. */
  function BoundsError(offset: nat, len: nat, signedLen: nat): Option<Error> {
    if offset + len >= WORD then Some(LengthOverflow)
    else if offset + len > signedLen then Some(UnexpectedEof)
    else None
  }

  function EntryBounds(e: Entry, signedLen: nat): Option<Error> {
    var stored := BoundsError(e.storedOffset, e.storedLen, signedLen);
    if stored.Some? then stored else BoundsError(e.hashOffset, 32 * e.chunks, signedLen)
  }

  function ParseDirectory(utf8: seq<Byte> -> bool, bytes: seq<Byte>, cursor: nat, end: nat, count: nat,
                          last: Option<seq<Byte>>, signedLen: nat): Result<seq<Entry>>
    requires end <= |bytes|
    decreases count
  {
    if count == 0 then (if cursor == end then Ok([]) else Err(UnexpectedEof))
    else
      var parsed := ParseRecord(utf8, bytes, cursor, end);
      if parsed.Err? then Err(parsed.error)
      else if last.Some? && parsed.value.path == last.value then Err(DuplicatePath)
      else if last.Some? && !Less(last.value, parsed.value.path) then Err(EntriesOutOfOrder)
      else if EntryBounds(parsed.value, signedLen).Some? then Err(EntryBounds(parsed.value, signedLen).value)
      else
        var rest := ParseDirectory(utf8, bytes, cursor + RECORD_BYTES + |parsed.value.path|, end, count - 1,
                                   Some(parsed.value.path), signedLen);
        if rest.Err? then rest else Ok([parsed.value] + rest.value)
  }

  function ParseChain(block: seq<Byte>, offset: nat, count: nat, total: nat): Result<(seq<seq<Byte>>, nat)>
    decreases count
  {
    if count == 0 then Ok(([], offset))
    else if offset + 4 > |block| then Err(UnexpectedEof)
    else
      var len := Number(block, offset, 4);
      if len == 0 || total + len > MAX_CHAIN then Err(ChainTooLarge)
      else if offset + 4 + len > |block| then Err(UnexpectedEof)
      else
        var rest := ParseChain(block, offset + 4 + len, count - 1, total + len);
        if rest.Err? then rest else Ok(([block[offset + 4..offset + 4 + len]] + rest.value.0, rest.value.1))
  }

  /** The block's envelope, and the length it claims was signed. */
  function ParseSignature(block: seq<Byte>): Result<(Envelope, nat)> {
    if |block| < SIGNATURE_BYTES || block[..8] != SIGNATURE_MAGIC then Err(BadSignatureBlock)
    else if Number(block, 8, 4) != VERSION then Err(BadSignatureBlock)
    else if Number(block, 12, 4) != 1 && Number(block, 12, 4) != 2 then Err(UnknownSignatureAlgorithm)
    else
      var count, length := Number(block, 88, 4), Number(block, 92, 4);
      if count == 0 || count > MAX_CERTS then Err(ChainTooLarge)
      else if length == 0 || length > 512 then Err(BadSignatureBlock)
      else
        var chain := ParseChain(block, SIGNATURE_BYTES, count, 0);
        if chain.Err? then Err(chain.error)
        else if chain.value.1 + length > |block| then Err(UnexpectedEof)
        else if chain.value.1 + length != |block| then Err(BadSignatureBlock)
        else Ok((Envelope(if Number(block, 12, 4) == 1 then Ed25519 else EcdsaP256, block[24..56], block[56..88],
                          chain.value.0, block[chain.value.1..]), Number(block, 16, 8)))
  }

  /** The first chunk, from `i` on, whose hash is missing or wrong. */
  function ChunkError(hash: Blake3, bytes: seq<Byte>, e: Entry, i: nat): Option<Error>
    requires e.storedOffset + e.storedLen <= |bytes| && e.chunks == ChunkCount(e.storedLen) && i <= e.chunks
    decreases e.chunks - i
  {
    if i == e.chunks then None
    else
      var at := e.hashOffset + 32 * i;
      var stored := bytes[e.storedOffset..e.storedOffset + e.storedLen];
      if at + 32 > |bytes| then Some(UnexpectedEof)
      else if bytes[at..at + 32] != ChunkHash(hash, stored, i) then Some(BadChunkHash)
      else ChunkError(hash, bytes, e, i + 1)
  }

  function EntryError(hash: Blake3, bytes: seq<Byte>, e: Entry): Option<Error> {
    if e.storedOffset + e.storedLen > |bytes| then Some(UnexpectedEof)
    else if e.chunks != ChunkCount(e.storedLen) then Some(BadChunkHash)
    else ChunkError(hash, bytes, e, 0)
  }

  function EntriesError(hash: Blake3, bytes: seq<Byte>, entries: seq<Entry>): Option<Error> {
    if entries == [] then None
    else
      var error := EntryError(hash, bytes, entries[0]);
      if error.Some? then error else EntriesError(hash, bytes, entries[1..])
  }

  datatype Open = Open(entries: seq<Entry>, signer: Envelope)

  /** Where the parts of an archive stand; `end` is where the directory ends, beyond any address if
      the header says so. */
  datatype Place = Place(signedLen: nat, footerAt: nat, start: nat, end: nat, count: nat)

  /** The header and the length of the footer. The directory's end is computed in 64 bits, and wraps. */
  function Locate(bytes: seq<Byte>): (r: Result<Place>)
    ensures r.Ok? ==> r.value.signedLen <= r.value.footerAt <= |bytes| && r.value.end % WORD <= r.value.signedLen
  {
    if |bytes| < HEADER_BYTES + 8 then Err(UnexpectedEof)
    else if bytes[..8] == LEGACY_MAGIC then Err(UnsupportedVersion)
    else if bytes[..8] != MAGIC then Err(BadMagic)
    else if Number(bytes, 8, 4) != VERSION then Err(UnsupportedVersion)
    else
      var footerAt := |bytes| - 8;
      var footerLen := Number(bytes, footerAt, 8);
      if footerLen < SIGNATURE_BYTES || footerLen > footerAt then Err(BadSignatureBlock)
      else
        var signedLen, start := footerAt - footerLen, Number(bytes, 16, 8);
        var end := start + Number(bytes, 24, 8);
        if end % WORD > signedLen then Err(UnexpectedEof)
        else Ok(Place(signedLen, footerAt, start, end, Number(bytes, 12, 4)))
  }

  function ParseParts(hash: Blake3, utf8: seq<Byte> -> bool, bytes: seq<Byte>, p: Place): Result<Open>
    requires p.signedLen <= p.footerAt <= |bytes|
  {
    var block := ParseSignature(bytes[p.signedLen..p.footerAt]);
    if block.Err? then Err(block.error)
    else if block.value.1 != p.signedLen then Err(BadSignatureBlock)
    else if hash(bytes[..p.signedLen]) != block.value.0.digest then Err(DigestMismatch)
    else if p.end >= WORD then Err(LengthOverflow)
    else if p.end > |bytes| then Err(UnexpectedEof)
    else
      var entries := ParseDirectory(utf8, bytes, p.start, p.end, p.count, None, p.signedLen);
      if entries.Err? then Err(entries.error) else Ok(Open(entries.value, block.value.0))
  }

  /** Everything but the chunks. */
  function ParseOuter(hash: Blake3, utf8: seq<Byte> -> bool, bytes: seq<Byte>): Result<Open> {
    var place := Locate(bytes);
    if place.Err? then Err(place.error) else ParseParts(hash, utf8, bytes, place.value)
  }

  function Parse(hash: Blake3, utf8: seq<Byte> -> bool, bytes: seq<Byte>): Result<Open> {
    var open := ParseOuter(hash, utf8, bytes);
    if open.Err? then open
    else
      var error := EntriesError(hash, bytes, open.value.entries);
      if error.Some? then Err(error.value) else open
  }

  /** The bytes of an uncompressed file, once its chunks are checked. */
  function ReadFile(hash: Blake3, bytes: seq<Byte>, e: Entry): Result<seq<Byte>>
    requires e.compression == 0
  {
    var error := EntryError(hash, bytes, e);
    if error.Some? then Err(error.value)
    else if e.storedLen != e.size then Err(UnexpectedEof)
    else Ok(bytes[e.storedOffset..e.storedOffset + e.storedLen])
  }

  /** What the stored bytes stand for; `unpack` answers for compressed ones. */
  function Contents(unpack: (seq<Byte>, nat) -> Result<seq<Byte>>, stored: seq<Byte>, e: Entry): Result<seq<Byte>> {
    if e.compression != 0 then unpack(stored, e.size)
    else if |stored| != e.size then Err(UnexpectedEof)
    else Ok(stored)
  }

  /** Any file, once its chunks are checked. */
  function ReadAny(hash: Blake3, unpack: (seq<Byte>, nat) -> Result<seq<Byte>>, bytes: seq<Byte>,
                   e: Entry): Result<seq<Byte>> {
    var error := EntryError(hash, bytes, e);
    if error.Some? then Err(error.value)
    else Contents(unpack, bytes[e.storedOffset..e.storedOffset + e.storedLen], e)
  }

  /** An uncompressed entry is read the same way whatever decompression does. */
  lemma StoredReads(hash: Blake3, unpack: (seq<Byte>, nat) -> Result<seq<Byte>>, bytes: seq<Byte>, e: Entry)
    requires e.compression == 0
    ensures ReadAny(hash, unpack, bytes, e) == ReadFile(hash, bytes, e)
  {
    hide ChunkError, ChunkCount;
  }

  lemma NumberFits(bytes: seq<Byte>, offset: nat)
    requires offset + 8 <= |bytes|
    ensures Number(bytes, offset, 8) < WORD
  {
    hide LittleEndian;
    LittleFits(bytes[offset..offset + 8]);
  }

  /** The header's own test lets a directory past the signed bytes through exactly when its end
      overflows 64 bits; everything else it accepts lies within them. */
  lemma LocateFooled(bytes: seq<Byte>)
    requires |bytes| < WORD && Locate(bytes).Ok?
    ensures var p := Locate(bytes).value; p.end < 2 * WORD && (p.end > p.signedLen <==> p.end >= WORD)
  {
    hide Number;
    NumberFits(bytes, 16);
    NumberFits(bytes, 24);
  }

  /** Such an archive is refused all the same, before its directory is read. */
  lemma FooledRefused(hash: Blake3, utf8: seq<Byte> -> bool, bytes: seq<Byte>)
    requires Locate(bytes).Ok? && Locate(bytes).value.end >= WORD
    ensures Parse(hash, utf8, bytes).Err?
  {
    hide Locate, ParseSignature, ParseDirectory, EntriesError;
  }

  /** Whatever opens has its directory within the signed bytes. */
  lemma OpenedWithin(hash: Blake3, utf8: seq<Byte> -> bool, bytes: seq<Byte>)
    requires |bytes| < WORD && Parse(hash, utf8, bytes).Ok?
    ensures Locate(bytes).Ok? && Locate(bytes).value.end <= Locate(bytes).value.signedLen <= |bytes|
  {
    hide Locate, ParseSignature, ParseDirectory, EntriesError;
    if Locate(bytes).Ok? {
      LocateFooled(bytes);
    }
  }
}

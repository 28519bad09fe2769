/** The builder that grows and patches a byte vector, and the parser that advances a cursor,
    as the archive library runs them. */
module ArchiveTool {
  import opened Octets
  import opened ArchivePaths
  import opened ArchiveFormat
  import opened ArchiveRoundTrip

  // ---------- Building ----------

  /** Checks each path, and that none came before. */
  method CheckPaths(files: seq<File>) returns (error: Option<Error>)
    ensures error == PathError(files, |files|)
  {
    hide ValidPath;
    var seen: set<seq<Byte>> := {};
    for i := 0 to |files|
      invariant PathError(files, i) == None
      invariant seen == set k | 0 <= k < i :: files[k].path
    {
      var path := NormalizePath(files[i].path);
      if path.None? {
        StillBad(files, i + 1, |files|);
        return Some(InvalidPath);
      }
      if path.value in seen {
        StillBad(files, i + 1, |files|);
        return Some(DuplicatePath);
      }
      seen := seen + {path.value};
    }
    return None;
  }

  lemma {:induction false} StillBad(files: seq<File>, i: nat, n: nat)
    requires i <= n <= |files| && PathError(files, i).Some?
    ensures PathError(files, n) == PathError(files, i)
  {
    hide ValidPath;
    if i < n {
      StillBad(files, i, n - 1);
    }
  }

  /** Appends the hash of each chunk. */
  method AppendHashes(hash: Blake3, out: seq<Byte>, bytes: seq<Byte>) returns (r: seq<Byte>)
    ensures r == out + Hashes(hash, bytes, ChunkCount(|bytes|))
  {
    hide ChunkHash, ChunkCount, Hashes;
    r := out;
    NoHashes(hash, bytes);
    for i := 0 to ChunkCount(|bytes|)
      invariant r == out + Hashes(hash, bytes, i)
    {
      HashesNext(hash, bytes, i + 1);
      Associate(out, Hashes(hash, bytes, i), ChunkHash(hash, bytes, i));
      r := r + ChunkHash(hash, bytes, i);
    }
  }

  lemma NoHashes(hash: Blake3, bytes: seq<Byte>)
    ensures Hashes(hash, bytes, 0) == []
  {
  }

  /** Appends a file's bytes and the hash of each of its chunks. */
  method AppendStored(hash: Blake3, out: seq<Byte>, f: File) returns (r: seq<Byte>, e: Entry)
    ensures r == out + Stored(hash, f) && e == EntryOf(f, |out|)
  {
    hide ChunkCount, Hashes;
    Associate(out, f.bytes, Hashes(hash, f.bytes, ChunkCount(|f.bytes|)));
    r := AppendHashes(hash, out + f.bytes, f.bytes);
    e := Entry(f.path, 0, f.mode, |f.bytes|, |out|, |f.bytes|, |out| + |f.bytes|, ChunkCount(|f.bytes|));
  }

  lemma {:induction false} DataLast(hash: Blake3, files: seq<File>, f: File)
    ensures Data(hash, files + [f]) == Data(hash, files) + Stored(hash, f)
  {
    hide Stored;
    if files == [] {
      assert files + [f] == [f] && [f][1..] == [];
    } else {
      DataLast(hash, files[1..], f);
      assert (files + [f])[1..] == files[1..] + [f];
    }
  }

  lemma {:induction false} EntriesLast(files: seq<File>, f: File, offset: nat)
    ensures EntriesOf(files + [f], offset) == EntriesOf(files, offset) + [EntryOf(f, offset + DataBytes(files))]
    decreases |files|
  {
    hide EntryOf, StoredSize;
    if files == [] {
      assert files + [f] == [f] && [f][1..] == [];
    } else {
      EntriesLast(files[1..], f, offset + StoredSize(files[0]));
      assert (files + [f])[1..] == files[1..] + [f];
    }
  }

  lemma {:induction false} DirectoryLast(entries: seq<Entry>, e: Entry)
    ensures Directory(entries + [e]) == Directory(entries) + Record(e)
  {
    hide Record;
    if entries == [] {
      assert entries + [e] == [e] && [e][1..] == [];
    } else {
      DirectoryLast(entries[1..], e);
      assert (entries + [e])[1..] == entries[1..] + [e];
    }
  }

  /** Overwrites bytes of the vector, past everything written so far in [low, high). */
  method Put(out: seq<Byte>, low: nat, high: nat, offset: nat, s: seq<Byte>, ghost w: seq<Byte>) returns (r: seq<Byte>)
    requires low <= high <= |out| && Filled(out[low..high], w) && |w| <= offset && low + offset + |s| <= high
    ensures |r| == |out| && r[..low] == out[..low] && r[high..] == out[high..]
    ensures Filled(r[low..high], Then(w, offset, s))
  {
    var at := low + offset;
    r := out[..at] + s + out[at + |s|..];
    ghost var was, size := out[low..high], high - low;
    assert r[low..high] == was[..offset] + s + was[offset + |s|..];
    assert was[..offset] == w + Zeros(offset - |w|);
    assert was[offset + |s|..] == Zeros(size - offset - |s|);
  }

  /** Writes one directory record over zeros. */
  method PutRecord(out: seq<Byte>, low: nat, high: nat, e: Entry) returns (r: seq<Byte>)
    requires low <= high <= |out| && high - low == RECORD_BYTES + |e.path| && Filled(out[low..high], [])
    ensures |r| == |out| && r[..low] == out[..low] && r[high..] == out[high..] && r[low..high] == Record(e)
  {
    hide ToLittle, Filled;
    r := Put(out, low, high, 0, ToLittle(|e.path|, 4), []);
    ghost var w := Then([], 0, ToLittle(|e.path|, 4));
    r := Put(r, low, high, 4, ToLittle(e.compression, 4), w);
    w := Then(w, 4, ToLittle(e.compression, 4));
    r := Put(r, low, high, 8, ToLittle(e.mode, 4), w);
    w := Then(w, 8, ToLittle(e.mode, 4));
    r := Put(r, low, high, 12, ToLittle(e.chunks, 4), w);
    w := Then(w, 12, ToLittle(e.chunks, 4));
    r := Put(r, low, high, 16, ToLittle(e.size, 8), w);
    w := Then(w, 16, ToLittle(e.size, 8));
    r := Put(r, low, high, 24, ToLittle(e.storedOffset, 8), w);
    w := Then(w, 24, ToLittle(e.storedOffset, 8));
    r := Put(r, low, high, 32, ToLittle(e.storedLen, 8), w);
    w := Then(w, 32, ToLittle(e.storedLen, 8));
    r := Put(r, low, high, 40, ToLittle(e.hashOffset, 8), w);
    w := Then(w, 40, ToLittle(e.hashOffset, 8));
    r := Put(r, low, high, RECORD_BYTES, e.path, w);
    FilledIs(r[low..high], Then(w, RECORD_BYTES, e.path));
    assert w == Numbers(e);
  }

  ghost predicate Appended(hash: Blake3, start: seq<Byte>, files: seq<File>, out: seq<Byte>, records: seq<Entry>) {
    out == start + Data(hash, files) && records == EntriesOf(files, |start|)
  }

  lemma AppendedNone(hash: Blake3, start: seq<Byte>)
    ensures Appended(hash, start, [], start, [])
  {
  }

  lemma DataAppended(hash: Blake3, start: seq<Byte>, files: seq<File>, f: File, out: seq<Byte>)
    requires out == start + Data(hash, files)
    ensures |out| == |start| + DataBytes(files) && out + Stored(hash, f) == start + Data(hash, files + [f])
  {
    hide Stored, Data, DataBytes;
    DataSize(hash, files);
    DataLast(hash, files, f);
    Associate(start, Data(hash, files), Stored(hash, f));
  }

  lemma AppendedNext(hash: Blake3, start: seq<Byte>, files: seq<File>, f: File, out: seq<Byte>, records: seq<Entry>,
                     e: Entry)
    requires Appended(hash, start, files, out, records) && e == EntryOf(f, |out|)
    ensures Appended(hash, start, files + [f], out + Stored(hash, f), records + [e])
  {
    hide Stored, EntryOf, Data, EntriesOf, DataBytes;
    DataAppended(hash, start, files, f, out);
    EntriesLast(files, f, |start|);
  }

  /** Appends every file, and notes where each went. */
  method AppendFiles(hash: Blake3, start: seq<Byte>, files: seq<File>) returns (out: seq<Byte>, records: seq<Entry>)
    ensures Appended(hash, start, files, out, records)
  {
    hide Stored, EntryOf, Appended;
    out, records := start, [];
    AppendedNone(hash, start);
    for i := 0 to |files|
      invariant Appended(hash, start, files[..i], out, records)
    {
      ghost var before := out;
      var e;
      out, e := AppendStored(hash, out, files[i]);
      AppendedNext(hash, start, files[..i], files[i], before, records, e);
      assert files[..i + 1] == files[..i] + [files[i]];
      records := records + [e];
    }
    assert files[..|files|] == files;
  }

  /** Writes every record over the zeros that were left for the directory. */
  method PutDirectory(start: seq<Byte>, records: seq<Entry>, low: nat, high: nat) returns (out: seq<Byte>)
    requires low <= high <= |start| && high - low == DirectoryBytes(records) && start[low..high] == Zeros(high - low)
    ensures |out| == |start| && out[..low] == start[..low] && out[high..] == start[high..]
    ensures out[low..high] == Directory(records)
  {
    hide Record, Directory, DirectoryBytes;
    out := start;
    var cursor := low;
    NoRecords();
    for i := 0 to |records|
      invariant |out| == |start| && cursor == low + DirectoryBytes(records[..i]) <= high
      invariant Written(start, out, records[..i], low, cursor, high)
    {
      ghost var before := out;
      var next := cursor + RECORD_BYTES + |records[i].path|;
      RecordRoom(records, i);
      RoomIsZero(start, out, records[..i], low, cursor, next, high);
      out := PutRecord(out, cursor, next, records[i]);
      WrittenNext(start, before, out, records[..i], records[i], low, cursor, next, high);
      assert records[..i + 1] == records[..i] + [records[i]];
      cursor := next;
    }
    assert records[..|records|] == records;
  }

  /** What the vector holds once the records up to `cursor` are written. */
  ghost predicate Written(start: seq<Byte>, out: seq<Byte>, records: seq<Entry>, low: nat, cursor: nat, high: nat)
  {
    && low <= cursor <= high <= |start| && |out| == |start|
    && out[..low] == start[..low] && out[high..] == start[high..]
    && out[low..cursor] == Directory(records) && out[cursor..high] == Zeros(high - cursor)
  }

  lemma NoRecords()
    ensures DirectoryBytes([]) == 0 && Directory([]) == []
  {
  }

  lemma {:induction false} SizeSplits(a: seq<Entry>, b: seq<Entry>)
    ensures DirectoryBytes(a + b) == DirectoryBytes(a) + DirectoryBytes(b)
  {
    if a == [] {
      assert a + b == b;
    } else {
      SizeSplits(a[1..], b);
      assert (a + b)[1..] == a[1..] + b;
    }
  }

  lemma RecordRoom(records: seq<Entry>, i: nat)
    requires i < |records|
    ensures DirectoryBytes(records[..i + 1]) ==
      DirectoryBytes(records[..i]) + RECORD_BYTES + |records[i].path| <= DirectoryBytes(records)
  {
    SizeSplits(records[..i], [records[i]]);
    SizeSplits(records[..i + 1], records[i + 1..]);
    assert records[..i + 1] == records[..i] + [records[i]];
    assert records == records[..i + 1] + records[i + 1..];
  }

  lemma RoomIsZero(start: seq<Byte>, out: seq<Byte>, records: seq<Entry>, low: nat, cursor: nat, next: nat, high: nat)
    requires Written(start, out, records, low, cursor, high) && cursor <= next <= high
    ensures Filled(out[cursor..next], []) && out[next..high] == Zeros(high - next)
  {
    hide Directory;
    PartAt(out, cursor, high, Zeros(high - cursor), 0, next - cursor, cursor, next);
    PartAt(out, cursor, high, Zeros(high - cursor), next - cursor, high - cursor, next, high);
    FilledFresh(out[cursor..next]);
  }

  lemma WrittenNext(start: seq<Byte>, before: seq<Byte>, out: seq<Byte>, records: seq<Entry>, e: Entry, low: nat,
                    cursor: nat, next: nat, high: nat)
    requires Written(start, before, records, low, cursor, high) && cursor <= next <= high && |out| == |before|
    requires out[..cursor] == before[..cursor] && out[next..] == before[next..] && out[cursor..next] == Record(e)
    requires before[next..high] == Zeros(high - next)
    ensures Written(start, out, records + [e], low, next, high)
  {
    hide Directory, Record;
    DirectoryLast(records, e);
    PartAt(out, 0, cursor, before[..cursor], 0, low, 0, low);
    PartAt(out, 0, cursor, before[..cursor], low, cursor, low, cursor);
    PartAt(before, 0, cursor, before[..cursor], 0, low, 0, low);
    PartAt(before, 0, cursor, before[..cursor], low, cursor, low, cursor);
    PartAt(out, next, |out|, before[next..], 0, high - next, next, high);
    PartAt(out, next, |out|, before[next..], high - next, |out| - next, high, |out|);
    assert out[low..next] == out[low..cursor] + out[cursor..next];
  }

  lemma RoomLeft(hash: Blake3, header: seq<Byte>, size: nat, files: seq<File>, out: seq<Byte>, records: seq<Entry>,
                 base: nat)
    requires |header| == HEADER_BYTES && size == PathBytes(files) && base == HEADER_BYTES + size
    requires Appended(hash, header + Zeros(size), files, out, records)
    ensures records == EntriesOf(files, base) && DirectoryBytes(records) == size && base <= |out|
    ensures out[..HEADER_BYTES] == header && out[HEADER_BYTES..base] == Zeros(size) && out[base..] == Data(hash, files)
  {
    hide Data, EntriesOf, PathBytes;
    DirectorySize(files, base);
    ThreeParts(out, header, Zeros(size), Data(hash, files), HEADER_BYTES, base);
  }

  lemma Complete(hash: Blake3, files: seq<File>, out: seq<Byte>, base: nat)
    requires base == HEADER_BYTES + PathBytes(files) <= |out|
    requires out[..HEADER_BYTES] == Header(|files|, PathBytes(files))
    requires out[HEADER_BYTES..base] == Directory(EntriesOf(files, base))
    requires out[base..] == Data(hash, files)
    ensures out == Unsigned(hash, files)
  {
    hide Header, Data, Directory, EntriesOf, PathBytes;
    assert out == out[..HEADER_BYTES] + out[HEADER_BYTES..base] + out[base..];
  }

  /** Writes the header over zeros. */
  method PutHeader(out: seq<Byte>, count: nat, directory: nat) returns (r: seq<Byte>)
    requires |out| >= HEADER_BYTES && Filled(out[0..HEADER_BYTES], [])
    ensures |r| == |out| && r[..HEADER_BYTES] == Header(count, directory) && r[HEADER_BYTES..] == out[HEADER_BYTES..]
  {
    hide ToLittle, Filled;
    r := Put(out, 0, HEADER_BYTES, 0, MAGIC, []);
    ghost var w := Then([], 0, MAGIC);
    r := Put(r, 0, HEADER_BYTES, 8, ToLittle(VERSION, 4), w);
    w := Then(w, 8, ToLittle(VERSION, 4));
    r := Put(r, 0, HEADER_BYTES, 12, ToLittle(count, 4), w);
    w := Then(w, 12, ToLittle(count, 4));
    r := Put(r, 0, HEADER_BYTES, 16, ToLittle(HEADER_BYTES, 8), w);
    w := Then(w, 16, ToLittle(HEADER_BYTES, 8));
    r := Put(r, 0, HEADER_BYTES, 24, ToLittle(directory, 8), w);
    w := Then(w, 24, ToLittle(directory, 8));
    FilledIs(r[0..HEADER_BYTES], w);
    assert w == Header(count, directory);
  }

  /** A header and room for a directory. */
  method StartArchive(count: nat, size: nat) returns (out: seq<Byte>)
    ensures out == Header(count, size) + Zeros(size)
  {
    hide Header, Filled;
    var room := Zeros(HEADER_BYTES + size);
    FilledFresh(room[0..HEADER_BYTES]);
    out := PutHeader(room, count, size);
    assert room[HEADER_BYTES..] == Zeros(size);
    assert out == out[..HEADER_BYTES] + out[HEADER_BYTES..];
  }

  /** The unsigned archive: header, room for the directory, the data, and then the directory. */
  method BuildUnsignedArchive(hash: Blake3, files: seq<File>) returns (r: Result<seq<Byte>>)
    ensures r == BuildUnsigned(hash, files)
  {
    hide Header, Data, Directory, DirectoryBytes, EntriesOf, PathBytes, Sort, PathError, Appended, Unsigned;
    var error := CheckPaths(files);
    if error.Some? {
      return Err(error.value);
    }
    var sorted := Sort(files);
    var size := PathBytes(sorted);
    var base := HEADER_BYTES + size;
    var start := StartArchive(|sorted|, size);
    var out, records := AppendFiles(hash, start, sorted);
    RoomLeft(hash, Header(|sorted|, size), size, sorted, out, records, base);
    out := PutDirectory(out, records, HEADER_BYTES, base);
    Complete(hash, sorted, out, base);
    return Ok(out);
  }

  /** Appends each certificate behind its length. */
  method AppendChain(start: seq<Byte>, chain: seq<seq<Byte>>) returns (out: seq<Byte>)
    ensures out == start + Certificates(chain)
  {
    hide ToLittle, Certificates;
    out := start;
    NoCertificates();
    for i := 0 to |chain|
      invariant out == start + Certificates(chain[..i])
    {
      CertificatesLast(chain[..i], chain[i]);
      assert chain[..i + 1] == chain[..i] + [chain[i]];
      Associate(start, Certificates(chain[..i]), ToLittle(|chain[i]|, 4));
      Associate(start, Certificates(chain[..i]) + ToLittle(|chain[i]|, 4), chain[i]);
      out := out + ToLittle(|chain[i]|, 4);
      out := out + chain[i];
    }
    assert chain[..|chain|] == chain;
  }

  lemma NoCertificates()
    ensures Certificates([]) == []
  {
  }

  lemma {:induction false} CertificatesLast(chain: seq<seq<Byte>>, last: seq<Byte>)
    ensures Certificates(chain + [last]) == Certificates(chain) + ToLittle(|last|, 4) + last
  {
    hide ToLittle;
    if chain == [] {
      assert chain + [last] == [last] && [last][1..] == [];
    } else {
      CertificatesLast(chain[1..], last);
      assert (chain + [last])[1..] == chain[1..] + [last];
    }
  }

  /** A field that follows the last one directly. */
  lemma ThenAppends(out: seq<Byte>, w: seq<Byte>, offset: nat, s: seq<Byte>)
    requires offset == |w|
    ensures out + w + s == out + Then(w, offset, s)
  {
    assert Zeros(0) == [];
    Associate(out, w, s);
  }

  /** Appends the fixed part of the signature block, field by field. */
  method AppendSignatureHeader(out: seq<Byte>, e: Envelope, signedLen: nat) returns (r: seq<Byte>)
    requires |e.keyId| == 32 && |e.digest| == 32
    ensures r == out + SignatureHeader(e, signedLen)
  {
    hide ToLittle, AlgorithmNumber;
    r := out + SIGNATURE_MAGIC;
    ghost var w := Then([], 0, SIGNATURE_MAGIC);
    assert w == SIGNATURE_MAGIC;
    ThenAppends(out, w, 8, ToLittle(VERSION, 4));
    r := r + ToLittle(VERSION, 4);
    w := Then(w, 8, ToLittle(VERSION, 4));
    ThenAppends(out, w, 12, ToLittle(AlgorithmNumber(e.algorithm), 4));
    r := r + ToLittle(AlgorithmNumber(e.algorithm), 4);
    w := Then(w, 12, ToLittle(AlgorithmNumber(e.algorithm), 4));
    ThenAppends(out, w, 16, ToLittle(signedLen, 8));
    r := r + ToLittle(signedLen, 8);
    w := Then(w, 16, ToLittle(signedLen, 8));
    ThenAppends(out, w, 24, e.keyId);
    r := r + e.keyId;
    w := Then(w, 24, e.keyId);
    ThenAppends(out, w, 56, e.digest);
    r := r + e.digest;
    w := Then(w, 56, e.digest);
    ThenAppends(out, w, 88, ToLittle(|e.chain|, 4));
    r := r + ToLittle(|e.chain|, 4);
    w := Then(w, 88, ToLittle(|e.chain|, 4));
    ThenAppends(out, w, 92, ToLittle(|e.signature|, 4));
    r := r + ToLittle(|e.signature|, 4);
    w := Then(w, 92, ToLittle(|e.signature|, 4));
    assert w == SignatureHeader(e, signedLen);
  }

  lemma SignedIs(u: seq<Byte>, e: Envelope, block: seq<Byte>, out: seq<Byte>)
    requires |e.keyId| == 32 && |e.digest| == 32
    requires block == SignatureHeader(e, |u|) + Certificates(e.chain) + e.signature
    requires out == u + SignatureHeader(e, |u|) + Certificates(e.chain) + e.signature
    ensures out == u + block && out + ToLittle(|out| - |u|, 8) == Signed(u, e)
  {
    hide SignatureHeader, Certificates, ToLittle;
    Associate(u, SignatureHeader(e, |u|), Certificates(e.chain));
    Associate(u, SignatureHeader(e, |u|) + Certificates(e.chain), e.signature);
  }

  /** The signed archive; the signer's answer for the content root is given. */
  method BuildArchive(hash: Blake3, files: seq<File>, keyId: seq<Byte>, algorithm: Algorithm, chain: seq<seq<Byte>>,
                      signature: seq<Byte>)
    returns (r: Result<seq<Byte>>)
    requires |keyId| == 32
    ensures r == Build(hash, files, keyId, algorithm, chain, signature)
  {
    hide BuildUnsigned, BadChain, SignatureHeader, Certificates, ToLittle, Signed, SignatureBlock;
    if BadChain(chain) {
      return Err(ChainTooLarge);
    }
    var unsigned := BuildUnsignedArchive(hash, files);
    if unsigned.Err? {
      return unsigned;
    }
    if |signature| > 64 {
      return Err(BadSignatureBlock);
    }
    var e := Envelope(algorithm, keyId, hash(unsigned.value), chain, signature);
    var out := AppendSignatureHeader(unsigned.value, e, |unsigned.value|);
    out := AppendChain(out, chain);
    out := out + signature;
    ghost var block := SignatureHeader(e, |unsigned.value|) + Certificates(chain) + signature;
    SignedIs(unsigned.value, e, block, out);
    out := out + ToLittle(|out| - |unsigned.value|, 8);
    return Ok(out);
  }

  // ---------- Parsing ----------

  /** A result that continues what was already collected. */
  function After<T>(done: seq<T>, rest: Result<seq<T>>): Result<seq<T>> {
    if rest.Ok? then Ok(done + rest.value) else rest
  }

  lemma AfterNone<T>(rest: Result<seq<T>>)
    ensures After([], rest) == rest
  {
    if rest.Ok? {
      assert [] + rest.value == rest.value;
    }
  }

  lemma AfterNext<T>(done: seq<T>, x: T, rest: Result<seq<T>>)
    ensures After(done, After([x], rest)) == After(done + [x], rest)
  {
    if rest.Ok? {
      assert done + ([x] + rest.value) == done + [x] + rest.value;
    }
  }

  /** One record, its path normalised. */
  method ReadRecord(utf8: seq<Byte> -> bool, bytes: seq<Byte>, cursor: nat, end: nat) returns (r: Result<Entry>)
    requires end <= |bytes|
    ensures r == ParseRecord(utf8, bytes, cursor, end)
  {
    hide Number, ValidPath;
    if cursor + RECORD_BYTES > end {
      return Err(UnexpectedEof);
    }
    var pathLen, compression := Number(bytes, cursor, 4), Number(bytes, cursor + 4, 4);
    if compression > 1 {
      return Err(UnsupportedCompression);
    }
    var mode, chunks := Number(bytes, cursor + 8, 4), Number(bytes, cursor + 12, 4);
    var size, storedOffset := Number(bytes, cursor + 16, 8), Number(bytes, cursor + 24, 8);
    var storedLen, hashOffset := Number(bytes, cursor + 32, 8), Number(bytes, cursor + 40, 8);
    if cursor + RECORD_BYTES + pathLen > |bytes| {
      return Err(UnexpectedEof);
    }
    var path := bytes[cursor + RECORD_BYTES..cursor + RECORD_BYTES + pathLen];
    if !utf8(path) {
      return Err(InvalidUtf8);
    }
    var normal := NormalizePath(path);
    if normal.None? {
      return Err(InvalidPath);
    }
    return Ok(Entry(normal.value, compression, mode, size, storedOffset, storedLen, hashOffset, chunks));
  }

  lemma DirectoryStep(utf8: seq<Byte> -> bool, bytes: seq<Byte>, cursor: nat, end: nat, count: nat,
                      last: Option<seq<Byte>>, signedLen: nat)
    requires end <= |bytes| && count > 0
    ensures var whole := ParseDirectory(utf8, bytes, cursor, end, count, last, signedLen);
      var parsed := ParseRecord(utf8, bytes, cursor, end);
      whole == if parsed.Err? then Err(parsed.error)
               else if last.Some? && parsed.value.path == last.value then Err(DuplicatePath)
               else if last.Some? && !Less(last.value, parsed.value.path) then Err(EntriesOutOfOrder)
               else if EntryBounds(parsed.value, signedLen).Some? then Err(EntryBounds(parsed.value, signedLen).value)
               else After([parsed.value],
                          ParseDirectory(utf8, bytes, cursor + RECORD_BYTES + |parsed.value.path|, end, count - 1,
                                                         Some(parsed.value.path), signedLen))
  {
    hide ParseRecord, EntryBounds, Less;
  }

  /** The directory, record by record, with the last path at hand. */
  method ReadDirectory(utf8: seq<Byte> -> bool, bytes: seq<Byte>, start: nat, end: nat, count: nat, signedLen: nat)
    returns (r: Result<seq<Entry>>)
    requires end <= |bytes|
    ensures r == ParseDirectory(utf8, bytes, start, end, count, None, signedLen)
  {
    hide ParseRecord, EntryBounds, Less, ParseDirectory;
    var cursor: nat, entries: seq<Entry>, last: Option<seq<Byte>> := start, [], None;
    ghost var whole := ParseDirectory(utf8, bytes, start, end, count, None, signedLen);
    AfterNone(whole);
    for i := 0 to count
      invariant whole == After(entries, ParseDirectory(utf8, bytes, cursor, end, count - i, last, signedLen))
    {
      DirectoryStep(utf8, bytes, cursor, end, count - i, last, signedLen);
      var parsed := ReadRecord(utf8, bytes, cursor, end);
      if parsed.Err? {
        return Err(parsed.error);
      }
      var e := parsed.value;
      if last.Some? && !Less(last.value, e.path) {
        if e.path == last.value {
          return Err(DuplicatePath);
        }
        return Err(EntriesOutOfOrder);
      }
      PathRepeats(last, e.path);
      var bounds := EntryBounds(e, signedLen);
      if bounds.Some? {
        return Err(bounds.value);
      }
      cursor, last := cursor + RECORD_BYTES + |e.path|, Some(e.path);
      AfterNext(entries, e, ParseDirectory(utf8, bytes, cursor, end, count - i - 1, last, signedLen));
      entries := entries + [e];
    }
    DirectoryEnd(utf8, bytes, cursor, end, last, signedLen);
    if cursor != end {
      return Err(UnexpectedEof);
    }
    assert entries + [] == entries;
    return Ok(entries);
  }

  /** A path before another is not equal to it. */
  lemma PathRepeats(last: Option<seq<Byte>>, path: seq<Byte>)
    requires last.Some? ==> Less(last.value, path)
    ensures last.Some? ==> path != last.value
  {
    if last.Some? {
      LessTotal(last.value, path);
    }
  }

  lemma DirectoryEnd(utf8: seq<Byte> -> bool, bytes: seq<Byte>, cursor: nat, end: nat, last: Option<seq<Byte>>,
                     signedLen: nat)
    requires end <= |bytes|
    ensures ParseDirectory(utf8, bytes, cursor, end, 0, last, signedLen) ==
            if cursor == end then Ok([]) else Err(UnexpectedEof)
  {
  }

  /** A chain that continues certificates already read. */
  function ChainAfter(done: seq<seq<Byte>>, rest: Result<(seq<seq<Byte>>, nat)>): Result<(seq<seq<Byte>>, nat)> {
    if rest.Ok? then Ok((done + rest.value.0, rest.value.1)) else rest
  }

  lemma ChainStep(block: seq<Byte>, offset: nat, count: nat, total: nat, done: seq<seq<Byte>>)
    requires count > 0 && offset + 4 <= |block|
    ensures var len := Number(block, offset, 4);
      ChainAfter(done, ParseChain(block, offset, count, total)) ==
        if len == 0 || total + len > MAX_CHAIN then Err(ChainTooLarge)
        else if offset + 4 + len > |block| then Err(UnexpectedEof)
        else ChainAfter(done + [block[offset + 4..offset + 4 + len]],
                        ParseChain(block, offset + 4 + len, count - 1, total + len))
  {
    hide Number;
    var len := Number(block, offset, 4);
    if 0 < len && total + len <= MAX_CHAIN && offset + 4 + len <= |block| {
      var cert := block[offset + 4..offset + 4 + len];
      var rest := ParseChain(block, offset + 4 + len, count - 1, total + len);
      if rest.Ok? {
        assert done + ([cert] + rest.value.0) == done + [cert] + rest.value.0;
      }
    }
  }

  lemma ChainStart(block: seq<Byte>, offset: nat, count: nat, total: nat)
    ensures ParseChain(block, offset, count, total) == ChainAfter([], ParseChain(block, offset, count, total))
  {
    hide ParseChain;
    var r := ParseChain(block, offset, count, total);
    if r.Ok? {
      assert [] + r.value.0 == r.value.0;
    }
  }

  method ReadChain(block: seq<Byte>, start: nat, count: nat) returns (r: Result<(seq<seq<Byte>>, nat)>)
    ensures r == ParseChain(block, start, count, 0)
  {
    hide Number;
    var offset: nat, chain: seq<seq<Byte>>, total: nat := start, [], 0;
    ChainStart(block, start, count, 0);
    for i := 0 to count
      invariant ParseChain(block, start, count, 0) == ChainAfter(chain, ParseChain(block, offset, count - i, total))
    {
      if offset + 4 > |block| {
        return Err(UnexpectedEof);
      }
      ChainStep(block, offset, count - i, total, chain);
      var len := Number(block, offset, 4);
      offset, total := offset + 4, total + len;
      if len == 0 || total > MAX_CHAIN {
        return Err(ChainTooLarge);
      }
      if offset + len > |block| {
        return Err(UnexpectedEof);
      }
      chain, offset := chain + [block[offset..offset + len]], offset + len;
    }
    assert chain + [] == chain;
    return Ok((chain, offset));
  }

  method ReadSignature(block: seq<Byte>) returns (r: Result<(Envelope, nat)>)
    ensures r == ParseSignature(block)
  {
    hide Number, ParseChain;
    if |block| < SIGNATURE_BYTES || block[..8] != SIGNATURE_MAGIC {
      return Err(BadSignatureBlock);
    }
    if Number(block, 8, 4) != VERSION {
      return Err(BadSignatureBlock);
    }
    var algorithm := Number(block, 12, 4);
    if algorithm != 1 && algorithm != 2 {
      return Err(UnknownSignatureAlgorithm);
    }
    var signedLen, count, length := Number(block, 16, 8), Number(block, 88, 4), Number(block, 92, 4);
    if count == 0 || count > MAX_CERTS {
      return Err(ChainTooLarge);
    }
    if length == 0 || length > 512 {
      return Err(BadSignatureBlock);
    }
    var chain := ReadChain(block, SIGNATURE_BYTES, count);
    if chain.Err? {
      return Err(chain.error);
    }
    var offset := chain.value.1;
    if offset + length > |block| {
      return Err(UnexpectedEof);
    }
    if offset + length != |block| {
      return Err(BadSignatureBlock);
    }
    var kind := if algorithm == 1 then Ed25519 else EcdsaP256;
    return Ok((Envelope(kind, block[24..56], block[56..88], chain.value.0, block[offset..]), signedLen));
  }

  /** Compares the hash of every chunk with the one stored for it. */
  method VerifyEntryChunks(hash: Blake3, bytes: seq<Byte>, e: Entry) returns (error: Option<Error>)
    ensures error == EntryError(hash, bytes, e)
  {
    hide ChunkHash, ChunkCount, ChunkError;
    if e.storedOffset + e.storedLen > |bytes| {
      return Some(UnexpectedEof);
    }
    var stored := bytes[e.storedOffset..e.storedOffset + e.storedLen];
    if e.chunks != ChunkCount(|stored|) {
      return Some(BadChunkHash);
    }
    for i := 0 to e.chunks
      invariant ChunkError(hash, bytes, e, 0) == ChunkError(hash, bytes, e, i)
    {
      var at := e.hashOffset + 32 * i;
      ChunkStep(hash, bytes, e, i, stored, at);
      if at + 32 > |bytes| {
        return Some(UnexpectedEof);
      }
      if ChunkHash(hash, stored, i) != bytes[at..at + 32] {
        return Some(BadChunkHash);
      }
    }
    ChunkErrorEnd(hash, bytes, e, e.chunks);
    return None;
  }

  lemma ChunkStep(hash: Blake3, bytes: seq<Byte>, e: Entry, i: nat, stored: seq<Byte>, at: nat)
    requires e.storedOffset + e.storedLen <= |bytes| && e.chunks == ChunkCount(e.storedLen) && i < e.chunks
    requires |stored| == e.storedLen && bytes[e.storedOffset..e.storedOffset + e.storedLen] == stored
    requires at == e.hashOffset + 32 * i
    ensures ChunkError(hash, bytes, e, i) ==
      if at + 32 > |bytes| then Some(UnexpectedEof)
      else if ChunkHash(hash, stored, i) != bytes[at..at + 32] then Some(BadChunkHash)
      else ChunkError(hash, bytes, e, i + 1)
  {
    hide ChunkHash, ChunkCount;
  }

  method VerifyEntries(hash: Blake3, bytes: seq<Byte>, entries: seq<Entry>) returns (error: Option<Error>)
    ensures error == EntriesError(hash, bytes, entries)
  {
    hide EntryError;
    for i := 0 to |entries|
      invariant EntriesError(hash, bytes, entries) == EntriesError(hash, bytes, entries[i..])
    {
      error := VerifyEntryChunks(hash, bytes, entries[i]);
      assert entries[i..][1..] == entries[i + 1..];
      if error.Some? {
        return error;
      }
    }
    return None;
  }

  /** Opens an archive: header, signature block, digest, directory, chunks. */
  method ParseArchive(hash: Blake3, utf8: seq<Byte> -> bool, bytes: seq<Byte>) returns (r: Result<Open>)
    ensures r == Parse(hash, utf8, bytes)
  {
    hide ParseDirectory, ParseSignature, EntriesError, Number, Locate;
    var place := Locate(bytes);
    if place.Err? {
      return Err(place.error);
    }
    var p := place.value;
    var block := ReadSignature(bytes[p.signedLen..p.footerAt]);
    if block.Err? {
      return Err(block.error);
    }
    if block.value.1 != p.signedLen {
      return Err(BadSignatureBlock);
    }
    if hash(bytes[..p.signedLen]) != block.value.0.digest {
      return Err(DigestMismatch);
    }
    if p.end >= WORD {
      return Err(LengthOverflow);
    }
    if p.end > |bytes| {
      return Err(UnexpectedEof);
    }
    var entries := ReadDirectory(utf8, bytes, p.start, p.end, p.count, p.signedLen);
    if entries.Err? {
      return Err(entries.error);
    }
    var error := VerifyEntries(hash, bytes, entries.value);
    if error.Some? {
      return Err(error.value);
    }
    return Ok(Open(entries.value, block.value.0));
  }

  /** Checks an entry's chunks again and returns its bytes, decompressed if need be. */
  method ReadEntry(hash: Blake3, unpack: (seq<Byte>, nat) -> Result<seq<Byte>>, bytes: seq<Byte>, e: Entry)
    returns (r: Result<seq<Byte>>)
    ensures r == ReadAny(hash, unpack, bytes, e)
  {
    hide ChunkError, ChunkCount, Contents;
    var error := VerifyEntryChunks(hash, bytes, e);
    if error.Some? {
      return Err(error.value);
    }
    return Contents(unpack, bytes[e.storedOffset..e.storedOffset + e.storedLen], e);
  }
}

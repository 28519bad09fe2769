/** Parsing what was built: the archive opens, its entries are in strictly increasing path order,
    and every file and the signer's envelope are read back exactly. */
module ArchiveRoundTrip {
  import opened Octets
  import opened ArchivePaths
  import opened ArchiveFormat

  // ---------- Records ----------

  /** Numbers that the record's fields can hold. */
  ghost predicate EntryFits(e: Entry) {
    && |e.path| < HALF && e.mode < HALF && e.chunks < HALF && e.compression <= 1
    && e.size < WORD && e.storedOffset < WORD && e.storedLen < WORD && e.hashOffset < WORD
  }

  lemma NumberFields(e: Entry)
    ensures var r := Numbers(e);
      && r[0..4] == ToLittle(|e.path|, 4) && r[4..8] == ToLittle(e.compression, 4) && r[8..12] == ToLittle(e.mode, 4)
      && r[12..16] == ToLittle(e.chunks, 4) && r[16..24] == ToLittle(e.size, 8)
      && r[24..32] == ToLittle(e.storedOffset, 8)
      && r[32..40] == ToLittle(e.storedLen, 8) && r[40..48] == ToLittle(e.hashOffset, 8)
  {
    hide ToLittle;
  }

  /** A number printed at `a` of something found at `cursor`. */
  lemma NumberAt(bytes: seq<Byte>, cursor: nat, part: seq<Byte>, a: nat, n: nat, v: nat)
    requires cursor + |part| <= |bytes| && bytes[cursor..cursor + |part|] == part && a + n <= |part|
    requires part[a..a + n] == ToLittle(v, n)
    requires (n == 4 && v < HALF) || (n == 8 && v < WORD)
    ensures cursor + a + n <= |bytes| && Number(bytes, cursor + a, n) == v
  {
    hide ToLittle, LittleEndian;
    LittleOf(v, n);
    PartAt(bytes, cursor, cursor + |part|, part, a, a + n, cursor + a, cursor + a + n);
  }

  lemma RecordNumbers(bytes: seq<Byte>, cursor: nat, e: Entry)
    requires cursor + |Record(e)| <= |bytes| && bytes[cursor..cursor + |Record(e)|] == Record(e) && EntryFits(e)
    ensures Number(bytes, cursor, 4) == |e.path| && Number(bytes, cursor + 4, 4) == e.compression
    ensures Number(bytes, cursor + 8, 4) == e.mode && Number(bytes, cursor + 12, 4) == e.chunks
    ensures Number(bytes, cursor + 16, 8) == e.size && Number(bytes, cursor + 24, 8) == e.storedOffset
    ensures Number(bytes, cursor + 32, 8) == e.storedLen && Number(bytes, cursor + 40, 8) == e.hashOffset
    ensures bytes[cursor + RECORD_BYTES..cursor + RECORD_BYTES + |e.path|] == e.path
  {
    hide ToLittle, LittleEndian, Numbers, Number;
    var numbers := Numbers(e);
    NumberFields(e);
    var size := |Record(e)|;
    PartAt(bytes, cursor, cursor + size, Record(e), 0, 48, cursor, cursor + 48);
    assert Record(e)[0..48] == numbers;
    assert bytes[cursor..cursor + |numbers|] == numbers;
    NumberAt(bytes, cursor, numbers, 0, 4, |e.path|);
    NumberAt(bytes, cursor, numbers, 4, 4, e.compression);
    NumberAt(bytes, cursor, numbers, 8, 4, e.mode);
    NumberAt(bytes, cursor, numbers, 12, 4, e.chunks);
    NumberAt(bytes, cursor, numbers, 16, 8, e.size);
    NumberAt(bytes, cursor, numbers, 24, 8, e.storedOffset);
    NumberAt(bytes, cursor, numbers, 32, 8, e.storedLen);
    NumberAt(bytes, cursor, numbers, 40, 8, e.hashOffset);
    PartAt(bytes, cursor, cursor + size, Record(e), RECORD_BYTES, size, cursor + RECORD_BYTES,
           cursor + RECORD_BYTES + |e.path|);
    assert Record(e)[RECORD_BYTES..size] == e.path;
  }

  lemma ParseRecordBuilt(utf8: seq<Byte> -> bool, bytes: seq<Byte>, cursor: nat, end: nat, e: Entry)
    requires cursor + |Record(e)| <= end <= |bytes| && bytes[cursor..cursor + |Record(e)|] == Record(e)
    requires EntryFits(e) && utf8(e.path) && ValidPath(e.path)
    ensures ParseRecord(utf8, bytes, cursor, end) == Ok(e)
  {
    hide Record, Number, ValidPath;
    RecordNumbers(bytes, cursor, e);
  }

  // ---------- The directory ----------

  ghost predicate FileFits(f: File) {
    |f.path| < HALF && f.mode < HALF && ChunkCount(|f.bytes|) < HALF
  }

  ghost predicate AllFit(files: seq<File>) {
    forall i :: 0 <= i < |files| ==> FileFits(files[i])
  }

  ghost predicate AllReadable(utf8: seq<Byte> -> bool, files: seq<File>) {
    forall i :: 0 <= i < |files| ==> utf8(files[i].path) && ValidPath(files[i].path)
  }

  function DataBytes(files: seq<File>): nat {
    if files == [] then 0 else StoredSize(files[0]) + DataBytes(files[1..])
  }

  lemma {:induction false} DirectorySize(files: seq<File>, offset: nat)
    ensures DirectoryBytes(EntriesOf(files, offset)) == PathBytes(files)
  {
    if files != [] {
      DirectorySize(files[1..], offset + StoredSize(files[0]));
    }
  }

  lemma EntryOfFits(f: File, offset: nat, signedLen: nat)
    requires FileFits(f) && offset + StoredSize(f) <= signedLen < WORD
    ensures EntryFits(EntryOf(f, offset)) && EntryBounds(EntryOf(f, offset), signedLen) == None
  {
  }

  lemma {:induction false} EntriesFirst(files: seq<File>, offset: nat)
    ensures EntriesOf(files, offset) ==
            if files == [] then [] else [EntryOf(files[0], offset)] +
                                        EntriesOf(files[1..], offset + StoredSize(files[0]))
  {
  }

  lemma DirectoryNone()
    ensures Directory([]) == []
  {
  }

  lemma {:induction false} ParseDirectoryBuilt(utf8: seq<Byte> -> bool, bytes: seq<Byte>, files: seq<File>, cursor: nat,
                                               end: nat,
                                               offset: nat, last: Option<seq<Byte>>, signedLen: nat)
    requires cursor <= end <= |bytes| && bytes[cursor..end] == Directory(EntriesOf(files, offset))
    requires Increasing(files) && AllFit(files) && AllReadable(utf8, files)
    requires last.Some? && files != [] ==> Less(last.value, files[0].path)
    requires offset + DataBytes(files) <= signedLen < WORD
    ensures ParseDirectory(utf8, bytes, cursor, end, |files|, last, signedLen) == Ok(EntriesOf(files, offset))
    decreases |files|
  {
    hide Record, ValidPath, ChunkCount, ParseRecord, Less, EntryBounds, EntriesOf, Directory;
    EntriesFirst(files, offset);
    if files == [] {
      DirectoryNone();
    } else {
      var f, rest := files[0], files[1..];
      var e, next := EntryOf(f, offset), offset + StoredSize(f);
      var tail := EntriesOf(rest, next);
      DirectoryFirst(bytes, cursor, end, e, tail);
      EntryOfFits(f, offset, signedLen);
      var after := cursor + |Record(e)|;
      ParseRecordBuilt(utf8, bytes, cursor, end, e);
      if last.Some? {
        LessTotal(last.value, f.path);
      }
      RestIncreasing(files);
      ParseDirectoryBuilt(utf8, bytes, rest, after, end, next, Some(f.path), signedLen);
    }
  }

  lemma DirectoryFirst(bytes: seq<Byte>, cursor: nat, end: nat, e: Entry, tail: seq<Entry>)
    requires cursor <= end <= |bytes| && bytes[cursor..end] == Directory([e] + tail)
    ensures cursor + |Record(e)| <= end
    ensures bytes[cursor..cursor + |Record(e)|] == Record(e) && bytes[cursor + |Record(e)|..end] == Directory(tail)
  {
    hide Record;
    assert ([e] + tail)[1..] == tail;
    var d := Directory([e] + tail);
    assert d == Record(e) + Directory(tail);
    var size := |Record(e)|;
    PartAt(bytes, cursor, end, d, 0, size, cursor, cursor + size);
    PartAt(bytes, cursor, end, d, size, |d|, cursor + size, end);
    assert d[0..size] == Record(e) && d[size..|d|] == Directory(tail);
  }

  // ---------- Chunks ----------

  lemma HashesNext(hash: Blake3, bytes: seq<Byte>, n: nat)
    requires 0 < n <= ChunkCount(|bytes|)
    ensures Hashes(hash, bytes, n) == Hashes(hash, bytes, n - 1) + ChunkHash(hash, bytes, n - 1)
  {
    hide ChunkHash, ChunkCount;
  }

  lemma LastHash(hash: Blake3, bytes: seq<Byte>, i: nat, low: nat, high: nat)
    requires i < ChunkCount(|bytes|) && low == 32 * i && high == low + 32
    ensures |Hashes(hash, bytes, i + 1)| == high && Hashes(hash, bytes, i + 1)[low..high] == ChunkHash(hash, bytes, i)
  {
    hide ChunkHash, ChunkCount, Hashes;
    HashesNext(hash, bytes, i + 1);
    SecondAt(Hashes(hash, bytes, i), ChunkHash(hash, bytes, i), 0, 32, low, high);
    WholeSlice(ChunkHash(hash, bytes, i), 32);
  }

  lemma {:induction false} HashAt(hash: Blake3, bytes: seq<Byte>, n: nat, i: nat, low: nat, high: nat)
    requires i < n <= ChunkCount(|bytes|) && low == 32 * i && high == low + 32
    ensures high <= |Hashes(hash, bytes, n)| && Hashes(hash, bytes, n)[low..high] == ChunkHash(hash, bytes, i)
    decreases n
  {
    hide ChunkHash, ChunkCount, Hashes;
    if n == i + 1 {
      LastHash(hash, bytes, i, low, high);
    } else {
      HashAt(hash, bytes, n - 1, i, low, high);
      HashesNext(hash, bytes, n);
      PrefixSlice(Hashes(hash, bytes, n - 1), ChunkHash(hash, bytes, n - 1), low, high);
    }
  }

  lemma StoredParts(hash: Blake3, bytes: seq<Byte>, f: File, offset: nat)
    requires offset + StoredSize(f) <= |bytes| && bytes[offset..offset + StoredSize(f)] == Stored(hash, f)
    ensures bytes[offset..offset + |f.bytes|] == f.bytes
    ensures bytes[offset + |f.bytes|..offset + StoredSize(f)] == Hashes(hash, f.bytes, ChunkCount(|f.bytes|))
  {
    hide Hashes, ChunkCount;
    var all, size := Stored(hash, f), |f.bytes|;
    PartAt(bytes, offset, offset + StoredSize(f), all, 0, size, offset, offset + size);
    PartAt(bytes, offset, offset + StoredSize(f), all, size, |all|, offset + size, offset + StoredSize(f));
    assert all[0..size] == f.bytes && all[size..|all|] == Hashes(hash, f.bytes, ChunkCount(|f.bytes|));
  }

  lemma ChunkErrorNext(hash: Blake3, bytes: seq<Byte>, e: Entry, i: nat, stored: seq<Byte>, at: nat)
    requires e.storedOffset + e.storedLen <= |bytes| && e.chunks == ChunkCount(e.storedLen) && i < e.chunks
    requires |stored| == e.storedLen && bytes[e.storedOffset..e.storedOffset + e.storedLen] == stored
    requires at == e.hashOffset + 32 * i && at + 32 <= |bytes| && bytes[at..at + 32] == ChunkHash(hash, stored, i)
    ensures ChunkError(hash, bytes, e, i) == ChunkError(hash, bytes, e, i + 1)
  {
    hide ChunkHash, ChunkCount;
  }

  lemma ChunkErrorEnd(hash: Blake3, bytes: seq<Byte>, e: Entry, i: nat)
    requires e.storedOffset + e.storedLen <= |bytes| && e.chunks == ChunkCount(e.storedLen) && i == e.chunks
    ensures ChunkError(hash, bytes, e, i) == None
  {
    hide ChunkHash, ChunkCount;
  }

  ghost predicate StoredAt(hash: Blake3, bytes: seq<Byte>, f: File, offset: nat) {
    offset + StoredSize(f) <= |bytes| && bytes[offset..offset + StoredSize(f)] == Stored(hash, f)
  }

  lemma ChunkStored(hash: Blake3, bytes: seq<Byte>, f: File, offset: nat, i: nat, at: nat)
    requires StoredAt(hash, bytes, f, offset) && i < ChunkCount(|f.bytes|) && at == offset + |f.bytes| + 32 * i
    ensures at + 32 <= |bytes| && bytes[at..at + 32] == ChunkHash(hash, f.bytes, i)
  {
    hide Hashes, ChunkHash, ChunkCount, Stored;
    StoredParts(hash, bytes, f, offset);
    var low, start, n := 32 * i, offset + |f.bytes|, ChunkCount(|f.bytes|);
    HashAt(hash, f.bytes, n, i, low, low + 32);
    PartAt(bytes, start, offset + StoredSize(f), Hashes(hash, f.bytes, n), low, low + 32, at, at + 32);
  }

  lemma StoredBytes(hash: Blake3, bytes: seq<Byte>, f: File, offset: nat, e: Entry)
    requires StoredAt(hash, bytes, f, offset) && e == EntryOf(f, offset)
    ensures e.storedOffset + e.storedLen <= |bytes| && bytes[e.storedOffset..e.storedOffset + e.storedLen] == f.bytes
    ensures |f.bytes| == e.storedLen == e.size && e.chunks == ChunkCount(e.storedLen)
    ensures e.hashOffset == offset + |f.bytes|
  {
    hide Hashes, ChunkHash, ChunkCount, Stored;
    StoredParts(hash, bytes, f, offset);
    SameSlice(bytes, offset, offset + |f.bytes|, e.storedOffset, e.storedOffset + e.storedLen);
  }

  ghost predicate GoodChunk(hash: Blake3, bytes: seq<Byte>, e: Entry, stored: seq<Byte>, i: nat)
    requires i < ChunkCount(|stored|)
  {
    var at := e.hashOffset + 32 * i;
    at + 32 <= |bytes| && bytes[at..at + 32] == ChunkHash(hash, stored, i)
  }

  lemma {:induction false} AllChunks(hash: Blake3, bytes: seq<Byte>, e: Entry, stored: seq<Byte>, i: nat)
    requires e.storedOffset + e.storedLen <= |bytes| && e.chunks == ChunkCount(e.storedLen) && i <= e.chunks
    requires |stored| == e.storedLen && bytes[e.storedOffset..e.storedOffset + e.storedLen] == stored
    requires forall k :: i <= k < e.chunks ==> GoodChunk(hash, bytes, e, stored, k)
    ensures ChunkError(hash, bytes, e, i) == None
    decreases e.chunks - i
  {
    hide ChunkHash, ChunkCount, ChunkError;
    if i == e.chunks {
      ChunkErrorEnd(hash, bytes, e, i);
    } else {
      assert GoodChunk(hash, bytes, e, stored, i);
      ChunkErrorNext(hash, bytes, e, i, stored, e.hashOffset + 32 * i);
      AllChunks(hash, bytes, e, stored, i + 1);
    }
  }

  lemma ChunkGood(hash: Blake3, bytes: seq<Byte>, f: File, offset: nat, e: Entry, k: nat)
    requires StoredAt(hash, bytes, f, offset) && e.hashOffset == offset + |f.bytes| && k < ChunkCount(|f.bytes|)
    ensures GoodChunk(hash, bytes, e, f.bytes, k)
  {
    hide ChunkHash, ChunkCount, StoredAt;
    ChunkStored(hash, bytes, f, offset, k, e.hashOffset + 32 * k);
  }

  lemma ChunksBuilt(hash: Blake3, bytes: seq<Byte>, f: File, offset: nat, e: Entry)
    requires StoredAt(hash, bytes, f, offset) && e.hashOffset == offset + |f.bytes|
    requires e.storedOffset + e.storedLen <= |bytes| && bytes[e.storedOffset..e.storedOffset + e.storedLen] == f.bytes
    requires |f.bytes| == e.storedLen && e.chunks == ChunkCount(e.storedLen)
    ensures ChunkError(hash, bytes, e, 0) == None
  {
    hide ChunkHash, ChunkCount, ChunkError, StoredAt, GoodChunk;
    forall k | 0 <= k < e.chunks ensures GoodChunk(hash, bytes, e, f.bytes, k) {
      ChunkGood(hash, bytes, f, offset, e, k);
    }
    AllChunks(hash, bytes, e, f.bytes, 0);
  }

  /** A stored file passes its chunk checks and reads back as it was. */
  lemma FileReadsBack(hash: Blake3, bytes: seq<Byte>, f: File, offset: nat, e: Entry)
    requires StoredAt(hash, bytes, f, offset) && e == EntryOf(f, offset) && e.compression == 0
    ensures EntryError(hash, bytes, e) == None && ReadFile(hash, bytes, e) == Ok(f.bytes)
  {
    hide ChunkError, ChunkCount, StoredAt, EntryOf;
    StoredBytes(hash, bytes, f, offset, e);
    ChunksBuilt(hash, bytes, f, offset, e);
  }

  lemma DataNext(hash: Blake3, files: seq<File>)
    requires files != []
    ensures Data(hash, files) == Stored(hash, files[0]) + Data(hash, files[1..])
  {
  }

  lemma DataFirst(hash: Blake3, bytes: seq<Byte>, files: seq<File>, offset: nat)
    requires files != [] && offset + |Data(hash, files)| <= |bytes|
    requires bytes[offset..offset + |Data(hash, files)|] == Data(hash, files)
    ensures var next := offset + StoredSize(files[0]);
      && next + |Data(hash, files[1..])| <= |bytes|
      && bytes[offset..next] == Stored(hash, files[0])
      && bytes[next..next + |Data(hash, files[1..])|] == Data(hash, files[1..])
  {
    hide Stored, StoredSize, Data;
    DataNext(hash, files);
    var all, first, rest := Data(hash, files), Stored(hash, files[0]), Data(hash, files[1..]);
    var size, next := StoredSize(files[0]), offset + StoredSize(files[0]);
    PartAt(bytes, offset, offset + |all|, all, 0, size, offset, next);
    PartAt(bytes, offset, offset + |all|, all, size, |all|, next, next + |rest|);
    assert all[0..size] == first && all[size..|all|] == rest;
  }

  lemma {:induction false} DataSize(hash: Blake3, files: seq<File>)
    ensures |Data(hash, files)| == DataBytes(files)
  {
    if files != [] {
      DataSize(hash, files[1..]);
    }
  }

  /** Every entry of built data is good, and the i-th reads back the i-th file. */
  lemma {:induction false} DataReadsBack(hash: Blake3, bytes: seq<Byte>, files: seq<File>, offset: nat)
    requires offset + |Data(hash, files)| <= |bytes| && bytes[offset..offset + |Data(hash, files)|] == Data(hash, files)
    ensures EntriesError(hash, bytes, EntriesOf(files, offset)) == None
    ensures forall i :: 0 <= i < |files| ==> Faithful(hash, bytes, EntriesOf(files, offset)[i], files[i])
    decreases |files|
  {
    hide Stored, EntryError, StoredSize, ChunkCount;
    if files != [] {
      DataFirst(hash, bytes, files, offset);
      FileReadsBack(hash, bytes, files[0], offset, EntryOf(files[0], offset));
      DataReadsBack(hash, bytes, files[1..], offset + StoredSize(files[0]));
      var entries := EntriesOf(files, offset);
      forall i | 0 <= i < |files| ensures Faithful(hash, bytes, entries[i], files[i]) {
        if i > 0 {
          assert entries[i] == EntriesOf(files[1..], offset + StoredSize(files[0]))[i - 1];
          assert files[i] == files[1..][i - 1];
        }
      }
    }
  }

  /** An entry that carries a file's path and mode, and reads back its bytes. */
  ghost predicate Faithful(hash: Blake3, bytes: seq<Byte>, e: Entry, f: File) {
    e.path == f.path && e.mode == f.mode && e.compression == 0 && ReadFile(hash, bytes, e) == Ok(f.bytes)
  }
}

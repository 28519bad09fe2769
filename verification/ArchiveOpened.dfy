/** What an archive that opens must be like, whoever made it: its digest covers everything that is ever read
    from it, its entries are in order and within the signed bytes, and every chunk has its hash. So what is
    read is decided by the signed bytes alone. */
module ArchiveOpened {
  import opened Octets
  import opened ArchivePaths
  import opened ArchiveFormat

  /** The entry's path is good, and its data and its hashes lie within the signed bytes. */
  ghost predicate EntryWithin(utf8: seq<Byte> -> bool, e: Entry, signedLen: nat) {
    && utf8(e.path) && ValidPath(e.path) && e.compression <= 1
    && e.storedOffset + e.storedLen <= signedLen && e.hashOffset + 32 * e.chunks <= signedLen
  }

  /** Every chunk of the entry's data hashes to what is stored for it. */
  ghost predicate ChunksMatch(hash: Blake3, bytes: seq<Byte>, e: Entry) {
    && e.storedOffset + e.storedLen <= |bytes| && e.chunks == ChunkCount(e.storedLen)
    && e.hashOffset + 32 * e.chunks <= |bytes|
    && forall i :: 0 <= i < e.chunks ==> ChunkMatches(hash, bytes, e, i)
  }

  ghost predicate ChunkMatches(hash: Blake3, bytes: seq<Byte>, e: Entry, i: nat)
    requires e.storedOffset + e.storedLen <= |bytes| && e.chunks == ChunkCount(e.storedLen)
    requires e.hashOffset + 32 * e.chunks <= |bytes| && i < e.chunks
  {
    var at := e.hashOffset + 32 * i;
    bytes[at..at + 32] == ChunkHash(hash, bytes[e.storedOffset..e.storedOffset + e.storedLen], i)
  }

  ghost predicate InOrder(entries: seq<Entry>, last: Option<seq<Byte>>) {
    && (last.Some? && entries != [] ==> Less(last.value, entries[0].path))
    && forall i :: 0 <= i < |entries| - 1 ==> Less(entries[i].path, entries[i + 1].path)
  }

  // ---------- Chunks ----------

  lemma {:induction false} ChunksChecked(hash: Blake3, bytes: seq<Byte>, e: Entry, from: nat, i: nat)
    requires e.storedOffset + e.storedLen <= |bytes| && e.chunks == ChunkCount(e.storedLen) && from <= i < e.chunks
    requires e.hashOffset + 32 * e.chunks <= |bytes| && ChunkError(hash, bytes, e, from) == None
    ensures ChunkMatches(hash, bytes, e, i)
    decreases i - from
  {
    hide ChunkHash, ChunkCount;
    if from < i {
      ChunksChecked(hash, bytes, e, from + 1, i);
    }
  }

  lemma {:induction false} ChunksEnough(hash: Blake3, bytes: seq<Byte>, e: Entry, from: nat)
    requires ChunksMatch(hash, bytes, e) && from <= e.chunks
    ensures ChunkError(hash, bytes, e, from) == None
    decreases e.chunks - from
  {
    hide ChunkHash, ChunkCount;
    if from < e.chunks {
      assert ChunkMatches(hash, bytes, e, from);
      ChunksEnough(hash, bytes, e, from + 1);
    }
  }

  /** The check passes exactly when every chunk matches. */
  lemma EntryChecked(hash: Blake3, bytes: seq<Byte>, e: Entry)
    requires e.hashOffset + 32 * e.chunks <= |bytes|
    ensures EntryError(hash, bytes, e) == None <==> ChunksMatch(hash, bytes, e)
  {
    hide ChunkHash, ChunkCount, ChunkError, ChunkMatches;
    if EntryError(hash, bytes, e) == None {
      forall i | 0 <= i < e.chunks ensures ChunkMatches(hash, bytes, e, i) {
        ChunksChecked(hash, bytes, e, 0, i);
      }
    }
    if ChunksMatch(hash, bytes, e) {
      ChunksEnough(hash, bytes, e, 0);
    }
  }

  lemma {:induction false} EntriesChecked(hash: Blake3, bytes: seq<Byte>, entries: seq<Entry>, i: nat)
    requires i < |entries| && EntriesError(hash, bytes, entries) == None
    ensures EntryError(hash, bytes, entries[i]) == None
  {
    hide EntryError;
    if i > 0 {
      EntriesChecked(hash, bytes, entries[1..], i - 1);
    }
  }

  // ---------- The directory ----------

  lemma RecordWithin(utf8: seq<Byte> -> bool, bytes: seq<Byte>, cursor: nat, end: nat, signedLen: nat)
    requires end <= |bytes| && ParseRecord(utf8, bytes, cursor, end).Ok?
    requires EntryBounds(ParseRecord(utf8, bytes, cursor, end).value, signedLen) == None
    ensures EntryWithin(utf8, ParseRecord(utf8, bytes, cursor, end).value, signedLen)
  {
    hide ValidPath, Number;
  }

  lemma {:induction false} DirectoryIs(utf8: seq<Byte> -> bool, bytes: seq<Byte>, cursor: nat, end: nat, count: nat,
                                       last: Option<seq<Byte>>, signedLen: nat)
    requires end <= |bytes| && ParseDirectory(utf8, bytes, cursor, end, count, last, signedLen).Ok?
    ensures var entries := ParseDirectory(utf8, bytes, cursor, end, count, last, signedLen).value;
      && |entries| == count && InOrder(entries, last) && cursor <= end
      && forall i :: 0 <= i < count ==> EntryWithin(utf8, entries[i], signedLen)
    decreases count
  {
    hide ParseRecord, EntryBounds, EntryWithin, Less;
    if count > 0 {
      var first := ParseRecord(utf8, bytes, cursor, end).value;
      RecordWithin(utf8, bytes, cursor, end, signedLen);
      DirectoryIs(utf8, bytes, cursor + RECORD_BYTES + |first.path|, end, count - 1, Some(first.path), signedLen);
    }
  }

  /** A record is read from its own bytes. */
  lemma RecordSame(utf8: seq<Byte> -> bool, a: seq<Byte>, b: seq<Byte>, cursor: nat, end: nat)
    requires end <= |a| && end <= |b| && a[..end] == b[..end] && ParseRecord(utf8, a, cursor, end).Ok?
    requires cursor + RECORD_BYTES + |ParseRecord(utf8, a, cursor, end).value.path| <= end
    ensures ParseRecord(utf8, b, cursor, end) == ParseRecord(utf8, a, cursor, end)
  {
    hide ValidPath, LittleEndian;
    NumberSame(a, b, end, cursor, 4);
    NumberSame(a, b, end, cursor + 4, 4);
    NumberSame(a, b, end, cursor + 8, 4);
    NumberSame(a, b, end, cursor + 12, 4);
    NumberSame(a, b, end, cursor + 16, 8);
    NumberSame(a, b, end, cursor + 24, 8);
    NumberSame(a, b, end, cursor + 32, 8);
    NumberSame(a, b, end, cursor + 40, 8);
    var pathEnd := cursor + RECORD_BYTES + |ParseRecord(utf8, a, cursor, end).value.path|;
    SliceSame(a, b, end, cursor + RECORD_BYTES, pathEnd);
  }

  lemma SliceSame(a: seq<Byte>, b: seq<Byte>, end: nat, from: nat, upTo: nat)
    requires end <= |a| && end <= |b| && a[..end] == b[..end] && from <= upTo <= end
    ensures a[from..upTo] == b[from..upTo]
  {
    assert a[from..upTo] == a[..end][from..upTo] && b[from..upTo] == b[..end][from..upTo];
  }

  lemma NumberSame(a: seq<Byte>, b: seq<Byte>, end: nat, offset: nat, width: nat)
    requires end <= |a| && end <= |b| && a[..end] == b[..end] && offset + width <= end
    ensures Number(a, offset, width) == Number(b, offset, width)
  {
    hide LittleEndian;
    SliceSame(a, b, end, offset, offset + width);
  }

  lemma {:induction false} DirectorySame(utf8: seq<Byte> -> bool, a: seq<Byte>, b: seq<Byte>, cursor: nat, end: nat,
                                         count: nat, last: Option<seq<Byte>>, signedLen: nat)
    requires end <= |a| && end <= |b| && a[..end] == b[..end]
    requires ParseDirectory(utf8, a, cursor, end, count, last, signedLen).Ok?
    ensures ParseDirectory(utf8, b, cursor, end, count, last, signedLen) ==
            ParseDirectory(utf8, a, cursor, end, count, last, signedLen)
    decreases count
  {
    hide ParseRecord, EntryBounds, Less;
    if count > 0 {
      var first := ParseRecord(utf8, a, cursor, end).value;
      var next := cursor + RECORD_BYTES + |first.path|;
      DirectoryIs(utf8, a, next, end, count - 1, Some(first.path), signedLen);
      RecordSame(utf8, a, b, cursor, end);
      DirectorySame(utf8, a, b, next, end, count - 1, Some(first.path), signedLen);
    }
  }

  // ---------- What opens ----------

  /** How much of an archive is signed, as its footer says. */
  function SignedPart(bytes: seq<Byte>): seq<Byte> {
    if Locate(bytes).Ok? then bytes[..Locate(bytes).value.signedLen] else []
  }

  /** The digest in the envelope is that of the signed part; the entries are in strict path order; each has a
      good path and lies, with its hashes, in the signed part; and every chunk matches. */
  lemma OpenedIs(hash: Blake3, utf8: seq<Byte> -> bool, bytes: seq<Byte>)
    requires |bytes| < WORD && Parse(hash, utf8, bytes).Ok?
    ensures var open, signed := Parse(hash, utf8, bytes).value, SignedPart(bytes);
      && signed <= bytes && hash(signed) == open.signer.digest && InOrder(open.entries, None)
      && |open.entries| == Locate(bytes).value.count
      && forall i :: 0 <= i < |open.entries| ==>
           EntryWithin(utf8, open.entries[i], |signed|) && ChunksMatch(hash, bytes, open.entries[i])
  {
    hide Locate, ParseSignature, ParseDirectory, EntriesError, EntryWithin, ChunksMatch, InOrder;
    var p, entries := Locate(bytes).value, Parse(hash, utf8, bytes).value.entries;
    DirectoryIs(utf8, bytes, p.start, p.end, p.count, None, p.signedLen);
    forall i | 0 <= i < |entries| ensures ChunksMatch(hash, bytes, entries[i]) {
      EntriesChecked(hash, bytes, entries, i);
      WithinHashes(utf8, entries[i], p.signedLen);
      EntryChecked(hash, bytes, entries[i]);
    }
  }

  lemma WithinHashes(utf8: seq<Byte> -> bool, e: Entry, signedLen: nat)
    requires EntryWithin(utf8, e, signedLen)
    ensures e.hashOffset + 32 * e.chunks <= signedLen && e.storedOffset + e.storedLen <= signedLen
  {
  }

  /** Two archives that open and have the same signed part hold the same entries, and every entry has the
      same data: nothing outside the signed part is ever read. */
  lemma SignedPartDecides(hash: Blake3, utf8: seq<Byte> -> bool, a: seq<Byte>, b: seq<Byte>)
    requires |a| < WORD && |b| < WORD && Parse(hash, utf8, a).Ok? && Parse(hash, utf8, b).Ok?
    requires SignedPart(a) == SignedPart(b)
    ensures Parse(hash, utf8, b).value.entries == Parse(hash, utf8, a).value.entries
    ensures forall i :: 0 <= i < |Parse(hash, utf8, a).value.entries| ==>
      SameData(a, b, Parse(hash, utf8, a).value.entries[i])
  {
    hide Parse, Locate, EntryWithin, ChunksMatch, InOrder;
    EntriesSame(hash, utf8, a, b);
    OpenedIs(hash, utf8, a);
    var entries, n := Parse(hash, utf8, a).value.entries, |SignedPart(a)|;
    PartPrefix(a);
    PartPrefix(b);
    forall i | 0 <= i < |entries| ensures SameData(a, b, entries[i]) {
      WithinHashes(utf8, entries[i], n);
      SliceSame(a, b, n, entries[i].storedOffset, entries[i].storedOffset + entries[i].storedLen);
    }
  }

  lemma PartPrefix(bytes: seq<Byte>)
    ensures |SignedPart(bytes)| <= |bytes| && SignedPart(bytes) == bytes[..|SignedPart(bytes)|]
  {
    hide Locate;
  }

  /** So archives that open with the same digest hold the same, unless their signed parts are a collision. */
  lemma DigestDecides(hash: Blake3, utf8: seq<Byte> -> bool, a: seq<Byte>, b: seq<Byte>)
    requires |a| < WORD && |b| < WORD && Parse(hash, utf8, a).Ok? && Parse(hash, utf8, b).Ok?
    requires Parse(hash, utf8, a).value.signer.digest == Parse(hash, utf8, b).value.signer.digest
    ensures || Parse(hash, utf8, b).value.entries == Parse(hash, utf8, a).value.entries
            || (SignedPart(a) != SignedPart(b) && hash(SignedPart(a)) == hash(SignedPart(b)))
  {
    hide Parse, SignedPart, InOrder, EntryWithin, ChunksMatch;
    OpenedIs(hash, utf8, a);
    OpenedIs(hash, utf8, b);
    if SignedPart(a) == SignedPart(b) {
      EntriesSame(hash, utf8, a, b);
    }
  }

  ghost predicate SameData(a: seq<Byte>, b: seq<Byte>, e: Entry) {
    var end := e.storedOffset + e.storedLen;
    end <= |a| && end <= |b| && a[e.storedOffset..end] == b[e.storedOffset..end]
  }

  /** The header is part of what is signed, unless too little is signed for it. */
  lemma PlacesSame(a: seq<Byte>, b: seq<Byte>)
    requires Locate(a).Ok? && Locate(b).Ok? && SignedPart(a) == SignedPart(b) && HEADER_BYTES <= |SignedPart(a)|
    ensures var p, q := Locate(a).value, Locate(b).value; q == p.(footerAt := q.footerAt)
  {
    hide LittleEndian, MAGIC, LEGACY_MAGIC;
    PartPrefix(a);
    PartPrefix(b);
    var n := |SignedPart(a)|;
    NumberSame(a, b, n, 12, 4);
    NumberSame(a, b, n, 16, 8);
    NumberSame(a, b, n, 24, 8);
  }

  /** There is no room for a record in so few bytes. */
  lemma NoRoom(utf8: seq<Byte> -> bool, bytes: seq<Byte>, start: nat, end: nat, count: nat, signedLen: nat)
    requires end <= |bytes| && end < HEADER_BYTES && ParseDirectory(utf8, bytes, start, end, count, None, signedLen).Ok?
    ensures ParseDirectory(utf8, bytes, start, end, count, None, signedLen) == Ok([])
  {
    hide ValidPath, Number, EntryBounds, Less;
  }

  lemma OpenedDirectory(hash: Blake3, utf8: seq<Byte> -> bool, bytes: seq<Byte>)
    requires |bytes| < WORD && Parse(hash, utf8, bytes).Ok?
    ensures Locate(bytes).Ok?
    ensures var p := Locate(bytes).value;
      && p.end <= p.signedLen == |SignedPart(bytes)| <= |bytes|
      && ParseDirectory(utf8, bytes, p.start, p.end, p.count, None, p.signedLen) ==
         Ok(Parse(hash, utf8, bytes).value.entries)
  {
    hide Locate, ParseSignature, ParseDirectory, EntriesError;
    OpenedWithin(hash, utf8, bytes);
  }

  lemma EntriesSame(hash: Blake3, utf8: seq<Byte> -> bool, a: seq<Byte>, b: seq<Byte>)
    requires |a| < WORD && |b| < WORD && Parse(hash, utf8, a).Ok? && Parse(hash, utf8, b).Ok?
    requires SignedPart(a) == SignedPart(b)
    ensures Parse(hash, utf8, b).value.entries == Parse(hash, utf8, a).value.entries
  {
    hide Parse, Locate, ParseDirectory, SignedPart;
    OpenedDirectory(hash, utf8, a);
    OpenedDirectory(hash, utf8, b);
    var p, q := Locate(a).value, Locate(b).value;
    if p.signedLen < HEADER_BYTES {
      NoRoom(utf8, a, p.start, p.end, p.count, p.signedLen);
      NoRoom(utf8, b, q.start, q.end, q.count, q.signedLen);
    } else {
      PlacesSame(a, b);
      PartPrefix(a);
      PartPrefix(b);
      assert a[..p.end] == SignedPart(a)[..p.end] && b[..p.end] == SignedPart(b)[..p.end];
      DirectorySame(utf8, a, b, p.start, p.end, p.count, None, p.signedLen);
    }
  }
}

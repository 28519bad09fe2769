/** The signed archive as a whole: what the builder produces opens exactly when no certificate and
    not the signature is empty, and then gives back every file and the signer's envelope. */
module ArchiveSigned {
  import opened Octets
  import opened ArchivePaths
  import opened ArchiveFormat
  import opened ArchiveRoundTrip

  // ---------- The signature block ----------

  predicate AllFilled(chain: seq<seq<Byte>>) {
    forall i :: 0 <= i < |chain| ==> chain[i] != []
  }

  lemma CertificatesNext(chain: seq<seq<Byte>>, rest: seq<Byte>)
    requires chain != []
    ensures Certificates(chain) + rest == ToLittle(|chain[0]|, 4) + chain[0] + (Certificates(chain[1..]) + rest)
  {
    hide ToLittle;
  }

  lemma ChainNext(block: seq<Byte>, offset: nat, chain: seq<seq<Byte>>, rest: seq<Byte>)
    requires chain != [] && offset <= |block| && block[offset..] == Certificates(chain) + rest && |chain[0]| < HALF
    ensures var len := |chain[0]|; var next := offset + 4 + len;
      && next <= |block| && Number(block, offset, 4) == len && block[offset + 4..next] == chain[0]
      && block[next..] == Certificates(chain[1..]) + rest
  {
    hide ToLittle, LittleEndian, Certificates;
    var len, tail := |chain[0]|, block[offset..];
    var next, more := offset + 4 + len, Certificates(chain[1..]) + rest;
    LittleOf(len, 4);
    CertificatesNext(chain, rest);
    ThreeParts(tail, ToLittle(len, 4), chain[0], more, 4, 4 + len);
    PartAt(block, offset, |block|, tail, 0, 4, offset, offset + 4);
    PartAt(block, offset, |block|, tail, 4, 4 + len, offset + 4, next);
    PartAt(block, offset, |block|, tail, 4 + len, |tail|, next, |block|);
  }

  /** A printed chain parses back, unless one of its certificates is empty. */
  lemma {:induction false} ParseChainBuilt(block: seq<Byte>, offset: nat, chain: seq<seq<Byte>>, rest: seq<Byte>,
                                           total: nat)
    requires offset <= |block| && block[offset..] == Certificates(chain) + rest
    requires total + ChainBytes(chain) <= MAX_CHAIN
    ensures var r := ParseChain(block, offset, |chain|, total);
      if AllFilled(chain) then r.Ok? && r.value.0 == chain && r.value.1 + |rest| == |block| else r == Err(ChainTooLarge)
    decreases |chain|
  {
    hide Number;
    if chain == [] {
      assert |block[offset..]| == |rest|;
    } else {
      ChainNext(block, offset, chain, rest);
      var next := offset + 4 + |chain[0]|;
      FilledNext(chain);
      if chain[0] != [] {
        ParseChainBuilt(block, next, chain[1..], rest, total + |chain[0]|);
        assert [chain[0]] + chain[1..] == chain;
      }
    }
  }

  lemma FilledNext(chain: seq<seq<Byte>>)
    requires chain != []
    ensures AllFilled(chain) <==> chain[0] != [] && AllFilled(chain[1..])
  {
    if AllFilled(chain) {
      assert forall i :: 0 <= i < |chain[1..]| ==> chain[1..][i] == chain[i + 1];
    } else {
      var i :| 0 <= i < |chain| && chain[i] == [];
      if i > 0 {
        assert chain[1..][i - 1] == [];
      }
    }
  }

  lemma SignatureFields(e: Envelope, signedLen: nat)
    requires |e.keyId| == 32 && |e.digest| == 32
    ensures var h := SignatureHeader(e, signedLen);
      && h[..8] == SIGNATURE_MAGIC && h[8..12] == ToLittle(VERSION, 4)
      && h[12..16] == ToLittle(AlgorithmNumber(e.algorithm), 4)
      && h[16..24] == ToLittle(signedLen, 8) && h[24..56] == e.keyId && h[56..88] == e.digest
      && h[88..92] == ToLittle(|e.chain|, 4) && h[92..96] == ToLittle(|e.signature|, 4)
  {
    hide ToLittle, AlgorithmNumber;
  }

  /** The numbers and strings at the fixed offsets of a printed block. */
  lemma SignatureNumbers(e: Envelope, signedLen: nat, block: seq<Byte>)
    requires |e.keyId| == 32 && |e.digest| == 32 && signedLen < WORD && |e.chain| < HALF && |e.signature| < HALF
    requires |block| >= SIGNATURE_BYTES && block[..SIGNATURE_BYTES] == SignatureHeader(e, signedLen)
    ensures block[..8] == SIGNATURE_MAGIC && Number(block, 8, 4) == VERSION
    ensures Number(block, 12, 4) == AlgorithmNumber(e.algorithm)
    ensures Number(block, 16, 8) == signedLen && block[24..56] == e.keyId && block[56..88] == e.digest
    ensures Number(block, 88, 4) == |e.chain| && Number(block, 92, 4) == |e.signature|
  {
    hide ToLittle, LittleEndian, SignatureHeader, Number, SIGNATURE_MAGIC;
    var h := SignatureHeader(e, signedLen);
    SignatureFields(e, signedLen);
    PartAt(block, 0, SIGNATURE_BYTES, h, 0, 8, 0, 8);
    PartAt(block, 0, SIGNATURE_BYTES, h, 24, 56, 24, 56);
    PartAt(block, 0, SIGNATURE_BYTES, h, 56, 88, 56, 88);
    NumberAt(block, 0, h, 8, 4, VERSION);
    NumberAt(block, 0, h, 12, 4, AlgorithmNumber(e.algorithm));
    NumberAt(block, 0, h, 16, 8, signedLen);
    NumberAt(block, 0, h, 88, 4, |e.chain|);
    NumberAt(block, 0, h, 92, 4, |e.signature|);
  }

  lemma BlockParts(e: Envelope, signedLen: nat)
    requires |e.keyId| == 32 && |e.digest| == 32
    ensures var block := SignatureBlock(e, signedLen);
      && block[..SIGNATURE_BYTES] == SignatureHeader(e, signedLen)
      && block[SIGNATURE_BYTES..] == Certificates(e.chain) + e.signature
      && block[|block| - |e.signature|..] == e.signature
  {
    hide SignatureHeader, Certificates;
  }

  /** What the builder lets through but the parser does not: an empty signature or certificate. */
  lemma ParseSignatureBuilt(e: Envelope, signedLen: nat)
    requires |e.keyId| == 32 && |e.digest| == 32 && signedLen < WORD && !BadChain(e.chain) && |e.signature| <= 64
    ensures ParseSignature(SignatureBlock(e, signedLen)) ==
      if e.signature == [] then Err(BadSignatureBlock)
      else if AllFilled(e.chain) then Ok((e, signedLen))
      else Err(ChainTooLarge)
  {
    hide SignatureBlock, Number, ParseChain, SignatureHeader, Certificates, AllFilled, SIGNATURE_MAGIC;
    var block := SignatureBlock(e, signedLen);
    BlockParts(e, signedLen);
    SignatureNumbers(e, signedLen, block);
    ParseChainBuilt(block, SIGNATURE_BYTES, e.chain, e.signature, 0);
  }

  // ---------- The whole ----------

  /** Sizes that the header's fields can hold. */
  ghost predicate ArchiveFits(files: seq<File>) {
    AllFit(files) && |files| < HALF && HEADER_BYTES + PathBytes(files) + DataBytes(files) < WORD
  }

  lemma HeaderFields(count: nat, directory: nat)
    ensures var h := Header(count, directory);
      && h[..8] == MAGIC && h[8..12] == ToLittle(VERSION, 4) && h[12..16] == ToLittle(count, 4)
      && h[16..24] == ToLittle(HEADER_BYTES, 8) && h[24..32] == ToLittle(directory, 8)
  {
    hide ToLittle;
  }

  lemma HeaderNumbers(bytes: seq<Byte>, count: nat, directory: nat)
    requires |bytes| >= HEADER_BYTES && bytes[..HEADER_BYTES] == Header(count, directory) && count < HALF
    requires directory < WORD
    ensures bytes[..8] == MAGIC && bytes[..8] != LEGACY_MAGIC && Number(bytes, 8, 4) == VERSION
    ensures Number(bytes, 12, 4) == count
    ensures Number(bytes, 16, 8) == HEADER_BYTES && Number(bytes, 24, 8) == directory
  {
    hide ToLittle, LittleEndian, Header, Number;
    var h := Header(count, directory);
    HeaderFields(count, directory);
    PartAt(bytes, 0, HEADER_BYTES, h, 0, 8, 0, 8);
    assert MAGIC[7] != LEGACY_MAGIC[7];
    NumberAt(bytes, 0, h, 8, 4, VERSION);
    NumberAt(bytes, 0, h, 12, 4, count);
    NumberAt(bytes, 0, h, 16, 8, HEADER_BYTES);
    NumberAt(bytes, 0, h, 24, 8, directory);
  }

  /** Where the parts of an unsigned archive stand in anything that starts with it. */
  lemma UnsignedParts(hash: Blake3, files: seq<File>, bytes: seq<Byte>, u: seq<Byte>, base: nat)
    requires u == Unsigned(hash, files) && base == HEADER_BYTES + PathBytes(files) && |u| <= |bytes|
    requires bytes[..|u|] == u
    ensures |u| == base + DataBytes(files) && bytes[..HEADER_BYTES] == Header(|files|, PathBytes(files))
    ensures bytes[HEADER_BYTES..base] == Directory(EntriesOf(files, base))
    ensures |Data(hash, files)| == DataBytes(files) && bytes[base..base + |Data(hash, files)|] == Data(hash, files)
  {
    hide Header, Directory, Data, EntriesOf, PathBytes, DataBytes;
    DirectorySize(files, base);
    DataSize(hash, files);
    var h, d, data := Header(|files|, PathBytes(files)), Directory(EntriesOf(files, base)), Data(hash, files);
    ThreeParts(u, h, d, data, HEADER_BYTES, base);
    PartAt(bytes, 0, |u|, u, 0, HEADER_BYTES, 0, HEADER_BYTES);
    PartAt(bytes, 0, |u|, u, HEADER_BYTES, base, HEADER_BYTES, base);
    PartAt(bytes, 0, |u|, u, base, |u|, base, base + |data|);
  }

  /** Where the parts of a signed archive stand. */
  lemma SignedParts(u: seq<Byte>, e: Envelope, bytes: seq<Byte>, block: seq<Byte>, footerAt: nat)
    requires |e.keyId| == 32 && |e.digest| == 32 && bytes == Signed(u, e) && block == SignatureBlock(e, |u|)
    requires |block| < WORD
    requires footerAt == |u| + |block|
    ensures |bytes| == footerAt + 8 && bytes[..|u|] == u && bytes[|u|..footerAt] == block
    ensures Number(bytes, footerAt, 8) == |block|
  {
    hide SignatureBlock, ToLittle, LittleEndian;
    LittleOf(|block|, 8);
    ThreeParts(bytes, u, block, ToLittle(|block|, 8), |u|, footerAt);
  }

  lemma {:induction false} ChainSize(chain: seq<seq<Byte>>)
    ensures |Certificates(chain)| == 4 * |chain| + ChainBytes(chain)
  {
    if chain != [] {
      ChainSize(chain[1..]);
    }
  }

  lemma BlockSize(e: Envelope, signedLen: nat)
    requires |e.keyId| == 32 && |e.digest| == 32 && !BadChain(e.chain) && |e.signature| <= 64
    ensures SIGNATURE_BYTES <= |SignatureBlock(e, signedLen)| < WORD
  {
    hide SignatureHeader, Certificates, ChainBytes;
    ChainSize(e.chain);
  }

  /** Files in path order, as the builder arranges them. */
  ghost predicate Arranged(utf8: seq<Byte> -> bool, files: seq<File>) {
    Increasing(files) && AllReadable(utf8, files) && ArchiveFits(files)
  }

  lemma DirectoryReadsBack(hash: Blake3, utf8: seq<Byte> -> bool, files: seq<File>, bytes: seq<Byte>, u: seq<Byte>,
                           base: nat)
    requires Arranged(utf8, files)
    requires u == Unsigned(hash, files) && base == HEADER_BYTES + PathBytes(files) && |u| <= |bytes|
    requires bytes[..|u|] == u
    ensures base <= |u|
    ensures ParseDirectory(utf8, bytes, HEADER_BYTES, base, |files|, None, |u|) == Ok(EntriesOf(files, base))
  {
    hide Unsigned, Directory, Data, ParseDirectory, Increasing, AllReadable, AllFit, EntriesOf, PathBytes, DataBytes,
         Header;
    UnsignedParts(hash, files, bytes, u, base);
    ParseDirectoryBuilt(utf8, bytes, files, HEADER_BYTES, base, base, None, |u|);
  }

  /** The envelope that signs these files. */
  ghost predicate Signs(hash: Blake3, files: seq<File>, e: Envelope) {
    && |e.keyId| == 32 && e.digest == hash(Unsigned(hash, files)) && |e.digest| == 32
    && !BadChain(e.chain) && |e.signature| <= 64
  }

  lemma LocateBuilt(bytes: seq<Byte>, count: nat, directory: nat, footerLen: nat, p: Place)
    requires |bytes| >= HEADER_BYTES + 8 && bytes[..HEADER_BYTES] == Header(count, directory) && count < HALF
    requires directory < WORD
    requires p.footerAt + 8 == |bytes| && Number(bytes, p.footerAt, 8) == footerLen && SIGNATURE_BYTES <= footerLen
    requires p.signedLen + footerLen == p.footerAt && p.start == HEADER_BYTES && p.end == HEADER_BYTES + directory
    requires p.count == count
    requires p.end % WORD <= p.signedLen
    ensures Locate(bytes) == Ok(p)
  {
    hide Header, Number, MAGIC, LEGACY_MAGIC;
    HeaderNumbers(bytes, count, directory);
  }

  lemma PartsReadBack(hash: Blake3, utf8: seq<Byte> -> bool, files: seq<File>, e: Envelope, bytes: seq<Byte>,
                      u: seq<Byte>, p: Place)
    requires Arranged(utf8, files) && Signs(hash, files, e) && u == Unsigned(hash, files) && |u| < WORD
    requires p.signedLen == |u| <= p.footerAt <= |bytes| && bytes[..|u|] == u
    requires bytes[p.signedLen..p.footerAt] == SignatureBlock(e, |u|)
    requires p.start == HEADER_BYTES && p.end == HEADER_BYTES + PathBytes(files) <= |u| && p.count == |files|
    ensures ParseParts(hash, utf8, bytes, p) ==
      if e.signature == [] then Err(BadSignatureBlock)
      else if !AllFilled(e.chain) then Err(ChainTooLarge)
      else Ok(Open(EntriesOf(files, p.end), e))
  {
    hide Unsigned, ParseDirectory, ParseSignature, SignatureBlock, AllFilled, Arranged, EntriesOf, PathBytes, BadChain;
    ParseSignatureBuilt(e, |u|);
    DirectoryReadsBack(hash, utf8, files, bytes, u, p.end);
  }

  lemma OuterReadsBack(hash: Blake3, utf8: seq<Byte> -> bool, files: seq<File>, e: Envelope, base: nat)
    requires Arranged(utf8, files) && Signs(hash, files, e) && base == HEADER_BYTES + PathBytes(files)
    ensures ParseOuter(hash, utf8, Signed(Unsigned(hash, files), e)) ==
      if e.signature == [] then Err(BadSignatureBlock)
      else if !AllFilled(e.chain) then Err(ChainTooLarge)
      else Ok(Open(EntriesOf(files, base), e))
  {
    hide Unsigned, SignatureBlock, Number, BadChain, AllFilled, Arranged, EntriesOf, Signed, Locate, ParseParts,
         PathBytes, DataBytes, Header, Data, Directory;
    var u := Unsigned(hash, files);
    var bytes, block := Signed(u, e), SignatureBlock(e, |u|);
    var p := Place(|u|, |u| + |block|, HEADER_BYTES, base, |files|);
    BlockSize(e, |u|);
    SignedParts(u, e, bytes, block, p.footerAt);
    UnsignedParts(hash, files, bytes, u, base);
    ArrangedFits(utf8, files);
    LocateBuilt(bytes, |files|, PathBytes(files), |block|, p);
    PartsReadBack(hash, utf8, files, e, bytes, u, p);
  }

  lemma ArrangedFits(utf8: seq<Byte> -> bool, files: seq<File>)
    requires Arranged(utf8, files)
    ensures |files| < HALF && HEADER_BYTES + PathBytes(files) + DataBytes(files) < WORD
  {
  }

  // ---------- Sorting keeps what is measured ----------

  lemma {:induction false} InsertMeasures(f: File, files: seq<File>)
    ensures PathBytes(Insert(f, files)) == RECORD_BYTES + |f.path| + PathBytes(files)
    ensures DataBytes(Insert(f, files)) == StoredSize(f) + DataBytes(files)
  {
    hide Less, StoredSize;
    if files != [] && !Less(f.path, files[0].path) {
      InsertMeasures(f, files[1..]);
      assert Insert(f, files)[1..] == Insert(f, files[1..]);
    } else {
      assert ([f] + files)[1..] == files;
    }
  }

  lemma {:induction false} LastMeasures(files: seq<File>, f: File)
    ensures PathBytes(files + [f]) == RECORD_BYTES + |f.path| + PathBytes(files)
    ensures DataBytes(files + [f]) == StoredSize(f) + DataBytes(files)
  {
    hide StoredSize;
    if files == [] {
      assert files + [f] == [f];
    } else {
      LastMeasures(files[1..], f);
      assert (files + [f])[1..] == files[1..] + [f];
    }
  }

  lemma {:induction false} SortMeasures(files: seq<File>)
    ensures PathBytes(Sort(files)) == PathBytes(files) && DataBytes(Sort(files)) == DataBytes(files)
  {
    hide StoredSize, Insert;
    if files != [] {
      var last := |files| - 1;
      SortMeasures(files[..last]);
      InsertMeasures(files[last], Sort(files[..last]));
      LastMeasures(files[..last], files[last]);
      assert files == files[..last] + [files[last]];
    }
  }

  ghost predicate AllUtf8(utf8: seq<Byte> -> bool, files: seq<File>) {
    forall i :: 0 <= i < |files| ==> utf8(files[i].path)
  }

  lemma SortArranges(utf8: seq<Byte> -> bool, files: seq<File>)
    requires PathError(files, |files|).None? && AllUtf8(utf8, files) && ArchiveFits(files)
    ensures Arranged(utf8, Sort(files))
  {
    hide ValidPath, PathError, Sort, Increasing, FileFits, PathBytes, DataBytes;
    PathErrorNone(files, |files|);
    SortIncreasing(files);
    SortMeasures(files);
    forall i | 0 <= i < |files| ensures var f := Sort(files)[i]; utf8(f.path) && ValidPath(f.path) && FileFits(f) {
      var f := Sort(files)[i];
      SortHas(files, f);
      var j :| 0 <= j < |files| && files[j] == f;
    }
  }

  // ---------- Building, then parsing ----------

  predicate AllValid(files: seq<File>) {
    forall i :: 0 <= i < |files| ==> ValidPath(files[i].path)
  }

  /** What the builder demands. */
  lemma BuildAccepts(hash: Blake3, files: seq<File>, keyId: seq<Byte>, algorithm: Algorithm, chain: seq<seq<Byte>>,
                     signature: seq<Byte>)
    requires |keyId| == 32
    ensures Build(hash, files, keyId, algorithm, chain, signature).Ok? <==>
            !BadChain(chain) && |signature| <= 64 && DistinctPaths(files) && AllValid(files)
  {
    hide ValidPath, PathError, Sort, Unsigned, BadChain, Signed;
    PathErrorNone(files, |files|);
  }

  lemma ArrangedReadsBack(hash: Blake3, utf8: seq<Byte> -> bool, files: seq<File>, e: Envelope, base: nat)
    requires Arranged(utf8, files) && Signs(hash, files, e) && base == HEADER_BYTES + PathBytes(files)
    ensures var bytes := Signed(Unsigned(hash, files), e);
      && EntriesError(hash, bytes, EntriesOf(files, base)) == None
      && forall i :: 0 <= i < |files| ==> Faithful(hash, bytes, EntriesOf(files, base)[i], files[i])
  {
    hide Unsigned, SignatureBlock, BadChain, Arranged, EntriesOf, EntriesError, Signed, PathBytes, DataBytes, Header,
         Data, Directory, Faithful;
    var u := Unsigned(hash, files);
    var bytes, block := Signed(u, e), SignatureBlock(e, |u|);
    BlockSize(e, |u|);
    SignedParts(u, e, bytes, block, |u| + |block|);
    UnsignedParts(hash, files, bytes, u, base);
    DataReadsBack(hash, bytes, files, base);
  }

  /** What the builder's answer is made of, in its own terms. */
  lemma BuildParts(hash: Blake3, files: seq<File>, keyId: seq<Byte>, algorithm: Algorithm, chain: seq<seq<Byte>>,
                   signature: seq<Byte>, bytes: seq<Byte>, unsigned: seq<Byte>)
    requires |keyId| == 32 && Build(hash, files, keyId, algorithm, chain, signature) == Ok(bytes)
    requires BuildUnsigned(hash, files).Ok? ==> unsigned == BuildUnsigned(hash, files).value
    ensures BuildUnsigned(hash, files).Ok? && !BadChain(chain) && |signature| <= 64
    ensures bytes == Signed(unsigned, Envelope(algorithm, keyId, hash(unsigned), chain, signature))
  {
    hide BuildUnsigned, BadChain, Signed;
  }

  lemma UnsignedIs(hash: Blake3, files: seq<File>)
    ensures BuildUnsigned(hash, files).Ok? ==>
      PathError(files, |files|).None? && BuildUnsigned(hash, files).value == Unsigned(hash, Sort(files))
  {
    hide Unsigned, PathError, Sort;
  }

  lemma BuildIs(hash: Blake3, files: seq<File>, keyId: seq<Byte>, algorithm: Algorithm, chain: seq<seq<Byte>>,
                signature: seq<Byte>,
                bytes: seq<Byte>, e: Envelope, sorted: seq<File>)
    requires |keyId| == 32 && Build(hash, files, keyId, algorithm, chain, signature) == Ok(bytes)
    requires sorted == Sort(files)
    requires e == Envelope(algorithm, keyId, hash(Unsigned(hash, sorted)), chain, signature)
    ensures PathError(files, |files|).None? && Signs(hash, sorted, e) && bytes == Signed(Unsigned(hash, sorted), e)
  {
    hide Build, BuildUnsigned, Unsigned, BadChain, Signed, PathError, Sort;
    UnsignedIs(hash, files);
    BuildParts(hash, files, keyId, algorithm, chain, signature, bytes, Unsigned(hash, sorted));
  }

  /** What the envelope decides. */
  function Opened(e: Envelope, open: Open): Result<Open> {
    if e.signature == [] then Err(BadSignatureBlock) else if !AllFilled(e.chain) then Err(ChainTooLarge) else Ok(open)
  }

  lemma ParseIs(hash: Blake3, utf8: seq<Byte> -> bool, bytes: seq<Byte>, e: Envelope, open: Open)
    requires ParseOuter(hash, utf8, bytes) == Opened(e, open) && EntriesError(hash, bytes, open.entries) == None
    ensures Parse(hash, utf8, bytes) == Opened(e, open)
  {
    hide ParseOuter, EntriesError, AllFilled;
  }

  /** What was built parses exactly when the signature and every certificate are there, and then
      holds one entry for each file, in path order, and the envelope. */
  lemma BuiltParses(hash: Blake3, utf8: seq<Byte> -> bool, files: seq<File>, keyId: seq<Byte>, algorithm: Algorithm,
                    chain: seq<seq<Byte>>, signature: seq<Byte>, bytes: seq<Byte>, e: Envelope, sorted: seq<File>,
                    entries: seq<Entry>)
    requires |keyId| == 32 && Build(hash, files, keyId, algorithm, chain, signature) == Ok(bytes)
    requires sorted == Sort(files)
    requires AllUtf8(utf8, files) && ArchiveFits(files)
    requires e == Envelope(algorithm, keyId, hash(Unsigned(hash, sorted)), chain, signature)
    requires entries == EntriesOf(sorted, HEADER_BYTES + PathBytes(sorted))
    ensures Parse(hash, utf8, bytes) == Opened(e, Open(entries, e))
    ensures forall i :: 0 <= i < |files| ==> Faithful(hash, bytes, entries[i], sorted[i])
  {
    hide Build, Parse, Unsigned, BadChain, Arranged, EntriesOf, EntriesError, Signed, PathBytes, PathError, Sort,
         AllFilled, ParseOuter, Faithful, ArchiveFits, AllUtf8;
    BuildIs(hash, files, keyId, algorithm, chain, signature, bytes, e, sorted);
    SortArranges(utf8, files);
    OuterReadsBack(hash, utf8, sorted, e, HEADER_BYTES + PathBytes(sorted));
    ArrangedReadsBack(hash, utf8, sorted, e, HEADER_BYTES + PathBytes(sorted));
    ParseIs(hash, utf8, bytes, e, Open(entries, e));
  }

  /** Entries whose paths strictly increase. */
  ghost predicate EntriesIncrease(entries: seq<Entry>) {
    forall i :: 0 < i < |entries| ==> Less(entries[i - 1].path, entries[i].path)
  }

  ghost predicate HasEntry(hash: Blake3, bytes: seq<Byte>, entries: seq<Entry>, f: File) {
    exists i :: 0 <= i < |entries| && Faithful(hash, bytes, entries[i], f)
  }

  ghost predicate HasFile(hash: Blake3, bytes: seq<Byte>, files: seq<File>, e: Entry) {
    exists f :: f in files && Faithful(hash, bytes, e, f)
  }

  /** As many entries as files, one for each, and nothing else. */
  ghost predicate EveryFileRead(hash: Blake3, bytes: seq<Byte>, entries: seq<Entry>, files: seq<File>) {
    && |entries| == |files|
    && (forall f :: f in files ==> HasEntry(hash, bytes, entries, f))
    && (forall i :: 0 <= i < |entries| ==> HasFile(hash, bytes, files, entries[i]))
  }

  ghost predicate Restored(hash: Blake3, utf8: seq<Byte> -> bool, bytes: seq<Byte>, files: seq<File>, e: Envelope) {
    var r := Parse(hash, utf8, bytes);
    && r.Ok? && EntriesIncrease(r.value.entries)
    && EveryFileRead(hash, bytes, r.value.entries, files) && r.value.signer == e
  }

  /** An archive of distinct valid paths, with a signature and no empty certificate, opens; its
      entries come in strictly increasing path order, they are the files that went in, and the
      signer's envelope is the one given, over the hash of everything before it. */
  lemma ArchiveRoundTrips(hash: Blake3, utf8: seq<Byte> -> bool, files: seq<File>, keyId: seq<Byte>,
                          algorithm: Algorithm,
                          chain: seq<seq<Byte>>, signature: seq<Byte>)
    requires |keyId| == 32 && !BadChain(chain) && 0 < |signature| <= 64 && AllFilled(chain)
    requires DistinctPaths(files) && AllReadable(utf8, files) && ArchiveFits(files)
    ensures var built := Build(hash, files, keyId, algorithm, chain, signature);
      built.Ok? && Restored(hash, utf8, built.value, files,
                            Envelope(algorithm, keyId, hash(Unsigned(hash, Sort(files))), chain, signature))
  {
    hide Unsigned, BadChain, EntriesOf, Build, Parse, PathBytes, Sort, AllFilled, Faithful, ArchiveFits, ValidPath,
         DistinctPaths, Less, EntriesIncrease, EveryFileRead, Increasing;
    BuildAccepts(hash, files, keyId, algorithm, chain, signature);
    var bytes, sorted := Build(hash, files, keyId, algorithm, chain, signature).value, Sort(files);
    var e := Envelope(algorithm, keyId, hash(Unsigned(hash, sorted)), chain, signature);
    var entries := EntriesOf(sorted, HEADER_BYTES + PathBytes(sorted));
    BuiltParses(hash, utf8, files, keyId, algorithm, chain, signature, bytes, e, sorted, entries);
    SortIncreasing(files);
    PathsFollow(hash, bytes, entries, sorted);
    FilesFound(hash, bytes, entries, files);
  }

  lemma PathsFollow(hash: Blake3, bytes: seq<Byte>, entries: seq<Entry>, files: seq<File>)
    requires |entries| == |files| && Increasing(files)
    requires forall i :: 0 <= i < |files| ==> Faithful(hash, bytes, entries[i], files[i])
    ensures EntriesIncrease(entries)
  {
    hide Less, ReadFile;
  }

  lemma FilesFound(hash: Blake3, bytes: seq<Byte>, entries: seq<Entry>, files: seq<File>)
    requires |entries| == |files| && forall i :: 0 <= i < |files| ==> Faithful(hash, bytes, entries[i], Sort(files)[i])
    ensures EveryFileRead(hash, bytes, entries, files)
  {
    hide Faithful, Sort, HasEntry, HasFile;
    forall f | f in files ensures HasEntry(hash, bytes, entries, f) {
      SortHas(files, f);
      var i :| 0 <= i < |files| && Sort(files)[i] == f;
      EntryFound(hash, bytes, entries, files, f, i);
    }
    forall i | 0 <= i < |entries| ensures HasFile(hash, bytes, files, entries[i]) {
      SortHas(files, Sort(files)[i]);
      EntryFound(hash, bytes, entries, files, Sort(files)[i], i);
    }
  }

  lemma EntryFound(hash: Blake3, bytes: seq<Byte>, entries: seq<Entry>, files: seq<File>, f: File, i: nat)
    requires i < |entries| && f in files && Faithful(hash, bytes, entries[i], f)
    ensures HasEntry(hash, bytes, entries, f) && HasFile(hash, bytes, files, entries[i])
  {
    hide Faithful;
  }

  /** The builder signs an archive with an empty certificate; the parser refuses it. */
  lemma EmptyCertificateRefused(hash: Blake3, utf8: seq<Byte> -> bool, keyId: seq<Byte>)
    requires |keyId| == 32
    ensures var built := Build(hash, [], keyId, Ed25519, [[]], Zeros(64));
      built.Ok? && Parse(hash, utf8, built.value) == Err(ChainTooLarge)
  {
    hide Unsigned, Signed, Parse, Build;
    var none: seq<File> := [];
    BuildAccepts(hash, none, keyId, Ed25519, [[]], Zeros(64));
    var bytes := Build(hash, none, keyId, Ed25519, [[]], Zeros(64)).value;
    var empty: seq<seq<Byte>> := [[]];
    assert empty[0] == [];
    BuiltParses(hash, utf8, none, keyId, Ed25519, [[]], Zeros(64), bytes,
                Envelope(Ed25519, keyId, hash(Unsigned(hash, none)), [[]], Zeros(64)), none, []);
  }

  /** A header that claims a directory of almost 2^64 bytes, before a block of zeros. */
  function Overlong(): seq<Byte> {
    Header(0, WORD - HEADER_BYTES) + Zeros(SIGNATURE_BYTES) + ToLittle(SIGNATURE_BYTES, 8)
  }

  /** It passes the header's own test. */
  lemma OverlongPasses()
    ensures Locate(Overlong()) == Ok(Place(HEADER_BYTES, HEADER_BYTES + SIGNATURE_BYTES, HEADER_BYTES, WORD, 0))
  {
    hide Header, ToLittle, Number, Locate;
    var bytes, block := Overlong(), Zeros(SIGNATURE_BYTES);
    var footerAt := HEADER_BYTES + SIGNATURE_BYTES;
    ThreeParts(bytes, Header(0, WORD - HEADER_BYTES), block, ToLittle(SIGNATURE_BYTES, 8), HEADER_BYTES, footerAt);
    NumberAt(bytes, footerAt, ToLittle(SIGNATURE_BYTES, 8), 0, 8, SIGNATURE_BYTES);
    LocateBuilt(bytes, 0, WORD - HEADER_BYTES, SIGNATURE_BYTES, Place(HEADER_BYTES, footerAt, HEADER_BYTES, WORD, 0));
  }
}

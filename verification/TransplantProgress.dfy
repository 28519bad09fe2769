/** A transplant moves: what each turn sends, when a turn abandons, and after how many turns a quiet source
    is wholly copied. */
module TransplantProgress {
  import opened Arithmetic
  import opened Octets
  import opened FrameMap
  import opened Packets
  import opened Transplant

  // ---------- What is left to do ----------

  /** Records are not too long for a packet, and no mark was lost. */
  ghost predicate Healthy(s: Sys) {
    !s.dirty.failed && forall k :: k in s.records ==> 40 + |s.records[k]| <= MAX_BODY
  }

  function FrameKeys(from: nat, end: nat): (r: seq<nat>)
    requires from <= end
    ensures |r| == end - from
    decreases end - from
  {
    if from == end then [] else [FrameKey(from)] + FrameKeys(from + 1, end)
  }

  /** The keys still to be bulk-copied, in order: frame words, then runtime records. */
  function Queue(s: Sys): seq<nat>
    requires s.live.frameIndex <= SnapshotWords(s.frames)
  {
    FrameKeys(s.live.frameIndex, SnapshotWords(s.frames)) + s.live.cursor
  }

  /** How many marks wait for catch-up. */
  function Dirt(s: Sys): nat {
    (if s.frames.dirty.Some? then |s.frames.dirty.value.keys| else 0) + |s.dirty.keys|
  }

  function RecordBytes(s: Sys, key: nat): seq<Byte> {
    var record := RecordOf(s, key);
    if record.Some? then record.value else []
  }

  /** The packets that carry the current values of some keys, numbered after `sequence`. */
  function PacketList(s: Sys, keys: seq<nat>, sequence: nat): (r: seq<seq<Byte>>)
    ensures |r| == |keys|
    decreases |keys|
  {
    if keys == [] then []
    else [Packet(Packets.Body(sequence + 1, RecordBytes(s, keys[0])))] + PacketList(s, keys[1..], sequence + 1)
  }

  ghost predicate SameContent(s: Sys, r: Sys) {
    r.records == s.records && Words(r.frames) == Words(s.frames) && SnapshotWords(r.frames) == SnapshotWords(s.frames)
  }

  lemma {:induction false} PacketsSame(s: Sys, r: Sys, keys: seq<nat>, sequence: nat)
    requires SameContent(s, r)
    ensures PacketList(r, keys, sequence) == PacketList(s, keys, sequence)
    decreases |keys|
  {
    hide Packet, Packets.Body, Words;
    if keys != [] {
      PacketsSame(s, r, keys[1..], sequence + 1);
    }
  }

  /** Exactly these records were sent, and the source holds what it held. */
  ghost predicate Sent(s: Sys, r: Sys, keys: seq<nat>) {
    && SameContent(s, r) && r.live.sequence == s.live.sequence + |keys|
    && r.log == s.log + PacketList(s, keys, s.live.sequence)
  }

  lemma SentNone(s: Sys, r: Sys)
    requires SameContent(s, r) && r.live.sequence == s.live.sequence && r.log == s.log
    ensures Sent(s, r, [])
  {
    hide Words;
    assert s.log + [] == s.log;
  }

  lemma SentMore(s: Sys, m: Sys, r: Sys, key: nat, rest: seq<nat>)
    requires Sent(s, m, [key]) && Sent(m, r, rest)
    ensures Sent(s, r, [key] + rest)
  {
    hide Packet, Packets.Body, Words, RecordBytes;
    PacketsSame(s, m, rest, m.live.sequence);
    var keys := [key] + rest;
    assert keys[1..] == rest && [key][1..] == [];
    assert PacketList(s, [key], s.live.sequence) == [Packet(Packets.Body(s.live.sequence + 1, RecordBytes(s, key)))];
    assert PacketList(s, keys, s.live.sequence) ==
           PacketList(s, [key], s.live.sequence) + PacketList(s, rest, s.live.sequence + 1);
  }

  // ---------- Sending works ----------

  lemma SendWorks(s: Sys, key: nat, blank: Candidate)
    requires InStep(s, blank) && RecordOf(s, key).Some? && 8 + |RecordOf(s, key).value| <= MAX_BODY
    requires s.live.sequence + 1 < WORD_LIMIT && AdoptRecord(s.candidate, RecordOf(s, key).value).code == 0
    ensures Send(s, key).Some?
    ensures var r := Send(s, key).value;
      && r.live.sequence == s.live.sequence + 1 && r.records == s.records
      && r.log == s.log + PacketList(s, [key], s.live.sequence)
  {
    hide Adopt, Checksum, Digested, RecordOf, AdoptRecord, Packet, Packets.Body, Replay;
    RecordSize(s, key);
    AdoptSent(s.candidate, s.live.sequence + 1, RecordOf(s, key).value);
    assert [key][1..] == [];
  }

  lemma SendFrameWorks(s: Sys, i: nat, blank: Candidate)
    requires InStep(s, blank) && FramesCovered(s) && i < |Words(s.frames)| && s.live.sequence + 1 < WORD_LIMIT
    ensures Send(s, FrameKey(i)).Some? && Sent(s, Send(s, FrameKey(i)).value, [FrameKey(i)])
  {
    hide InStep, AdoptRecord, FrameRecord, Adopt, Shaped, PacketList, Send, Words;
    var key := FrameKey(i);
    assert key / KIND == FRAME_KIND && key % KIND == i;
    FrameWordBound(s, i);
    AdoptFrameSent(s.candidate, i, Words(s.frames)[i]);
    SendWorks(s, key, blank);
    SendFrame(s, i, blank);
    SnapshotSame(s.frames, Send(s, key).value.frames);
  }

  lemma FrameWordBound(s: Sys, i: nat)
    requires FramesCovered(s) && i < |Words(s.frames)|
    ensures Words(s.frames)[i] < WORD_LIMIT
  {
    WordsBound(s.frames, i);
  }

  lemma SnapshotSame(f: Frames, g: Frames)
    requires Words(f) == Words(g) && Shaped(f) && Shaped(g)
    ensures SnapshotWords(f) == SnapshotWords(g)
  {
    assert |Words(f)| == |Words(g)|;
  }

  lemma SendRecordWorks(s: Sys, key: nat, blank: Candidate)
    requires InStep(s, blank) && Healthy(s) && key in s.records && key < WORD_LIMIT && key / KIND != FRAME_KIND
    requires s.live.sequence + 1 < WORD_LIMIT
    ensures Send(s, key).Some? && Sent(s, Send(s, key).value, [key])
  {
    hide InStep, AdoptRecord, RuntimeRecord, Adopt, PacketList, Send, Words;
    AdoptRuntimeSent(s.candidate, key, s.records[key]);
    SendWorks(s, key, blank);
    SendRecord(s, key, blank);
  }

  // ---------- Bulk turns ----------

  /** Nothing but the marks of what was sent has changed in what waits. */
  ghost predicate Marks(s: Sys, r: Sys) {
    && (s.frames.dirty.Some? && r.frames.dirty.Some? ==> r.frames.dirty.value.keys <= s.frames.dirty.value.keys)
    && s.frames.dirty.Some? == r.frames.dirty.Some? && r.dirty.keys <= s.dirty.keys && r.dirty.failed == s.dirty.failed
  }

  lemma MarksTrans(a: Sys, b: Sys, c: Sys)
    requires Marks(a, b) && Marks(b, c)
    ensures Marks(a, c)
  {
  }

  lemma MarksCount(s: Sys, r: Sys)
    requires Marks(s, r)
    ensures Dirt(r) <= Dirt(s)
  {
    SubsetSize(r.dirty.keys, s.dirty.keys);
    if s.frames.dirty.Some? {
      SubsetSize(r.frames.dirty.value.keys, s.frames.dirty.value.keys);
    }
  }

  lemma {:induction false} SubsetSize(a: set<nat>, b: set<nat>)
    requires a <= b
    ensures |a| <= |b|
    decreases |a|
  {
    if a != {} {
      var x :| x in a;
      SubsetSize(a - {x}, b - {x});
    }
  }

  /** One record of the bulk copy. */
  lemma BulkSends(s: Sys, blank: Candidate) returns (r: Sys)
    requires Inv(s, blank) && s.live.phase == Bulk && Healthy(s) && s.live.sequence + 1 < WORD_LIMIT
    requires s.live.frameIndex <= SnapshotWords(s.frames) && Queue(s) != []
    ensures forall left: nat, completes: bool :: left > 0 ==>
      BulkLoop(s, left, completes) == BulkLoop(r, left - 1, completes)
    ensures Inv(r, blank) && r.live.phase == Bulk && Healthy(r) && r.live.frameIndex <= SnapshotWords(r.frames)
    ensures Queue(r) == Queue(s)[1..] && Sent(s, r, [Queue(s)[0]]) && r.live.turns == s.live.turns && Marks(s, r)
  {
    hide Inv, Send, Sent, Healthy, Words, Marks;
    InvIndex(s, blank);
    if s.live.frameIndex < SnapshotWords(s.frames) {
      r := BulkSendsFrame(s, blank);
    } else {
      r := BulkSendsRecord(s, blank);
    }
  }

  lemma BulkSendsFrame(s: Sys, blank: Candidate) returns (r: Sys)
    requires Inv(s, blank) && s.live.phase == Bulk && Healthy(s) && s.live.sequence + 1 < WORD_LIMIT
    requires s.live.frameIndex < SnapshotWords(s.frames)
    ensures Send(s.(live := s.live.(frameIndex := s.live.frameIndex + 1)), FrameKey(s.live.frameIndex)) == Some(r)
    ensures Inv(r, blank) && r.live.phase == Bulk && Healthy(r) && r.live.frameIndex <= SnapshotWords(r.frames)
    ensures Queue(r) == Queue(s)[1..] && Sent(s, r, [Queue(s)[0]]) && r.live.turns == s.live.turns && Marks(s, r)
  {
    hide Send, Words, InStep, Shaped, Replay, FrameKey, PacketList;
    var i := s.live.frameIndex;
    var t := s.(live := s.live.(frameIndex := i + 1));
    InvIndex(s, blank);
    NextFrameWorks(s, t, blank);
    r := Send(t, FrameKey(i)).value;
    AdvanceCovered(s, blank);
    SendKeepsRest(t, FrameKey(i));
    SendFrameMarks(t, FrameKey(i));
    assert Queue(s) == [FrameKey(i)] + Queue(r);
  }

  lemma SendFrameMarks(s: Sys, key: nat)
    requires Send(s, key).Some?
    ensures Marks(s, Send(s, key).value)
  {
    hide Adopt, RecordOf;
  }

  lemma NextFrameWorks(s: Sys, t: Sys, blank: Candidate)
    requires Inv(s, blank) && s.live.frameIndex < |Words(s.frames)| && s.live.sequence + 1 < WORD_LIMIT
    requires t == s.(live := s.live.(frameIndex := s.live.frameIndex + 1))
    ensures Send(t, FrameKey(s.live.frameIndex)).Some?
    ensures Sent(s, Send(t, FrameKey(s.live.frameIndex)).value, [FrameKey(s.live.frameIndex)])
  {
    hide InStep, AdoptRecord, FrameRecord, Adopt, Shaped, Send, Words, Replay;
    var i, key := s.live.frameIndex, FrameKey(s.live.frameIndex);
    assert key / KIND == FRAME_KIND && key % KIND == i;
    InStepIndex(s, t, blank);
    FrameWordBound(s, i);
    AdoptFrameSent(t.candidate, i, Words(s.frames)[i]);
    SendWorks(t, key, blank);
    SendFrames(t, key);
    CleanedWords(t, key);
    PacketsSame(s, t, [key], s.live.sequence);
  }

  lemma CleanedWords(s: Sys, key: nat)
    ensures Words(Cleaned(s, key).frames) == Words(s.frames)
    ensures SnapshotWords(Cleaned(s, key).frames) == SnapshotWords(s.frames)
  {
  }

  lemma BulkSendsRecord(s: Sys, blank: Candidate) returns (r: Sys)
    requires Inv(s, blank) && s.live.phase == Bulk && Healthy(s) && s.live.sequence + 1 < WORD_LIMIT
    requires s.live.frameIndex == SnapshotWords(s.frames) && s.live.cursor != []
    ensures Send(s.(live := s.live.(cursor := s.live.cursor[1..])), s.live.cursor[0]) == Some(r)
    ensures Inv(r, blank) && r.live.phase == Bulk && Healthy(r) && r.live.frameIndex <= SnapshotWords(r.frames)
    ensures Queue(r) == Queue(s)[1..] && Sent(s, r, [Queue(s)[0]]) && r.live.turns == s.live.turns && Marks(s, r)
  {
    hide Send, Words, InStep, Shaped, Replay, PacketList;
    var t, key := s.(live := s.live.(cursor := s.live.cursor[1..])), s.live.cursor[0];
    InStepIndex(s, t, blank);
    SendRecordWorks(t, key, blank);
    r := Send(t, key).value;
    CursorCovered(s, blank);
    SendKeepsRest(t, key);
    SendFrameMarks(t, key);
    SentIgnoresCursor(s, t, r, key);
    assert Queue(s) == s.live.cursor && Queue(r) == s.live.cursor[1..];
  }

  lemma SentIgnoresCursor(s: Sys, t: Sys, r: Sys, key: nat)
    requires Sent(t, r, [key]) && t == s.(live := t.live) && t.live.sequence == s.live.sequence
    ensures Sent(s, r, [key])
  {
    hide Words;
    PacketsSame(s, t, [key], s.live.sequence);
  }

  function Fewer(a: nat, b: nat): nat {
    if a < b then a else b
  }

  /** A bulk turn sends the next records of the queue, as many as it may, and goes on to catch-up exactly
      when it finds the queue empty. It abandons exactly when that is not allowed yet. */
  lemma {:induction false} BulkMoves(s: Sys, left: nat, completes: bool, blank: Candidate)
    requires Inv(s, blank) && s.live.phase == Bulk && Healthy(s) && s.live.frameIndex <= SnapshotWords(s.frames)
    requires s.live.sequence + Fewer(left, |Queue(s)|) < WORD_LIMIT
    ensures var t := BulkLoop(s, left, completes); var n := Fewer(left, |Queue(s)|);
      && (t.Abandon? <==> !completes && |Queue(s)| < left) && !t.Finish?
      && (t.Continue? ==>
            && Inv(t.s, blank) && Healthy(t.s) && t.s.live.frameIndex <= SnapshotWords(t.s.frames)
            && Sent(s, t.s, Queue(s)[..n]) && Queue(t.s) == Queue(s)[n..] && Marks(s, t.s)
            && t.s.live.phase == (if |Queue(s)| < left then CatchUp else Bulk) && t.s.live.turns == s.live.turns)
    decreases left
  {
    hide Inv, Send, Sent, Healthy, Words, Marks, Queue;
    var n := Fewer(left, |Queue(s)|);
    if left == 0 || Queue(s) == [] {
      BulkRests(s, left, completes, blank);
    } else {
      var r := BulkSends(s, blank);
      SentSequence(s, r, [Queue(s)[0]]);
      BulkMoves(r, left - 1, completes, blank);
      var t := BulkLoop(r, left - 1, completes);
      if t.Continue? {
        SentMore(s, r, t.s, Queue(s)[0], Queue(r)[..n - 1]);
        assert [Queue(s)[0]] + Queue(r)[..n - 1] == Queue(s)[..n];
        MarksTrans(s, r, t.s);
      }
    }
  }

  lemma SentSequence(s: Sys, r: Sys, keys: seq<nat>)
    requires Sent(s, r, keys)
    ensures r.live.sequence == s.live.sequence + |keys|
  {
  }

  lemma BulkRests(s: Sys, left: nat, completes: bool, blank: Candidate)
    requires Inv(s, blank) && s.live.phase == Bulk && Healthy(s) && s.live.frameIndex <= SnapshotWords(s.frames)
    requires left == 0 || Queue(s) == []
    ensures var t := BulkLoop(s, left, completes); var n := Fewer(left, |Queue(s)|);
      && (t.Abandon? <==> !completes && |Queue(s)| < left) && !t.Finish?
      && (t.Continue? ==>
            && Inv(t.s, blank) && Healthy(t.s) && t.s.live.frameIndex <= SnapshotWords(t.s.frames)
            && Sent(s, t.s, Queue(s)[..n]) && Queue(t.s) == Queue(s)[n..] && Marks(s, t.s)
            && t.s.live.phase == (if |Queue(s)| < left then CatchUp else Bulk) && t.s.live.turns == s.live.turns)
  {
    hide Inv, Send, Words, Sent;
    InvIndex(s, blank);
    assert Queue(s)[..0] == [];
    if left > 0 && completes {
      TurnsToCatchUp(s, blank);
    }
    var t := BulkLoop(s, left, completes);
    if t.Continue? {
      SentNone(s, t.s);
    }
  }

  // ---------- Catch-up turns ----------

  /** One dirty record. */
  lemma CatchUpSends(s: Sys, blank: Candidate) returns (key: nat, r: Sys)
    requires Inv(s, blank) && s.live.phase == CatchUp && Healthy(s) && s.live.sequence + 1 < WORD_LIMIT && Dirt(s) > 0
    ensures DirtyKey(s) == Some(Some(key)) && Send(s, key) == Some(r)
    ensures Inv(r, blank) && r.live.phase == CatchUp && Healthy(r) && r.live.turns == s.live.turns
    ensures Sent(s, r, [key]) && Dirt(r) == Dirt(s) - 1
  {
    hide Send, Words, InStep, Shaped, Replay, PacketList, SameContent, Sent;
    FrameDirtyRoomy(s);
    if s.frames.dirty.value.keys != {} {
      var i := Least(s.frames.dirty.value.keys);
      key := FrameKey(i);
      DirtyFrameFits(s, i, blank);
      SendFrameWorks(s, i, blank);
      DirtyFrameCovered(s, i, blank);
      r := Send(s, key).value;
      SendFrame(s, i, blank);
    } else {
      key := Least(s.dirty.keys);
      SendRecordWorks(s, key, blank);
      DirtyRecordCovered(s, key, blank);
      r := Send(s, key).value;
      SendRecord(s, key, blank);
    }
    SendKeepsRest(s, key);
  }

  lemma CleanKey(s: Sys, blank: Candidate)
    requires Inv(s, blank) && Healthy(s) && Dirt(s) == 0
    ensures DirtyKey(s) == Some(None)
  {
    hide Words, InStep, Shaped, Replay;
  }

  /** A catch-up turn sends one record for every mark, as many as it may. Once it finds none left it finishes,
      if this is not the first such turn; it abandons nothing. */
  lemma {:induction false} CatchUpMoves(s: Sys, left: nat, blank: Candidate)
    requires Inv(s, blank) && s.live.phase == CatchUp && Healthy(s)
    requires s.live.sequence + Fewer(left, Dirt(s)) < WORD_LIMIT
    ensures var t := CatchUpLoop(s, left);
      && !t.Abandon? && (t.Finish? <==> Dirt(s) < left && s.live.turns > 1)
      && Inv(t.s, blank) && t.s.live.phase == CatchUp && Healthy(t.s) && t.s.live.turns == s.live.turns
      && Dirt(t.s) == Dirt(s) - Fewer(left, Dirt(s)) && SameContent(s, t.s)
      && t.s.live.sequence == s.live.sequence + Fewer(left, Dirt(s))
    decreases left
  {
    hide Inv, Send, Healthy, DirtyKey, Dirt, SameContent, Sent;
    if left == 0 {
      ContentSelf(s);
    } else if Dirt(s) == 0 {
      CleanKey(s, blank);
      ContentSelf(s);
    } else {
      var key, r := CatchUpSends(s, blank);
      SentParts(s, r, key);
      CatchUpMoves(r, left - 1, blank);
      ContentTrans(s, r, CatchUpLoop(r, left - 1).s);
    }
  }

  lemma ContentSelf(s: Sys)
    ensures SameContent(s, s)
  {
  }

  lemma ContentTrans(a: Sys, b: Sys, c: Sys)
    requires SameContent(a, b) && SameContent(b, c)
    ensures SameContent(a, c)
  {
  }

  lemma SentParts(s: Sys, r: Sys, key: nat)
    requires Sent(s, r, [key])
    ensures SameContent(s, r) && r.live.sequence == s.live.sequence + 1
  {
  }

  // ---------- Turns ----------

  /** A turn that comes too late abandons the transplant, whatever is left to do. */
  lemma LateTurn(s: Sys, completes: bool)
    ensures Step(s, false, completes) == Abandon
  {
  }

  /** A bulk turn on time: it sends the next eight records, or what is left and goes on to catch-up. */
  lemma BulkTurnMoves(s: Sys, completes: bool, blank: Candidate)
    requires Inv(s, blank) && s.live.phase == Bulk && Healthy(s) && s.live.frameIndex <= SnapshotWords(s.frames)
    requires s.live.sequence + Fewer(8, |Queue(s)|) < WORD_LIMIT
    ensures var t := Step(s, true, completes); var n := Fewer(8, |Queue(s)|);
      && (t.Abandon? <==> !completes && |Queue(s)| < 8) && !t.Finish?
      && (t.Continue? ==>
            && Inv(t.s, blank) && Healthy(t.s) && t.s.live.frameIndex <= SnapshotWords(t.s.frames)
            && Sent(s, t.s, Queue(s)[..n]) && Queue(t.s) == Queue(s)[n..] && Marks(s, t.s)
            && t.s.live.phase == (if |Queue(s)| < 8 then CatchUp else Bulk) && t.s.live.turns == s.live.turns)
  {
    hide Inv, BulkLoop, Sent, Healthy, Queue, Marks;
    BulkMoves(s, BULK_TURN, completes, blank);
  }

  /** A catch-up turn on time: it sends up to thirty-two dirty records, and finishes exactly when it runs out
      of them in the second such turn or later. */
  lemma CatchUpTurnMoves(s: Sys, completes: bool, blank: Candidate)
    requires Inv(s, blank) && s.live.phase == CatchUp && Healthy(s)
    requires s.live.sequence + Fewer(32, Dirt(s)) < WORD_LIMIT
    ensures var t := Step(s, true, completes);
      && !t.Abandon? && (t.Finish? <==> Dirt(s) < 32 && s.live.turns >= 1)
      && Inv(t.s, blank) && t.s.live.phase == CatchUp && Healthy(t.s) && t.s.live.turns == s.live.turns + 1
      && Dirt(t.s) == Dirt(s) - Fewer(32, Dirt(s)) && SameContent(s, t.s)
      && t.s.live.sequence == s.live.sequence + Fewer(32, Dirt(s))
  {
    hide Inv, CatchUpLoop, SameContent, Words;
    var t := s.(live := s.live.(turns := s.live.turns + 1));
    TurnCounted(s, t, blank);
    ContentTurn(s, t);
    CatchUpMoves(t, CATCHUP_TURN, blank);
    ContentTrans(s, t, CatchUpLoop(t, CATCHUP_TURN).s);
  }

  lemma ContentTurn(s: Sys, t: Sys)
    requires t == s.(live := t.live)
    ensures SameContent(s, t)
  {
  }

  // ---------- Quiet runs ----------

  /** Turns on time and nothing else. */
  function Quiet(n: nat): seq<Event> {
    seq(n, _ => Turns(true, true))
  }

  lemma QuietNext(s: Sys, n: nat)
    requires n > 0
    ensures var t := Step(s, true, true); Run(s, Quiet(n)) == if t.Continue? then Run(t.s, Quiet(n - 1)) else t
  {
    hide Step;
    assert Quiet(n)[1..] == Quiet(n - 1);
  }

  /** How many more turns catch-up takes: at least two in all. */
  function CatchUpTurns(dirt: nat, turns: nat): nat {
    var needed := dirt / 32 + 1;
    if needed + turns < 2 then 2 else needed
  }

  lemma {:induction false} CatchUpFinishes(s: Sys, n: nat, blank: Candidate)
    requires Inv(s, blank) && s.live.phase == CatchUp && Healthy(s) && s.live.sequence + Dirt(s) < WORD_LIMIT
    requires n <= CatchUpTurns(Dirt(s), s.live.turns)
    ensures var t := Run(s, Quiet(n));
      && !t.Abandon? && (t.Finish? <==> n == CatchUpTurns(Dirt(s), s.live.turns)) && SameContent(s, t.s)
      && (t.Finish? ==> Settled(t.s))
    decreases n
  {
    hide Inv, Step, Healthy, SameContent, Settled, Dirt;
    if n == 0 {
      ContentSelf(s);
    } else {
      QuietNext(s, n);
      CatchUpTurnMoves(s, true, blank);
      StepKeeps(s, true, true, blank);
      var t := Step(s, true, true);
      if t.Continue? {
        TurnsShrink(Dirt(s), s.live.turns);
        CatchUpFinishes(t.s, n - 1, blank);
        ContentTrans(s, t.s, Run(t.s, Quiet(n - 1)).s);
      }
    }
  }

  lemma TurnsShrink(dirt: nat, turns: nat)
    requires !(dirt < 32 && turns >= 1)
    ensures CatchUpTurns(dirt - Fewer(32, dirt), turns + 1) == CatchUpTurns(dirt, turns) - 1
    ensures CatchUpTurns(dirt, turns) >= 2
  {
    if dirt >= 32 {
      DivModUnique(dirt, 32, (dirt - 32) / 32 + 1, dirt % 32);
    }
  }

  /** The bulk copy of a quiet source takes one turn for every eight records and one more. */
  lemma {:induction false} BulkEnds(s: Sys, blank: Candidate)
    requires Inv(s, blank) && s.live.phase == Bulk && Healthy(s) && s.live.frameIndex <= SnapshotWords(s.frames)
    requires s.live.sequence + |Queue(s)| < WORD_LIMIT
    ensures var t := Run(s, Quiet(|Queue(s)| / 8 + 1));
      && t.Continue? && Inv(t.s, blank) && Healthy(t.s) && t.s.live.phase == CatchUp && SameContent(s, t.s)
      && t.s.live.turns == s.live.turns && t.s.live.sequence == s.live.sequence + |Queue(s)| && Dirt(t.s) <= Dirt(s)
    decreases |Queue(s)|
  {
    hide Inv, Step, Healthy, SameContent, Dirt, Sent, Queue, Marks;
    QuietNext(s, |Queue(s)| / 8 + 1);
    BulkTurnMoves(s, true, blank);
    var t := Step(s, true, true).s;
    SentTurn(s, t, Queue(s)[..Fewer(8, |Queue(s)|)]);
    MarksCount(s, t);
    if |Queue(s)| >= 8 {
      BulkEnds(t, blank);
      EightFewer(|Queue(s)|);
      ContentTrans(s, t, Run(t, Quiet(|Queue(t)| / 8 + 1)).s);
    } else {
      RunNone(t);
    }
  }

  lemma EightFewer(n: nat)
    requires n >= 8
    ensures (n - 8) / 8 + 1 == n / 8
  {
  }

  lemma RunNone(s: Sys)
    ensures Run(s, Quiet(0)) == Continue(s)
  {
  }

  lemma SentTurn(s: Sys, r: Sys, keys: seq<nat>)
    requires Sent(s, r, keys)
    ensures SameContent(s, r) && r.live.sequence == s.live.sequence + |keys|
  {
  }

  lemma {:induction false} RunConcat(s: Sys, m: nat, n: nat)
    requires Run(s, Quiet(m)).Continue?
    ensures Run(s, Quiet(m + n)) == Run(Run(s, Quiet(m)).s, Quiet(n))
    decreases m
  {
    hide Step;
    if m > 0 {
      QuietNext(s, m);
      QuietNext(s, m + n);
      RunConcat(Step(s, true, true).s, m - 1, n);
    }
  }

  /** From any state of the bulk copy, a source that keeps quiet is wholly copied, and the transplant
      finishes, after at most this many turns: one for every eight records and one more, then one for every
      thirty-two marks and one more, or two. */
  lemma QuietFinishes(s: Sys, blank: Candidate) returns (n: nat)
    requires Inv(s, blank) && s.live.phase == Bulk && Healthy(s) && s.live.frameIndex <= SnapshotWords(s.frames)
    requires s.live.sequence + |Queue(s)| + Dirt(s) < WORD_LIMIT
    ensures n <= |Queue(s)| / 8 + 1 + CatchUpTurns(Dirt(s), s.live.turns)
    ensures var t := Run(s, Quiet(n)); t.Finish? && Settled(t.s) && SameContent(s, t.s)
  {
    hide Inv, Step, Healthy, SameContent, Settled, Dirt, Run, Queue;
    var bulk := |Queue(s)| / 8 + 1;
    BulkEnds(s, blank);
    var t := Run(s, Quiet(bulk)).s;
    var more := CatchUpTurns(Dirt(t), t.live.turns);
    CatchUpFinishes(t, more, blank);
    RunConcat(s, bulk, more);
    ContentTrans(s, t, Run(t, Quiet(more)).s);
    TurnsMonotone(Dirt(t), Dirt(s), s.live.turns);
    n := bulk + more;
  }

  lemma TurnsMonotone(a: nat, b: nat, turns: nat)
    requires a <= b
    ensures CatchUpTurns(a, turns) <= CatchUpTurns(b, turns)
  {
  }

  /** The run has finished, and the candidate holds these words and records. */
  predicate FinishedWith(t: Turn, words: seq<nat>, records: map<nat, seq<Byte>>) {
    t.Finish? && t.s.candidate.words == words && t.s.candidate.records == records
  }

  /** Every record of the runtime has a place in the key space and fits a packet. */
  ghost predicate Sendable(records: map<nat, seq<Byte>>, keys: seq<nat>) {
    && (forall k :: k in keys <==> k in records)
    && forall k :: k in records ==> k < WORD_LIMIT && k / KIND != FRAME_KIND && 40 + |records[k]| <= MAX_BODY
  }

  /** From the start it takes exactly one turn for every eight words and records, and three more. */
  lemma BeginFinishes(frames: Frames, records: map<nat, seq<Byte>>, keys: seq<nat>, generation: nat, total: nat)
    requires Shaped(frames) && SnapshotWords(frames) < KIND && Sendable(records, keys)
    requires total == SnapshotWords(frames) + |keys| < WORD_LIMIT
    ensures FinishedWith(Run(Begin(frames, records, keys, generation), Quiet(total / 8 + 3)), Words(frames), records)
    ensures Run(Begin(frames, records, keys, generation), Quiet(total / 8 + 2)).Continue?
  {
    hide Inv, Settled, Run, Words, Shaped, SameContent, Healthy, Queue, Dirt, Begin, Fresh;
    var s := Begin(frames, records, keys, generation);
    BeginInv(frames, records, keys, generation);
    BeginParts(frames, records, keys, generation);
    CleanFinishes(s, Fresh(|frames.used|, generation));
    BeginContent(frames, records, keys, generation, Run(s, Quiet(|Queue(s)| / 8 + 3)).s);
  }

  lemma BeginParts(frames: Frames, records: map<nat, seq<Byte>>, keys: seq<nat>, generation: nat)
    requires forall k :: k in records ==> 40 + |records[k]| <= MAX_BODY
    ensures var s := Begin(frames, records, keys, generation);
      && s.live.phase == Bulk && s.live.frameIndex <= SnapshotWords(s.frames) && s.live.sequence == 0
      && s.live.turns == 0 && Healthy(s) && Dirt(s) == 0 && |Queue(s)| == SnapshotWords(frames) + |keys|
  {
  }

  /** With nothing dirty at the start, exactly. */
  lemma CleanFinishes(s: Sys, blank: Candidate)
    requires Inv(s, blank) && s.live.phase == Bulk && Healthy(s) && s.live.frameIndex <= SnapshotWords(s.frames)
    requires s.live.sequence + |Queue(s)| < WORD_LIMIT && Dirt(s) == 0 && s.live.turns == 0
    ensures var t := Run(s, Quiet(|Queue(s)| / 8 + 3)); t.Finish? && Settled(t.s) && SameContent(s, t.s)
    ensures Run(s, Quiet(|Queue(s)| / 8 + 2)).Continue?
  {
    hide Inv, Step, Settled, Run, SameContent, Healthy, Queue, Dirt;
    var bulk := |Queue(s)| / 8 + 1;
    BulkEnds(s, blank);
    var t := Run(s, Quiet(bulk)).s;
    CatchUpFinishes(t, 2, blank);
    CatchUpFinishes(t, 1, blank);
    RunConcat(s, bulk, 2);
    RunConcat(s, bulk, 1);
    ContentTrans(s, t, Run(t, Quiet(2)).s);
  }

  lemma BeginContent(frames: Frames, records: map<nat, seq<Byte>>, keys: seq<nat>, generation: nat, r: Sys)
    requires SameContent(Begin(frames, records, keys, generation), r) && Settled(r)
    ensures r.candidate.words == Words(frames) && r.candidate.records == records
  {
  }
}

/** Live transplant of a running kernel: bulk copy, dirty tracking and catch-up while the source
    keeps changing, up to the moment when the candidate holds exactly what the source holds. */
module Transplant {
  import opened Octets
  import opened FrameMap
  import opened Packets

  datatype Phase = Bulk | CatchUp

  /** The sender's progress; `cursor` lists the runtime records still to be bulk-copied. */
  datatype Live = Live(
    phase: Phase, generation: nat, cursor: seq<nat>, frameIndex: nat, sequence: nat, digest: nat,
    bulkSequence: nat, bulkDigest: nat, turns: nat)

  /** Both kernels; `log` lists the packets sent so far and is read by nothing. */
  datatype Sys = Sys(frames: Frames, records: map<nat, seq<Byte>>, dirty: Dirty, live: Live, candidate: Candidate,
                     log: seq<seq<Byte>>)

  const BULK_TURN := 8
  const CATCHUP_TURN := 32
  const META := 0

  /** A fresh candidate: all frames taken, none from the boot files, no records. */
  function Fresh(words: nat, generation: nat): Candidate {
    Candidate(seq(words, _ => WORD - 1) + seq(words, _ => 0) + [0], map[], generation, 0, 0)
  }

  // ---------- Sending ----------

  /** The record of a key as it is now, if there is one. */
  function RecordOf(s: Sys, key: nat): Option<seq<Byte>> {
    if key / KIND == FRAME_KIND then
      if key % KIND < |Words(s.frames)| then Some(FrameRecord(key % KIND, Words(s.frames)[key % KIND])) else None
    else if key in s.records then Some(RuntimeRecord(key, s.records[key]))
    else None
  }

  /** Copying a record clears its mark. */
  function Cleaned(s: Sys, key: nat): Sys {
    if key / KIND != FRAME_KIND then s.(dirty := Copied(s.dirty, key))
    else if s.frames.dirty.Some? then s.(frames := s.frames.(dirty := Some(Copied(s.frames.dirty.value, key % KIND))))
    else s
  }

  /** Sends the current value of a record; none means that the transplant is abandoned. */
  function Send(s: Sys, key: nat): Option<Sys> {
    var next := s.live.sequence + 1;
    var record := RecordOf(s, key);
    if next >= WORD_LIMIT || record.None? || 8 + |record.value| > MAX_BODY then None
    else
      var packet := Packet(Body(next, record.value));
      var answer := Adopt(s.candidate, packet);
      if answer.code != 0 then None
      else Some(Cleaned(s, key).(
        candidate := answer.candidate, log := s.log + [packet],
        live := s.live.(sequence := next, digest := Digested(s.live.digest, Checksum(Body(next, record.value))))))
  }

  /** The next dirty key: frames first, then runtime records; none means failure. */
  function DirtyKey(s: Sys): Option<Option<nat>> {
    if s.frames.dirty.Some? && !s.frames.dirty.value.failed && s.frames.dirty.value.keys != {} then
      Some(Some(FrameKey(Least(s.frames.dirty.value.keys))))
    else NextKey(s.dirty)
  }

  // ---------- One turn ----------

  datatype Turn = Continue(s: Sys) | Finish(s: Sys) | Abandon

  function BulkLoop(s: Sys, left: nat, completes: bool): Turn
    decreases left
  {
    if left == 0 then Continue(s)
    else if s.live.frameIndex < SnapshotWords(s.frames) then
      var sent := Send(s.(live := s.live.(frameIndex := s.live.frameIndex + 1)), FrameKey(s.live.frameIndex));
      if sent.None? then Abandon else BulkLoop(sent.value, left - 1, completes)
    else if s.live.cursor != [] then
      var sent := Send(s.(live := s.live.(cursor := s.live.cursor[1..])), s.live.cursor[0]);
      if sent.None? then Abandon else BulkLoop(sent.value, left - 1, completes)
    else if completes then
      Continue(s.(live := s.live.(phase := CatchUp, bulkSequence := s.live.sequence, bulkDigest := s.live.digest)))
    else Abandon
  }

  function CatchUpLoop(s: Sys, left: nat): Turn
    decreases left
  {
    if left == 0 then Continue(s)
    else
      match DirtyKey(s)
      case None => Abandon
      case Some(None) => if s.live.turns > 1 then Finish(s) else Continue(s)
      case Some(Some(key)) =>
        var sent := Send(s, key);
        if sent.None? then Abandon else CatchUpLoop(sent.value, left - 1)
  }

  /** One turn; `onTime` and `completes` are what the session's clock decides. */
  function Step(s: Sys, onTime: bool, completes: bool): Turn {
    if !onTime then Abandon
    else if s.live.phase == Bulk then BulkLoop(s, BULK_TURN, completes)
    else CatchUpLoop(s.(live := s.live.(turns := s.live.turns + 1)), CATCHUP_TURN)
  }

  // ---------- What the source does meanwhile ----------

  datatype Change =
    | Allocated(first: nat, pages: nat)
    | Released(first: nat, pages: nat)
    | Written(key: nat, value: seq<Byte>, meta: seq<Byte>)

  predicate Possible(s: Sys, change: Change) {
    match change
    case Allocated(first, pages) => 0 < FrameCount(s.frames) && first + pages <= FrameCount(s.frames) &&
        |s.frames.used| == |s.frames.boot|
    case Released(first, pages) => first + pages <= FrameCount(s.frames)
    case Written(key, _, _) => key < WORD_LIMIT && key / KIND != FRAME_KIND
  }

  function Changed(s: Sys, change: Change): Sys
    requires Possible(s, change)
  {
    match change
    case Allocated(first, pages) =>
      s.(frames := TakeFrames(s.frames, first, pages).(hint := (first + pages) % FrameCount(s.frames)))
    case Released(first, pages) =>
      s.(frames := FreeFrames(s.frames, first, pages).(hint := if first < s.frames.hint then first else s.frames.hint))
    case Written(key, value, meta) =>
      s.(records := s.records[key := value][META := meta], dirty := Marked(Marked(s.dirty, key), META))
  }

  // ---------- The invariant ----------

  /** A frame word is yet to be bulk-copied, or dirty, or already the same on both sides. */
  ghost predicate FrameCovered(s: Sys, i: nat)
    requires Shaped(s.frames) && s.frames.dirty.Some? && |s.candidate.words| == |Words(s.frames)|
    requires i < |Words(s.frames)|
  {
    s.live.frameIndex <= i || i in s.frames.dirty.value.keys || s.candidate.words[i] == Words(s.frames)[i]
  }

  ghost predicate FramesCovered(s: Sys) {
    && Shaped(s.frames) && s.frames.dirty.Some? && |s.candidate.words| == |Words(s.frames)| < KIND
    && s.live.frameIndex <= |Words(s.frames)|
    && forall i :: 0 <= i < |Words(s.frames)| ==> FrameCovered(s, i)
  }

  /** A runtime record is yet to be bulk-copied, or dirty, or already the same on both sides. */
  ghost predicate RecordCovered(s: Sys, key: nat)
    requires key in s.records
  {
    || s.dirty.failed || key in s.live.cursor || key in s.dirty.keys
    || (key in s.candidate.records && s.candidate.records[key] == s.records[key])
  }

  ghost predicate RecordsCovered(s: Sys) {
    forall key :: key in s.records ==> key < WORD_LIMIT && key / KIND != FRAME_KIND && RecordCovered(s, key)
  }

  /** The candidate that results from adopting packets in order. */
  function Replay(c: Candidate, packets: seq<seq<Byte>>): Candidate
    decreases |packets|
  {
    if packets == [] then c else Adopt(Replay(c, packets[..|packets| - 1]), packets[|packets| - 1]).candidate
  }

  /** Both sides are at the same packet with the same digest, and the candidate is exactly what the
      packets sent make of a blank one. */
  ghost predicate InStep(s: Sys, blank: Candidate) {
    && s.candidate.sequence == s.live.sequence && s.candidate.digest == s.live.digest
    && s.candidate.generation == s.live.generation
    && |s.log| == s.live.sequence && s.candidate == Replay(blank, s.log)
  }

  /** Every key still to be copied names a record. */
  ghost predicate KeysKnown(s: Sys) {
    (forall k :: k in s.live.cursor ==> k in s.records) && forall k :: k in s.dirty.keys ==> k in s.records
  }

  /** The candidate holds no record that the source does not have. */
  ghost predicate NoStrays(s: Sys) {
    forall k :: k in s.candidate.records ==> k in s.records
  }

  ghost predicate Inv(s: Sys, blank: Candidate) {
    && FramesCovered(s) && RecordsCovered(s) && InStep(s, blank) && KeysKnown(s) && NoStrays(s)
    && (s.live.phase == CatchUp ==> s.live.frameIndex == |Words(s.frames)| && s.live.cursor == [])
  }

  // ---------- Sending keeps it ----------

  lemma ReplayNext(c: Candidate, packets: seq<seq<Byte>>, packet: seq<Byte>)
    ensures Replay(c, packets + [packet]) == Adopt(Replay(c, packets), packet).candidate
  {
    hide Adopt;
    assert (packets + [packet])[..|packets|] == packets;
  }

  /** The effect of a send on the candidate, and on nothing else but marks and counters. */
  lemma SendIs(s: Sys, key: nat, blank: Candidate)
    requires InStep(s, blank) && Send(s, key).Some? && RecordOf(s, key).Some?
    ensures var r := Send(s, key).value; var adopted := AdoptRecord(s.candidate, RecordOf(s, key).value);
      && InStep(r, blank) && adopted.code == 0
      && r.candidate.words == adopted.candidate.words && r.candidate.records == adopted.candidate.records
      && r.records == s.records && r.live == s.live.(sequence := r.live.sequence, digest := r.live.digest)
  {
    hide Adopt, Checksum, Digested, RecordOf, AdoptRecord, Packet, Body, Replay;
    var record := RecordOf(s, key).value;
    var next := s.live.sequence + 1;
    RecordSize(s, key);
    AdoptSent(s.candidate, next, record);
    ReplayNext(blank, s.log, Packet(Body(next, record)));
    AdoptKeepsGeneration(s.candidate, record);
  }

  lemma RecordSize(s: Sys, key: nat)
    requires RecordOf(s, key).Some?
    ensures 8 <= |RecordOf(s, key).value|
  {
  }

  lemma AdoptKeepsGeneration(c: Candidate, record: seq<Byte>)
    ensures AdoptRecord(c, record).candidate.generation == c.generation
  {
    hide LittleEndian;
  }

  lemma SendNeedsRecord(s: Sys, key: nat)
    requires Send(s, key).Some?
    ensures RecordOf(s, key).Some?
  {
    hide Adopt, RecordOf;
  }

  /** Sending frame word `i`: its mark goes, and the candidate gets its value. */
  lemma SendFrame(s: Sys, i: nat, blank: Candidate)
    requires InStep(s, blank) && FramesCovered(s) && i < |Words(s.frames)| && Send(s, FrameKey(i)).Some?
    ensures var r := Send(s, FrameKey(i)).value;
      && InStep(r, blank) && FramesCovered(r) && r.records == s.records && r.dirty == s.dirty
      && r.candidate.records == s.candidate.records && Words(r.frames) == Words(s.frames)
      && r.live == s.live.(sequence := r.live.sequence, digest := r.live.digest)
      && r.candidate.words == s.candidate.words[i := Words(s.frames)[i]]
      && r.frames.dirty.Some? && r.frames.dirty.value.keys == s.frames.dirty.value.keys - {i}
  {
    hide InStep, AdoptRecord, FrameRecord, Replay, Adopt, Shaped;
    var key := FrameKey(i);
    assert key / KIND == FRAME_KIND && key % KIND == i;
    SendNeedsRecord(s, key);
    SendIs(s, key, blank);
    WordsBound(s.frames, i);
    AdoptFrameSent(s.candidate, i, Words(s.frames)[i]);
    var r := Send(s, key).value;
    SendFrames(s, key);
    CopiedShaped(s.frames, i);
    assert r.candidate.words == s.candidate.words[i := Words(s.frames)[i]];
    forall k | 0 <= k < |Words(r.frames)| ensures FrameCovered(r, k) {
      assert FrameCovered(s, k);
    }
  }

  lemma SendFrames(s: Sys, key: nat)
    requires Send(s, key).Some?
    ensures Send(s, key).value.frames == Cleaned(s, key).frames && Send(s, key).value.dirty == Cleaned(s, key).dirty
  {
    hide Adopt, RecordOf;
  }

  lemma WordsBound(f: Frames, i: nat)
    requires Shaped(f) && i < |Words(f)|
    ensures Words(f)[i] < WORD_LIMIT
  {
  }

  lemma CopiedShaped(f: Frames, i: nat)
    requires Shaped(f) && f.dirty.Some?
    ensures Shaped(f.(dirty := Some(Copied(f.dirty.value, i))))
  {
  }

  /** Sending a runtime record. */
  lemma SendRecord(s: Sys, key: nat, blank: Candidate)
    requires InStep(s, blank) && key in s.records && key < WORD_LIMIT && key / KIND != FRAME_KIND && Send(s, key).Some?
    ensures var r := Send(s, key).value;
      && InStep(r, blank) && r.frames == s.frames && r.records == s.records && r.dirty == Copied(s.dirty, key)
      && r.candidate.words == s.candidate.words && r.candidate.records == s.candidate.records[key := s.records[key]]
      && r.live == s.live.(sequence := r.live.sequence, digest := r.live.digest)
  {
    hide InStep, AdoptRecord, RuntimeRecord, Replay, Adopt;
    SendNeedsRecord(s, key);
    SendIs(s, key, blank);
    AdoptRuntimeSent(s.candidate, key, s.records[key]);
    SendFrames(s, key);
  }

  // ---------- Turns keep it ----------

  lemma AdvanceCovered(s: Sys, blank: Candidate)
    requires Inv(s, blank) && s.live.phase == Bulk && s.live.frameIndex < |Words(s.frames)|
    requires Send(s.(live := s.live.(frameIndex := s.live.frameIndex + 1)), FrameKey(s.live.frameIndex)).Some?
    ensures Inv(Send(s.(live := s.live.(frameIndex := s.live.frameIndex + 1)), FrameKey(s.live.frameIndex)).value,
                blank)
  {
    hide InStep, Send, Shaped, Words, Replay;
    var i := s.live.frameIndex;
    SendFrameNext(s, i, blank);
    var r := Send(s.(live := s.live.(frameIndex := i + 1)), FrameKey(i)).value;
    forall key | key in r.records ensures RecordCovered(r, key) {
      assert RecordCovered(s, key);
    }
  }

  /** Advancing the index exposes one word, which is the one being sent. */
  lemma SendFrameNext(s: Sys, i: nat, blank: Candidate)
    requires FramesCovered(s) && InStep(s, blank) && i == s.live.frameIndex < |Words(s.frames)|
    requires Send(s.(live := s.live.(frameIndex := i + 1)), FrameKey(i)).Some?
    ensures var t := s.(live := s.live.(frameIndex := i + 1)); var r := Send(t, FrameKey(i)).value;
      && FramesCovered(r) && InStep(r, blank) && r.records == s.records && r.dirty == s.dirty
      && r.candidate.records == s.candidate.records
      && r.live == t.live.(sequence := r.live.sequence, digest := r.live.digest)
  {
    hide InStep, AdoptRecord, FrameRecord, Replay, Adopt, Shaped;
    var t := s.(live := s.live.(frameIndex := i + 1));
    InStepIndex(s, t, blank);
    var key := FrameKey(i);
    assert key / KIND == FRAME_KIND && key % KIND == i;
    SendNeedsRecord(t, key);
    SendIs(t, key, blank);
    WordsBound(s.frames, i);
    AdoptFrameSent(t.candidate, i, Words(s.frames)[i]);
    var r := Send(t, key).value;
    SendFrames(t, key);
    CopiedShaped(s.frames, i);
    assert r.candidate.words == s.candidate.words[i := Words(s.frames)[i]];
    forall k | 0 <= k < |Words(r.frames)| ensures FrameCovered(r, k) {
      assert FrameCovered(s, k);
    }
  }

  lemma InStepIndex(s: Sys, t: Sys, blank: Candidate)
    requires InStep(s, blank) && t.candidate == s.candidate && t.log == s.log
    requires t.live.sequence == s.live.sequence && t.live.digest == s.live.digest
    requires t.live.generation == s.live.generation
    ensures InStep(t, blank)
  {
  }

  lemma CursorCovered(s: Sys, blank: Candidate)
    requires Inv(s, blank) && s.live.phase == Bulk && s.live.cursor != []
    requires Send(s.(live := s.live.(cursor := s.live.cursor[1..])), s.live.cursor[0]).Some?
    ensures Inv(Send(s.(live := s.live.(cursor := s.live.cursor[1..])), s.live.cursor[0]).value, blank)
  {
    hide InStep, Send, Shaped, Words, Replay;
    var t, key := s.(live := s.live.(cursor := s.live.cursor[1..])), s.live.cursor[0];
    InStepIndex(s, t, blank);
    SendRecord(t, key, blank);
    var r := Send(t, key).value;
    FramesUnchanged(s, r);
    forall k | k in r.records ensures RecordCovered(r, k) {
      assert RecordCovered(s, k);
      assert k in s.live.cursor ==> k == key || k in s.live.cursor[1..];
    }
  }

  lemma FramesUnchanged(s: Sys, r: Sys)
    requires FramesCovered(s) && r.frames == s.frames && r.candidate.words == s.candidate.words
    requires r.live.frameIndex == s.live.frameIndex
    ensures FramesCovered(r)
  {
    hide Shaped, Words;
    forall k | 0 <= k < |Words(r.frames)| ensures FrameCovered(r, k) {
      assert FrameCovered(s, k);
    }
  }

  lemma {:induction false} BulkKeeps(s: Sys, left: nat, completes: bool, blank: Candidate)
    requires Inv(s, blank) && s.live.phase == Bulk
    ensures var t := BulkLoop(s, left, completes); !t.Finish? && (t.Continue? ==> Inv(t.s, blank))
    decreases left
  {
    hide Inv, Send;
    InvIndex(s, blank);
    if left > 0 {
      var i := s.live.frameIndex;
      if i < SnapshotWords(s.frames) {
        var sent := Send(s.(live := s.live.(frameIndex := i + 1)), FrameKey(i));
        if sent.Some? {
          AdvanceCovered(s, blank);
          SendKeepsRest(s.(live := s.live.(frameIndex := i + 1)), FrameKey(i));
          BulkKeeps(sent.value, left - 1, completes, blank);
        }
      } else if s.live.cursor != [] {
        var t := s.(live := s.live.(cursor := s.live.cursor[1..]));
        var sent := Send(t, s.live.cursor[0]);
        if sent.Some? {
          CursorCovered(s, blank);
          SendKeepsRest(t, s.live.cursor[0]);
          BulkKeeps(sent.value, left - 1, completes, blank);
        }
      } else if completes {
        TurnsToCatchUp(s, blank);
      }
    }
  }

  lemma InvIndex(s: Sys, blank: Candidate)
    requires Inv(s, blank)
    ensures |Words(s.frames)| == SnapshotWords(s.frames) && s.live.frameIndex <= SnapshotWords(s.frames)
  {
  }

  lemma SendKeepsRest(s: Sys, key: nat)
    requires Send(s, key).Some?
    ensures var r := Send(s, key).value;
      r.records == s.records && r.live == s.live.(sequence := r.live.sequence, digest := r.live.digest)
  {
    hide Adopt, RecordOf;
  }

  lemma TurnsToCatchUp(s: Sys, blank: Candidate)
    requires Inv(s, blank) && s.live.phase == Bulk && s.live.frameIndex == |Words(s.frames)| && s.live.cursor == []
    ensures Inv(s.(live := s.live.(phase := CatchUp, bulkSequence := s.live.sequence, bulkDigest := s.live.digest)),
                blank)
  {
    hide Shaped, Words, Replay;
    var t := s.(live := s.live.(phase := CatchUp, bulkSequence := s.live.sequence, bulkDigest := s.live.digest));
    FramesUnchanged(s, t);
    forall k | k in t.records ensures RecordCovered(t, k) {
      assert RecordCovered(s, k);
    }
  }

  /** The candidate holds exactly what the source holds. */
  ghost predicate Settled(s: Sys) {
    s.candidate.words == Words(s.frames) && s.candidate.records == s.records
  }

  lemma DirtyFrameCovered(s: Sys, i: nat, blank: Candidate)
    requires Inv(s, blank) && i in s.frames.dirty.value.keys && Send(s, FrameKey(i)).Some?
    ensures Inv(Send(s, FrameKey(i)).value, blank)
  {
    hide InStep, Send, Shaped, Words, Replay;
    DirtyFrameFits(s, i, blank);
    SendFrame(s, i, blank);
    var r := Send(s, FrameKey(i)).value;
    forall key | key in r.records ensures RecordCovered(r, key) {
      assert RecordCovered(s, key);
    }
  }

  lemma DirtyFrameFits(s: Sys, i: nat, blank: Candidate)
    requires Inv(s, blank) && i in s.frames.dirty.value.keys
    ensures i < |Words(s.frames)|
  {
  }

  lemma DirtyRecordCovered(s: Sys, key: nat, blank: Candidate)
    requires Inv(s, blank) && key in s.dirty.keys && Send(s, key).Some?
    ensures Inv(Send(s, key).value, blank)
  {
    hide InStep, Send, Shaped, Words, Replay;
    SendRecord(s, key, blank);
    var r := Send(s, key).value;
    FramesUnchanged(s, r);
    forall k | k in r.records ensures RecordCovered(r, k) {
      assert RecordCovered(s, k);
    }
  }

  /** With nothing left to bulk-copy and nothing dirty, both sides are the same. */
  lemma NothingDirty(s: Sys, blank: Candidate)
    requires Inv(s, blank) && s.live.phase == CatchUp && DirtyKey(s) == Some(None)
    ensures Settled(s)
  {
    hide InStep, Replay, Words;
    FrameDirtyRoomy(s);
    forall i | 0 <= i < |Words(s.frames)| ensures s.candidate.words[i] == Words(s.frames)[i] {
      assert FrameCovered(s, i);
    }
    forall key | key in s.records ensures key in s.candidate.records && s.candidate.records[key] == s.records[key] {
      assert RecordCovered(s, key);
    }
  }

  lemma FrameDirtyRoomy(s: Sys)
    requires FramesCovered(s)
    ensures !s.frames.dirty.value.failed
  {
  }

  lemma {:induction false} CatchUpKeeps(s: Sys, left: nat, blank: Candidate)
    requires Inv(s, blank) && s.live.phase == CatchUp
    ensures var t := CatchUpLoop(s, left); (!t.Abandon? ==> Inv(t.s, blank)) && (t.Finish? ==> Settled(t.s))
    decreases left
  {
    hide Inv, Send, Settled;
    if left > 0 && DirtyKey(s).Some? {
      if DirtyKey(s).value.None? {
        NothingDirty(s, blank);
      } else {
        var key := DirtyKey(s).value.value;
        if Send(s, key).Some? {
          SendKeepsRest(s, key);
          if s.frames.dirty.Some? && !s.frames.dirty.value.failed && s.frames.dirty.value.keys != {} {
            DirtyFrameCovered(s, Least(s.frames.dirty.value.keys), blank);
          } else {
            DirtyRecordCovered(s, key, blank);
          }
          CatchUpKeeps(Send(s, key).value, left - 1, blank);
        }
      }
    }
  }

  /** A turn keeps the invariant, and finishes only when both sides hold the same. */
  lemma StepKeeps(s: Sys, onTime: bool, completes: bool, blank: Candidate)
    requires Inv(s, blank)
    ensures var t := Step(s, onTime, completes); (!t.Abandon? ==> Inv(t.s, blank)) && (t.Finish? ==> Settled(t.s))
  {
    hide Inv, BulkLoop, CatchUpLoop, Settled;
    if onTime {
      if s.live.phase == Bulk {
        BulkKeeps(s, BULK_TURN, completes, blank);
      } else {
        var t := s.(live := s.live.(turns := s.live.turns + 1));
        TurnCounted(s, t, blank);
        CatchUpKeeps(t, CATCHUP_TURN, blank);
      }
    }
  }

  lemma TurnCounted(s: Sys, t: Sys, blank: Candidate)
    requires Inv(s, blank) && t == s.(live := s.live.(turns := s.live.turns + 1))
    ensures Inv(t, blank)
  {
    hide Shaped, Words, Replay;
    FramesUnchanged(s, t);
    forall k | k in t.records ensures RecordCovered(t, k) {
      assert RecordCovered(s, k);
    }
  }

  // ---------- Changes keep it ----------

  lemma RecordedHint(f: Frames, g: Frames, hint: nat)
    requires Recorded(f, g)
    ensures Recorded(f, g.(hint := hint))
  {
  }

  lemma FramesChange(s: Sys, g: Frames, blank: Candidate)
    requires Inv(s, blank) && Recorded(s.frames, g)
    ensures Inv(s.(frames := g), blank)
  {
    hide InStep, Words, Shaped, Replay;
    var t := s.(frames := g);
    InStepIndex(s, t, blank);
    forall i | 0 <= i < |Words(g)| ensures FrameCovered(t, i) {
      assert FrameCovered(s, i);
    }
    forall k | k in t.records ensures RecordCovered(t, k) {
      assert RecordCovered(s, k);
    }
  }

  lemma WriteCovers(s: Sys, key: nat, value: seq<Byte>, meta: seq<Byte>)
    requires RecordsCovered(s) && key < WORD_LIMIT && key / KIND != FRAME_KIND
    ensures RecordsCovered(Changed(s, Written(key, value, meta)))
  {
    var t := Changed(s, Written(key, value, meta));
    forall k | k in t.records ensures k < WORD_LIMIT && k / KIND != FRAME_KIND && RecordCovered(t, k) {
      if k in s.records {
        assert RecordCovered(s, k);
      }
    }
  }

  lemma WriteKnows(s: Sys, key: nat, value: seq<Byte>, meta: seq<Byte>)
    requires KeysKnown(s) && NoStrays(s) && key < WORD_LIMIT && key / KIND != FRAME_KIND
    ensures var t := Changed(s, Written(key, value, meta)); KeysKnown(t) && NoStrays(t)
  {
  }

  lemma WriteKeeps(s: Sys, key: nat, value: seq<Byte>, meta: seq<Byte>, blank: Candidate)
    requires Inv(s, blank) && key < WORD_LIMIT && key / KIND != FRAME_KIND
    ensures Inv(Changed(s, Written(key, value, meta)), blank)
  {
    hide InStep, FramesCovered, RecordsCovered, KeysKnown, NoStrays, Marked;
    var t := Changed(s, Written(key, value, meta));
    InStepIndex(s, t, blank);
    FramesUnchanged(s, t);
    WriteCovers(s, key, value, meta);
    WriteKnows(s, key, value, meta);
  }

  lemma ChangeKeeps(s: Sys, change: Change, blank: Candidate)
    requires Inv(s, blank) && Possible(s, change)
    ensures Inv(Changed(s, change), blank)
  {
    hide Inv, TakeFrames, FreeFrames, Recorded;
    InvShaped(s, blank);
    match change {
      case Allocated(first, pages) =>
        TakeFramesRecorded(s.frames, first, pages);
        RecordedHint(s.frames, TakeFrames(s.frames, first, pages), (first + pages) % FrameCount(s.frames));
        FramesChange(s, Changed(s, change).frames, blank);
      case Released(first, pages) =>
        FreeFramesRecorded(s.frames, first, pages);
        RecordedHint(s.frames, FreeFrames(s.frames, first, pages), if first < s.frames.hint then first
                                                                   else s.frames.hint);
        FramesChange(s, Changed(s, change).frames, blank);
      case Written(key, value, meta) => WriteKeeps(s, key, value, meta, blank);
    }
  }

  lemma InvShaped(s: Sys, blank: Candidate)
    requires Inv(s, blank)
    ensures Shaped(s.frames)
  {
  }

  // ---------- Runs ----------

  datatype Event = Source(change: Change) | Turns(onTime: bool, completes: bool)

  function After(s: Sys, e: Event): Turn {
    match e
    case Source(change) => if Possible(s, change) then Continue(Changed(s, change)) else Continue(s)
    case Turns(onTime, completes) => Step(s, onTime, completes)
  }

  /** A run up to the turn that finishes or abandons it. */
  function Run(s: Sys, events: seq<Event>): Turn
    decreases |events|
  {
    if events == [] then Continue(s)
    else
      var t := After(s, events[0]);
      if t.Continue? then Run(t.s, events[1..]) else t
  }

  /** For every interleaving of source changes and copying turns: when the transplant decides to
      finish, the candidate holds every frame word and every record as the source holds them. */
  lemma {:induction false} RunSettles(s: Sys, events: seq<Event>, blank: Candidate)
    requires Inv(s, blank)
    ensures var t := Run(s, events); (!t.Abandon? ==> Inv(t.s, blank)) && (t.Finish? ==> Settled(t.s))
    decreases |events|
  {
    hide Inv, Step, Changed, Settled;
    if events != [] {
      match events[0] {
        case Source(change) =>
          if Possible(s, change) {
            ChangeKeeps(s, change, blank);
          }
        case Turns(onTime, completes) => StepKeeps(s, onTime, completes, blank);
      }
      var t := After(s, events[0]);
      if t.Continue? {
        RunSettles(t.s, events[1..], blank);
      }
    }
  }

  /** The start: a fresh candidate, nothing dirty, everything to be copied. */
  function Begin(frames: Frames, records: map<nat, seq<Byte>>, keys: seq<nat>, generation: nat): Sys {
    Sys(frames.(dirty := Some(Dirty({}, SnapshotWords(frames), false))), records, Dirty({}, 16384, false),
        Live(Bulk, generation, keys, 0, 0, 0, 0, 0, 0), Fresh(|frames.used|, generation), [])
  }

  lemma BeginInv(frames: Frames, records: map<nat, seq<Byte>>, keys: seq<nat>, generation: nat)
    requires Shaped(frames) && SnapshotWords(frames) < KIND
    requires forall k :: k in keys <==> k in records
    requires forall k :: k in records ==> k < WORD_LIMIT && k / KIND != FRAME_KIND
    ensures Inv(Begin(frames, records, keys, generation), Fresh(|frames.used|, generation))
  {
    var s := Begin(frames, records, keys, generation);
    forall i | 0 <= i < |Words(s.frames)| ensures FrameCovered(s, i) {
    }
  }

  // ---------- The receipt ----------

  function Take(c: Candidate, generation: nat, sequence: nat, digest: nat): Option<Candidate> {
    if c.generation == generation && c.sequence == sequence && c.digest == digest then Some(c) else None
  }

  /** The sender's receipt is accepted, and yields exactly what its packets, in order, built. */
  lemma ReceiptYieldsSent(s: Sys, blank: Candidate)
    requires Inv(s, blank)
    ensures Take(s.candidate, s.live.generation, s.live.sequence, s.live.digest) == Some(Replay(blank, s.log))
  {
    hide Replay, FramesCovered, RecordsCovered;
  }
}

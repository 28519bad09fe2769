/** The two kernels of a live transplant as they run: the sender's bounded loops, and the
    candidate's packet handler, updating their state in place. */
module LiveKernel {
  import opened Octets
  import opened FrameMap
  import opened Packets
  import opened Transplant

  datatype Verdict = Going | Finishing | Aborting

  class LiveKernel {
    var frames: Frames
    var records: map<nat, seq<Byte>>
    var dirty: Dirty
    var live: Live
    var candidate: Candidate
    ghost var log: seq<seq<Byte>>

    ghost function View(): Sys
      reads this
    {
      Sys(frames, records, dirty, live, candidate, log)
    }

    constructor (frames: Frames, records: map<nat, seq<Byte>>, keys: seq<nat>, generation: nat)
      ensures View() == Begin(frames, records, keys, generation)
    {
      this.frames := frames.(dirty := Some(Dirty({}, SnapshotWords(frames), false)));
      this.records := records;
      dirty := Dirty({}, 16384, false);
      live := Live(Bulk, generation, keys, 0, 0, 0, 0, 0, 0);
      candidate := Fresh(|frames.used|, generation);
      log := [];
    }

    /** The candidate's side of one packet. */
    method Deliver(packet: seq<Byte>) returns (code: int)
      modifies this`candidate
      ensures Answer(candidate, code) == Adopt(old(candidate), packet)
    {
      hide Checksum, LittleEndian, AdoptRecord, Digested;
      if |packet| < 24 || |packet| > MAX_PACKET {
        return -3;
      }
      var end := |packet| - 8;
      var body, expected := packet[..end], LittleEndian(packet[end..]);
      var sum := ChecksumOf(body);
      if sum != expected {
        return -4;
      }
      var sequence := LittleEndian(body[..8]);
      if sequence != candidate.sequence + 1 {
        return -5;
      }
      var digest := candidate.digest;
      var adopted := AdoptRecord(candidate, body[8..]);
      candidate := adopted.candidate;
      if adopted.code != 0 {
        return adopted.code;
      }
      candidate := candidate.(sequence := sequence, digest := Digested(digest, expected));
      return 0;
    }

    method SendKey(key: nat) returns (ok: bool)
      modifies this
      ensures ok <==> Send(old(View()), key).Some?
      ensures ok ==> View() == Send(old(View()), key).value
    {
      hide Checksum, Adopt, Digested, Packet, Body, FrameRecord, RuntimeRecord;
      var next := live.sequence + 1;
      if next >= WORD_LIMIT {
        return false;
      }
      var record;
      if key / KIND == FRAME_KIND {
        var index := key % KIND;
        if index >= |frames.used| + |frames.boot| + 1 {
          return false;
        }
        record := FrameRecord(index, Words(frames)[index]);
        if 8 + |record| > MAX_BODY {
          return false;
        }
        if frames.dirty.Some? {
          frames := frames.(dirty := Some(Copied(frames.dirty.value, index)));
        }
      } else {
        if key !in records {
          return false;
        }
        record := RuntimeRecord(key, records[key]);
        if 8 + |record| > MAX_BODY {
          return false;
        }
        dirty := Copied(dirty, key);
      }
      var body := Body(next, record);
      var hash := ChecksumOf(body);
      var code := Deliver(Packet(body));
      if code != 0 {
        return false;
      }
      log := log + [Packet(body)];
      live := live.(sequence := next, digest := Digested(live.digest, hash));
      return true;
    }

    method NextDirty() returns (r: Option<Option<nat>>)
      ensures r == DirtyKey(View())
    {
      if frames.dirty.Some? {
        var next := NextKey(frames.dirty.value);
        if next.Some? && next.value.Some? {
          return Some(Some(FrameKey(next.value.value)));
        }
      }
      return NextKey(dirty);
    }

    ghost predicate Matches(verdict: Verdict, turn: Turn)
      reads this
    {
      match turn
      case Continue(s) => verdict == Going && View() == s
      case Finish(s) => verdict == Finishing && View() == s
      case Abandon => verdict == Aborting
    }

    method BulkTurn(completes: bool) returns (r: Verdict)
      modifies this
      ensures Matches(r, BulkLoop(old(View()), BULK_TURN, completes))
    {
      hide Send, BulkLoop;
      ghost var goal := BulkLoop(View(), BULK_TURN, completes);
      for n := 0 to BULK_TURN
        invariant BulkLoop(View(), BULK_TURN - n, completes) == goal
      {
        BulkUnfold(View(), BULK_TURN - n, completes);
        var key;
        if live.frameIndex < SnapshotWords(frames) {
          key := FrameKey(live.frameIndex);
          live := live.(frameIndex := live.frameIndex + 1);
        } else if live.cursor != [] {
          key := live.cursor[0];
          live := live.(cursor := live.cursor[1..]);
        } else {
          if !completes {
            return Aborting;
          }
          live := live.(phase := CatchUp, bulkSequence := live.sequence, bulkDigest := live.digest);
          return Going;
        }
        var ok := SendKey(key);
        if !ok {
          return Aborting;
        }
      }
      BulkEnds(View(), completes);
      return Going;
    }

    method CatchUpTurn() returns (r: Verdict)
      modifies this
      ensures Matches(r, CatchUpLoop(old(View()), CATCHUP_TURN))
    {
      hide Send, DirtyKey;
      ghost var goal := CatchUpLoop(View(), CATCHUP_TURN);
      for n := 0 to CATCHUP_TURN
        invariant CatchUpLoop(View(), CATCHUP_TURN - n) == goal
      {
        var key := NextDirty();
        if key.None? {
          return Aborting;
        }
        if key.value.None? {
          return if live.turns > 1 then Finishing else Going;
        }
        var ok := SendKey(key.value.value);
        if !ok {
          return Aborting;
        }
      }
      return Going;
    }

    /** One bounded turn, after which userspace runs again. */
    method StepTurn(onTime: bool, completes: bool) returns (r: Verdict)
      modifies this
      ensures Matches(r, Step(old(View()), onTime, completes))
    {
      hide BulkLoop, CatchUpLoop;
      if !onTime {
        return Aborting;
      }
      if live.phase == Bulk {
        r := BulkTurn(completes);
      } else {
        live := live.(turns := live.turns + 1);
        r := CatchUpTurn();
      }
    }

    /** Hands the prepared runtime over to whoever holds the sender's receipt, and to no one else: it
        is what the packets sent so far, in order, made of a blank candidate. */
    method TakePrepared(generation: nat, sequence: nat, digest: nat, ghost blank: Candidate)
      returns (r: Option<Candidate>)
      requires Inv(View(), blank)
      ensures r == if generation == live.generation && sequence == live.sequence && digest == live.digest
                   then Some(Replay(blank, log)) else None
    {
      hide Replay, FramesCovered, RecordsCovered, KeysKnown, NoStrays;
      if candidate.generation != generation || candidate.sequence != sequence || candidate.digest != digest {
        return None;
      }
      ReceiptYieldsSent(View(), blank);
      return Some(candidate);
    }
  }

  /** What one round of the bulk loop sends, if anything. */
  lemma BulkUnfold(s: Sys, left: nat, completes: bool)
    requires left > 0
    ensures BulkLoop(s, left, completes) ==
      if s.live.frameIndex < SnapshotWords(s.frames) then
        AfterSend(Send(s.(live := s.live.(frameIndex := s.live.frameIndex + 1)), FrameKey(s.live.frameIndex)), left - 1,
                  completes)
      else if s.live.cursor != [] then
        AfterSend(Send(s.(live := s.live.(cursor := s.live.cursor[1..])), s.live.cursor[0]), left - 1, completes)
      else if completes then
        Continue(s.(live := s.live.(phase := CatchUp, bulkSequence := s.live.sequence, bulkDigest := s.live.digest)))
      else Abandon
  {
    hide Send;
  }

  ghost function AfterSend(sent: Option<Sys>, left: nat, completes: bool): Turn {
    if sent.None? then Abandon else BulkLoop(sent.value, left, completes)
  }

  lemma BulkEnds(s: Sys, completes: bool)
    ensures BulkLoop(s, 0, completes) == Continue(s)
  {
  }
}

/** What an upload sends over all its calls: the granted files, whole and in order. */
module Sending {
  import opened Words
  import opened Wrappers
  import opened Transfer
  import Chunk

  /** The stream of an upload without its division into messages. */
  datatype Token = Start(name: Name, size: nat, offset: int) | Content(b: Byte)

  function Contents(data: seq<Byte>): (r: seq<Token>)
    ensures |r| == |data|
  {
    seq(|data|, i requires 0 <= i < |data| => Content(data[i]))
  }

  /** What the receiver of a message takes from it. */
  function Meaning(m: Message): seq<Token> {
    match m
    case FileHeader(name, size, startOffset) =>
      [Start(name, size, if startOffset.Some? then startOffset.value else 0)]
    case FileData(chunk) =>
      var data := Chunk.Decode(chunk);
      if data.Some? then Contents(data.value) else []
  }

  function MeaningOfAll(messages: seq<Message>): seq<Token> {
    if messages == [] then [] else Meaning(messages[0]) + MeaningOfAll(messages[1..])
  }

  /** A file from some byte on. */
  function Rest(file: seq<Byte>, offset: nat): seq<Byte> {
    if offset <= |file| then file[offset..] else []
  }

  /** What the grants ask for. */
  function Plan(grants: seq<Grant>, shared: Files): seq<Token> {
    if grants == [] then []
    else
      var g := grants[0];
      (if g.name in shared && g.offset >= 0 then
         [Start(g.name, |shared[g.name]|, g.offset)] + Contents(Rest(shared[g.name], g.offset))
       else [])
      + Plan(grants[1..], shared)
  }

  function RestOfOpenFile(u: Upload, shared: Files): seq<Byte> {
    if u.currentFileBytesDone >= 0 && u.position.Some? && u.currentFileName in shared then
      Rest(shared[u.currentFileName], u.position.value)
    else []
  }

  /** What an upload in this state has still to send. */
  function Left(u: Upload, shared: Files): seq<Token> {
    Contents(RestOfOpenFile(u, shared)) + Plan(u.pending, shared)
  }

  predicate Active(u: Upload) {
    !u.flags.waitingOnLocal && !u.flags.aborted
  }

  /** The file system does what it is asked for. */
  predicate FileWorks(u: Upload, io: FileIO) {
    && (io.ReadIO? ==> io.count >= 0)
    && (io.OpenIO? && u.pending != [] ==> io.openOk && io.seekOk)
  }

  // ---------- One step ----------

  /** A step that sends nothing and does not ask for another one leaves the upload with no
      event to wait for, unless the session is over; this happens exactly when the session
      waits for its turn or is aborted, or when a file cannot be opened or read. */
  lemma StallsIff(u: Upload, shared: Files, io: FileIO)
    requires PossibleIO(u, shared, io) && !u.flags.waitingForSendToFinish
    ensures var r := UploadStep(u, shared, io);
            !r.again && r.sent == [] && !r.next.flags.waitingForSendToFinish <==>
              || !Active(u)
              || (io.ReadIO? && io.count < 0)
              || (io.OpenIO? && u.pending != [] && !io.openOk)
  {
    hide Chunk.Encode;
  }

  /** A session that waits or is aborted neither changes nor sends, and a read error aborts. */
  lemma IdleOrAborted(u: Upload, shared: Files, io: FileIO)
    requires PossibleIO(u, shared, io)
    ensures var r := UploadStep(u, shared, io);
            && (!Active(u) ==> r == UploadResult(u, [], false))
            && (Active(u) ==> (r.next.flags.aborted <==> io.ReadIO? && io.count < 0))
            && (r.next.flags.waitingOnLocal <==> u.flags.waitingOnLocal)
  {
  }

  /** Chunks go out in the mode that the peer asked for, if it is known, and hold eight
      kilobytes at most. */
  lemma SentInMode(u: Upload, shared: Files, io: FileIO)
    requires PossibleIO(u, shared, io)
    ensures var r := UploadStep(u, shared, io);
            forall m :: m in r.sent && m.FileData? ==>
              && |m.chunk.data| <= 8192
              && m.chunk.mm == if u.mungeMode == Chunk.MUNGE_MODE_XOR then Some(Chunk.MUNGE_MODE_XOR) else None
  {
    hide Chunk.FlipAll, Chunk.Checksum;
  }

  lemma ContentsConcat(a: seq<Byte>, b: seq<Byte>)
    ensures Contents(a + b) == Contents(a) + Contents(b)
  {
  }

  lemma {:induction false} MeaningConcat(a: seq<Message>, b: seq<Message>)
    ensures MeaningOfAll(a + b) == MeaningOfAll(a) + MeaningOfAll(b)
  {
    hide Meaning;
    if a == [] {
      assert a + b == b;
    } else {
      assert (a + b)[1..] == a[1..] + b;
      MeaningConcat(a[1..], b);
    }
  }

  lemma MeaningOfOne(m: Message)
    ensures MeaningOfAll([m]) == Meaning(m)
  {
    hide Meaning;
    assert [m][1..] == [];
  }

  /** What is read is taken from the front of the rest of the file. */
  lemma ReadConserves(u: Upload, shared: Files, io: FileIO)
    requires PossibleIO(u, shared, io) && FileWorks(u, io) && Active(u) && u.currentFileBytesDone >= 0
    ensures var r := UploadStep(u, shared, io);
            MeaningOfAll(r.sent) + Left(r.next, shared) == Left(u, shared)
  {
    hide Chunk.Encode, Chunk.Decode, Contents, Plan;
    var r := UploadStep(u, shared, io);
    if io.count > 0 {
      var file := shared[u.currentFileName];
      var data := file[u.position.value..u.position.value + io.count];
      Chunk.ReceiveAfterSend(data, u.mungeMode);
      MeaningOfOne(r.sent[0]);
      assert RestOfOpenFile(u, shared) == data + RestOfOpenFile(r.next, shared);
      ContentsConcat(data, RestOfOpenFile(r.next, shared));
    } else {
      assert RestOfOpenFile(u, shared) == [] == RestOfOpenFile(r.next, shared);
    }
  }

  /** A header is the next one that was planned, and its file is opened at its offset. */
  lemma OpenConserves(u: Upload, shared: Files, io: FileIO)
    requires PossibleIO(u, shared, io) && FileWorks(u, io) && Active(u) && u.currentFileBytesDone < 0
    ensures var r := UploadStep(u, shared, io);
            MeaningOfAll(r.sent) + Left(r.next, shared) == Left(u, shared)
  {
    hide Contents;
    var r := UploadStep(u, shared, io);
    assert RestOfOpenFile(u, shared) == [];
    NoContents();
    if u.pending != [] {
      MeaningOfOne(r.sent[0]);
    }
  }

  lemma NoContents()
    ensures Contents([]) == []
  {
  }

  /** What one step sends is taken from the front of what was left. */
  lemma StepConserves(u: Upload, shared: Files, io: FileIO)
    requires PossibleIO(u, shared, io) && FileWorks(u, io)
    ensures var r := UploadStep(u, shared, io);
            MeaningOfAll(r.sent) + Left(r.next, shared) == Left(u, shared)
  {
    hide Left;
    if !Active(u) {
      IdleOrAborted(u, shared, io);
    } else if u.currentFileBytesDone >= 0 {
      ReadConserves(u, shared, io);
    } else {
      OpenConserves(u, shared, io);
    }
  }

  // ---------- One call ----------

  /** No read and no open fails in a call. */
  ghost predicate RunWorks(u: Upload, shared: Files, ios: seq<FileIO>)
    requires UploadRun(u, shared, ios).Some?
  {
    ios != [] ==>
      var n := |ios| - 1;
      RunWorks(u, shared, ios[..n]) && FileWorks(UploadRun(u, shared, ios[..n]).value.next, ios[n])
  }

  function ChunksIn(messages: seq<Message>): nat {
    if messages == [] then 0
    else ChunksIn(messages[..|messages| - 1]) + if messages[|messages| - 1].FileData? then 1 else 0
  }

  lemma ChunkAdded(messages: seq<Message>, sent: seq<Message>)
    requires |sent| <= 1
    ensures ChunksIn(messages + sent) == ChunksIn(messages) + if sent != [] && sent[0].FileData? then 1 else 0
  {
    if sent == [] {
      assert messages + sent == messages;
    } else {
      assert (messages + sent)[..|messages|] == messages;
    }
  }

  lemma {:induction false} RunConserves(u: Upload, shared: Files, ios: seq<FileIO>)
    requires UploadRun(u, shared, ios).Some? && RunWorks(u, shared, ios)
    ensures var run := UploadRun(u, shared, ios).value;
            MeaningOfAll(run.sent) + Left(run.next, shared) == Left(u, shared)
  {
    hide UploadStep, PossibleIO, FileWorks, Left;
    if ios != [] {
      var n := |ios| - 1;
      RunConserves(u, shared, ios[..n]);
      var before := UploadRun(u, shared, ios[..n]).value;
      StepConserves(before.next, shared, ios[n]);
      MeaningConcat(before.sent, UploadStep(before.next, shared, ios[n]).sent);
    }
  }

  /** The session is over: no file is open and none is to come. */
  predicate Finished(u: Upload) {
    u.flags.waitingForSendToFinish && u.currentFileBytesDone < 0 && u.pending == []
  }

  lemma StepSends(u: Upload, shared: Files, io: FileIO)
    requires PossibleIO(u, shared, io) && FileWorks(u, io) && Active(u)
    ensures var r := UploadStep(u, shared, io);
            && Active(r.next) && |r.sent| <= 1
            && (r.again ==> r.sent == [] || r.sent[0].FileHeader?)
            && (!r.again ==> (r.sent != [] && r.sent[0].FileData?) || (r.sent == [] && Finished(r.next)))
  {
    hide Chunk.Encode;
  }

  /** A call in which no file fails ends with a chunk, or with the end of the session. */
  lemma {:induction false} RunSends(u: Upload, shared: Files, ios: seq<FileIO>)
    requires UploadRun(u, shared, ios).Some? && RunWorks(u, shared, ios) && Active(u)
    ensures var run := UploadRun(u, shared, ios).value;
            && Active(run.next)
            && (run.again ==> ChunksIn(run.sent) == 0)
            && (!run.again ==> ChunksIn(run.sent) == 1 || (ChunksIn(run.sent) == 0 && Finished(run.next)))
  {
    hide UploadStep, PossibleIO, FileWorks, Active, Finished;
    if ios != [] {
      var n := |ios| - 1;
      RunSends(u, shared, ios[..n]);
      var before := UploadRun(u, shared, ios[..n]).value;
      StepSends(before.next, shared, ios[n]);
      ChunkAdded(before.sent, UploadStep(before.next, shared, ios[n]).sent);
    }
  }

  lemma ChunkIsNotEmpty(u: Upload, shared: Files, io: FileIO)
    requires PossibleIO(u, shared, io) && FileWorks(u, io) && Active(u)
    ensures var r := UploadStep(u, shared, io);
            r.sent != [] ==> |MeaningOfAll(r.sent)| > 0
  {
    hide Chunk.Encode, Chunk.Decode;
    var r := UploadStep(u, shared, io);
    if r.sent != [] {
      MeaningOfOne(r.sent[0]);
      if u.currentFileBytesDone >= 0 {
        Chunk.ReceiveAfterSend(shared[u.currentFileName][u.position.value..u.position.value + io.count], u.mungeMode);
      }
    }
  }

  /** Each call takes something from what is left, until nothing is. */
  lemma RunShrinks(u: Upload, shared: Files, ios: seq<FileIO>)
    requires UploadRun(u, shared, ios).Some? && RunWorks(u, shared, ios) && Active(u)
    requires !UploadRun(u, shared, ios).value.again
    ensures var next := UploadRun(u, shared, ios).value.next;
            Finished(next) || |Left(next, shared)| < |Left(u, shared)|
  {
    hide UploadStep, PossibleIO, FileWorks, Active, Finished, Left;
    var n := |ios| - 1;
    var before := UploadRun(u, shared, ios[..n]).value;
    RunConserves(u, shared, ios[..n]);
    RunSends(u, shared, ios[..n]);
    StepSends(before.next, shared, ios[n]);
    StepConserves(before.next, shared, ios[n]);
    ChunkIsNotEmpty(before.next, shared, ios[n]);
  }

  lemma FinishedIsDone(u: Upload, shared: Files)
    requires Finished(u)
    ensures Left(u, shared) == []
  {
  }

  // ---------- All calls ----------

  /** Complete calls, one after the other: the first, and one for each time the messages
      of the last have left. */
  function Calls(u: Upload, shared: Files, calls: seq<seq<FileIO>>): Option<UploadResult> {
    if calls == [] then Some(UploadResult(u, [], false))
    else
      var n := |calls| - 1;
      var before := Calls(u, shared, calls[..n]);
      if before.None? then None
      else
        var run := UploadRun(before.value.next, shared, calls[n]);
        if run.None? || run.value.again then None
        else Some(UploadResult(run.value.next, before.value.sent + run.value.sent, false))
  }

  ghost predicate CallsWork(u: Upload, shared: Files, calls: seq<seq<FileIO>>)
    requires Calls(u, shared, calls).Some?
  {
    calls != [] ==>
      var n := |calls| - 1;
      CallsWork(u, shared, calls[..n]) && RunWorks(Calls(u, shared, calls[..n]).value.next, shared, calls[n])
  }

  lemma {:induction false} CallsConserve(u: Upload, shared: Files, calls: seq<seq<FileIO>>)
    requires Calls(u, shared, calls).Some? && CallsWork(u, shared, calls)
    ensures var all := Calls(u, shared, calls).value;
            MeaningOfAll(all.sent) + Left(all.next, shared) == Left(u, shared)
  {
    hide UploadRun, RunWorks, Left;
    if calls != [] {
      var n := |calls| - 1;
      CallsConserve(u, shared, calls[..n]);
      var before := Calls(u, shared, calls[..n]).value;
      RunConserves(before.next, shared, calls[n]);
      MeaningConcat(before.sent, UploadRun(before.next, shared, calls[n]).value.sent);
    }
  }

  lemma {:induction false} CallsFinish(u: Upload, shared: Files, calls: seq<seq<FileIO>>)
    requires Calls(u, shared, calls).Some? && CallsWork(u, shared, calls) && Active(u)
    ensures var next := Calls(u, shared, calls).value.next;
            && Active(next)
            && (Finished(next) || |Left(next, shared)| + |calls| <= |Left(u, shared)|)
  {
    hide UploadRun, RunWorks, Left, Active, Finished;
    if calls != [] {
      var n := |calls| - 1;
      CallsFinish(u, shared, calls[..n]);
      var before := Calls(u, shared, calls[..n]).value;
      RunSends(before.next, shared, calls[n]);
      RunShrinks(before.next, shared, calls[n]);
      if Finished(before.next) {
        FinishedIsDone(before.next, shared);
      }
    }
  }

  lemma BetweenFilesIsPlanned(u: Upload, shared: Files)
    requires u.currentFileBytesDone < 0
    ensures Left(u, shared) == Plan(u.pending, shared)
  {
    hide Plan;
    assert RestOfOpenFile(u, shared) == [];
    NoContents();
  }

  /** However the reads divide the files, as long as none of them fails: what an upload has
      sent is always the beginning of what its grants ask for, it is all of it exactly when
      nothing is left, and it comes to that with no more calls than there are files and
      bytes, and one. */
  lemma WholePlanIsSent(u: Upload, shared: Files, calls: seq<seq<FileIO>>)
    requires Active(u) && u.currentFileBytesDone < 0
    requires Calls(u, shared, calls).Some? && CallsWork(u, shared, calls)
    ensures var all := Calls(u, shared, calls).value;
            var plan := Plan(u.pending, shared);
            && MeaningOfAll(all.sent) <= plan
            && (MeaningOfAll(all.sent) == plan <==> Left(all.next, shared) == [])
            && (|calls| > |plan| ==> Finished(all.next) && MeaningOfAll(all.sent) == plan)
  {
    hide *;
    CallsConserve(u, shared, calls);
    CallsFinish(u, shared, calls);
    BetweenFilesIsPlanned(u, shared);
    var all := Calls(u, shared, calls).value;
    if Finished(all.next) {
      FinishedIsDone(all.next, shared);
    }
  }

  // ---------- The sort key ----------

  /** The open file has been announced with its size and is read where it is counted. */
  predicate OpenInStep(u: Upload, shared: Files) {
    if u.currentFileBytesDone < 0 then u.currentFileSize == u.currentFileBytesDone == -1
    else
      && u.currentFileName in shared && u.currentFileSize == |shared[u.currentFileName]|
      && u.position == Some(u.currentFileBytesDone)
  }

  /** What is skipped at the beginnings of the files that are still to come. */
  function Skipped(pending: seq<Grant>, shared: Files): nat {
    if pending == [] then 0
    else
      var g := pending[0];
      (if g.name in shared then |shared[g.name]| - |Rest(shared[g.name], if g.offset >= 0 then g.offset else 0)| else 0)
      + Skipped(pending[1..], shared)
  }

  function BytesIn(tokens: seq<Token>): nat {
    if tokens == [] then 0 else (if tokens[0].Content? then 1 else 0) + BytesIn(tokens[1..])
  }

  lemma {:induction false} BytesInConcat(a: seq<Token>, b: seq<Token>)
    ensures BytesIn(a + b) == BytesIn(a) + BytesIn(b)
  {
    if a == [] {
      assert a + b == b;
    } else {
      assert (a + b)[1..] == a[1..] + b;
      BytesInConcat(a[1..], b);
    }
  }

  lemma {:induction false} BytesInContents(data: seq<Byte>)
    ensures BytesIn(Contents(data)) == |data|
  {
    if data != [] {
      assert Contents(data)[1..] == Contents(data[1..]);
      BytesInContents(data[1..]);
    }
  }

  lemma {:induction false} BytesInPlan(pending: seq<Grant>, shared: Files)
    requires forall i :: 0 <= i < |pending| ==> pending[i].offset >= 0
    ensures SharedSizes(pending, shared) == BytesIn(Plan(pending, shared)) + Skipped(pending, shared)
  {
    if pending != [] {
      hide Contents;
      BytesInPlan(pending[1..], shared);
      var g := pending[0];
      if g.name in shared {
        var start, data := Start(g.name, |shared[g.name]|, g.offset), Contents(Rest(shared[g.name], g.offset));
        BytesInConcat([start] + data, Plan(pending[1..], shared));
        assert ([start] + data)[1..] == data;
        BytesInContents(Rest(shared[g.name], g.offset));
      } else {
        assert [] + Plan(pending[1..], shared) == Plan(pending[1..], shared);
      }
    }
  }

  /** The scheduler's sort key is what is still to be sent, where the files that have not
      been begun are counted as if they were sent from their first byte. */
  lemma BytesLeftIsWhatIsLeft(u: Upload, shared: Files)
    requires Steady(u) && OpenInStep(u, shared)
    ensures BytesLeft(u, shared) == BytesIn(Left(u, shared)) + Skipped(u.pending, shared)
  {
    hide Contents, Plan, Skipped;
    BytesInContents(RestOfOpenFile(u, shared));
    BytesInConcat(Contents(RestOfOpenFile(u, shared)), Plan(u.pending, shared));
    BytesInPlan(u.pending, shared);
  }

  lemma StaysInStep(u: Upload, shared: Files, io: FileIO)
    requires PossibleIO(u, shared, io) && FileWorks(u, io) && Steady(u) && OpenInStep(u, shared)
    ensures var next := UploadStep(u, shared, io).next; Steady(next) && OpenInStep(next, shared)
  {
    hide Chunk.Encode;
  }

  /** The key falls by exactly the bytes that a step sends, and by those that are skipped
      when it opens a file. */
  lemma BytesLeftFalls(u: Upload, shared: Files, io: FileIO)
    requires PossibleIO(u, shared, io) && FileWorks(u, io) && Steady(u) && OpenInStep(u, shared)
    ensures var r := UploadStep(u, shared, io);
            BytesLeft(u, shared) - BytesLeft(r.next, shared) ==
              BytesIn(MeaningOfAll(r.sent)) + Skipped(u.pending, shared) - Skipped(r.next.pending, shared)
  {
    hide UploadStep, PossibleIO, FileWorks, Steady, OpenInStep, Left, BytesLeft, Skipped, BytesIn;
    var r := UploadStep(u, shared, io);
    StaysInStep(u, shared, io);
    BytesLeftIsWhatIsLeft(u, shared);
    BytesLeftIsWhatIsLeft(r.next, shared);
    StepConserves(u, shared, io);
    BytesInConcat(MeaningOfAll(r.sent), Left(r.next, shared));
  }
}

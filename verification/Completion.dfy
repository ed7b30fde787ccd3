/** What becomes of every requested file: through all disconnections and restarts it is
    still requested, or it is completely there. */
module Completion {
  import opened Words
  import opened Wrappers
  import opened Transfer
  import opened Session
  import Chunk

  /** A generated name is not the name of another file that is requested. */
  predicate NoClash(s: System, e: Event) {
    e.DeliverHeader? && e.newName.Some? && s.channel != [] && s.channel[0].FileHeader?
      && e.newName.value != s.channel[0].name
    ==> e.newName.value !in Requests(s.down)
  }

  predicate Complete(s: System, shared: Files, f: Name) {
    && f in s.origin && s.origin[f] == f
    && f in s.down.disk && f in shared && s.down.disk[f] == shared[f]
  }

  predicate RequestedOrComplete(requested: set<Name>, shared: Files, s: System) {
    forall f :: f in requested ==> f in s.down.origFileSet || Complete(s, shared, f)
  }

  /** How the sets, the count of files and the current name hang together. */
  predicate TidyDownload(d: Download) {
    && d.fileSet <= d.origFileSet && "" !in d.origFileSet
    && (d.flags.connected ==>
          && |d.fileSet| + d.currentFileIndex == d.origFileSetSize
          && (if d.currentFileBytesDone < 0 then d.currentFileName == "" else d.currentFileName !in d.fileSet))
    && (!d.flags.connected && !d.flags.finished ==>
          && d.currentFileName == "" && d.fileSet == d.origFileSet
          && d.currentFileIndex == 0 && d.origFileSetSize == |d.fileSet|
          && (d.flags.uploadSession <==> d.origFileSet == {}))
  }

  predicate Tidy(requested: set<Name>, s: System) {
    && TidyDownload(s.down) && s.down.origFileSet <= requested
    && (forall f :: f in s.origin ==> s.origin[f] in requested)
    && (forall f :: f in s.origin && f in s.down.origFileSet ==> s.origin[f] == f)
  }

  // ---------- The handlers ----------

  lemma AbortIsTidy(d: Download, error: bool, force: bool)
    requires d.fileSet <= d.origFileSet && "" !in d.origFileSet
    ensures var a := Abort(d, error, force);
            && TidyDownload(a) && !a.flags.connected && a.disk == d.disk && a.origFileSet == d.origFileSet
            && (!a.flags.finished <==> error && !force && d.flags.autoRestart)
            && (!a.flags.finished ==> a.flags.waitingOnLocal && !a.flags.errorOccurred && !a.flags.autoRestart)
            && (a.flags.finished ==> a.flags.errorOccurred == error)
  {
  }

  lemma SmallerBy(s: set<Name>, f: Name)
    requires f in s
    ensures |s - {f}| == |s| - 1
  {
  }

  /** A header takes at most the name of the file before it from the requests. */
  lemma HeaderIsTidy(d: Download, h: Message, newName: Option<Name>, openOk: bool)
    requires TidyDownload(d) && d.flags.connected && !d.flags.uploadSession
    requires h.FileHeader? && PossibleNewName(d.disk, h.name, newName)
    requires newName.Some? && newName.value != h.name ==> newName.value !in Requests(d)
    ensures var next := OnHeader(d, h.name, h.size, h.startOffset, newName, openOk);
            && TidyDownload(next) && next.origFileSet <= d.origFileSet
            && (forall f :: f in d.origFileSet && f !in next.origFileSet ==> f == d.currentFileName)
            && (next.flags.connected ==>
                  && h.name in d.fileSet && d.currentFileName !in next.origFileSet
                  && next.currentFileBytesDone >= 0
                  && (next.currentFileName == h.name || next.currentFileName !in next.origFileSet))
            && (h.name !in d.fileSet ==> !next.flags.connected)
  {
    hide Abort;
    var startByte := if h.startOffset.Some? && h.startOffset.value > 0 then h.startOffset.value else 0;
    var append := Appends(d.disk, h.name, startByte);
    var named := d.(currentFileName := h.name, currentFileSize := h.size);
    if h.name !in d.fileSet {
      AbortIsTidy(named, true, false);
    } else {
      SmallerBy(d.fileSet, h.name);
      var listed := named.(fileSet := d.fileSet - {h.name}, origFileSet := d.origFileSet - {d.currentFileName});
      assert listed.fileSet <= listed.origFileSet by {
        assert d.currentFileName !in d.fileSet;
      }
      AbortIsTidy(listed, true, false);
      AbortIsTidy(listed.(openFile := None), true, false);
    }
  }

  /** A chunk takes the name of its file from the requests when it is the last one. */
  lemma DataIsTidy(d: Download, chunk: Chunk.DataMessage, written: nat)
    requires TidyDownload(d) && d.flags.connected && !d.flags.uploadSession && d.currentFileBytesDone >= 0
    ensures var next := OnData(d, chunk, written);
            && TidyDownload(next) && next.origFileSet <= d.origFileSet
            && (forall f :: f in d.origFileSet && f !in next.origFileSet ==>
                  && f == d.currentFileName && next.flags.connected && next.currentFileName == f
                  && next.currentFileBytesDone >= next.currentFileSize)
            && (next.flags.connected ==> next.flags.autoRestart)
  {
    hide Chunk.Decode;
    AbortIsTidy(d, true, false);
    var received := Chunk.Decode(chunk);
    if received.Some? && d.openFile.Some? && d.openFile.value in d.disk && written < |received.value| {
      var target := d.openFile.value;
      AbortIsTidy(d.(disk := d.disk[target := d.disk[target] + received.value[..written]]), true, false);
    }
  }

  /** A header is accepted if and only if its file is still requested on this connection, is
      continued or gets a name, and can be opened; every other header aborts the session. */
  lemma HeaderAcceptedIff(d: Download, h: Message, newName: Option<Name>, openOk: bool)
    requires d.flags.connected && h.FileHeader?
    ensures var next := OnHeader(d, h.name, h.size, h.startOffset, newName, openOk);
            && (next.flags.connected <==>
                  && !d.flags.uploadSession && h.name in d.fileSet && openOk
                  && (newName.Some? || Appends(d.disk, h.name, Offset(h.startOffset))))
            && (!next.flags.connected ==> next.flags.finished || next.flags.waitingOnLocal)
            && (next.flags.finished ==> next.flags.errorOccurred || d.flags.finished)
  {
  }

  /** A chunk is accepted if and only if it decodes, there is a file to write it to, and it
      is written whole. What was written stays there in any case, and nothing else. */
  lemma DataAcceptedIff(d: Download, chunk: Chunk.DataMessage, written: nat)
    requires d.flags.connected && !d.flags.uploadSession && d.openFile.Some? && d.openFile.value in d.disk
    ensures var next, data, target := OnData(d, chunk, written), Chunk.Decode(chunk), d.openFile.value;
            && (next.flags.connected <==> data.Some? && |data.value| <= written)
            && (data.None? ==> next.disk == d.disk)
            && (data.Some? ==>
                  next.disk == d.disk[target := d.disk[target] + data.value[..Least(written, |data.value|)]])
            && (!next.flags.connected ==> next.flags.finished || next.flags.waitingOnLocal)
            && (next.flags.finished ==> next.flags.errorOccurred || d.flags.finished)
  {
    hide Chunk.Decode;
    var data := Chunk.Decode(chunk);
    if data.Some? {
      assert data.value[..|data.value|] == data.value;
    }
  }

  function Least(a: nat, b: nat): nat {
    if a < b then a else b
  }

  // ---------- Steps ----------

  lemma CompleteStays(s: System, next: System, shared: Files, bytesFromBack: int, e: Event, f: Name)
    requires Step(s, shared, bytesFromBack, e) == Some(next) && Complete(s, shared, f)
    requires WrittenArePrefixes(shared, next.down.disk, next.origin)
    requires f in next.origin && next.origin[f] == f
    ensures Complete(next, shared, f)
  {
    hide Step;
    StepsOnlyAppend(s, shared, bytesFromBack, e);
  }

  lemma KeepRequests(requested: set<Name>, shared: Files, s: System, next: System, bytesFromBack: int, e: Event)
    requires Step(s, shared, bytesFromBack, e) == Some(next) && RequestedOrComplete(requested, shared, s)
    requires WrittenArePrefixes(shared, next.down.disk, next.origin)
    requires next.down.origFileSet == s.down.origFileSet && next.origin == s.origin
    ensures RequestedOrComplete(requested, shared, next)
  {
    hide Step, Complete;
    forall f | f in requested && f !in next.down.origFileSet ensures Complete(next, shared, f) {
      assert f in s.origin && s.origin[f] == f by { CompleteMeans(s, shared, f); }
      CompleteStays(s, next, shared, bytesFromBack, e, f);
    }
  }

  lemma CompleteMeans(s: System, shared: Files, f: Name)
    requires Complete(s, shared, f)
    ensures f in s.origin && s.origin[f] == f && f in s.down.disk
  {
  }

  /** Everything a step keeps. */
  ghost predicate Kept(requested: set<Name>, shared: Files, bytesFromBack: int, s: System) {
    Inv(shared, bytesFromBack, s) && Tidy(requested, s) && RequestedOrComplete(requested, shared, s)
  }

  /** The file that a header or its last byte ends is the shared file. */
  lemma EndedIsComplete(s: System, shared: Files, bytesFromBack: int, f: Name)
    requires Inv(shared, bytesFromBack, s) && s.down.flags.connected && s.down.currentFileBytesDone >= 0
    requires f == s.down.currentFileName && f in s.origin && s.origin[f] == f
    requires || s.down.currentFileBytesDone >= s.down.currentFileSize
             || (s.channel != [] && s.channel[0].FileHeader?)
    ensures Complete(s, shared, f)
  {
    hide Chunk.Decode, Headers, AllContinuable;
    assert |s.down.disk[f]| == |shared[f]|;
  }

  /** The open file is recorded as a copy of something. */
  lemma OpenHasOrigin(shared: Files, bytesFromBack: int, s: System)
    requires Inv(shared, bytesFromBack, s) && s.down.flags.connected && s.down.currentFileBytesDone >= 0
    ensures s.down.currentFileName in s.origin
  {
    hide Stream, AllContinuable, WrittenArePrefixes, RequestedArePrefixes;
  }

  lemma HeaderKeepsTidy(requested: set<Name>, shared: Files, bytesFromBack: int, s: System, next: System, e: Event)
    requires Tidy(requested, s) && s.down.flags.connected && !s.down.flags.uploadSession
    requires e.DeliverHeader? && NoClash(s, e) && Step(s, shared, bytesFromBack, e) == Some(next)
    ensures Tidy(requested, next)
    ensures forall f :: f in s.down.origFileSet && f !in next.down.origFileSet ==> f == s.down.currentFileName
  {
    hide OnHeader, TidyDownload, UploadStep, PossibleIO, Granted, DistinctNames;
    HeaderIsTidy(s.down, s.channel[0], e.newName, e.openOk);
    FileSetIncluded(s.down);
  }

  /** A header gives no name on disk to another file. */
  lemma HeaderKeepsCopy(s: System, next: System, shared: Files, bytesFromBack: int, e: Event, f: Name)
    requires e.DeliverHeader? && Step(s, shared, bytesFromBack, e) == Some(next) && s.down.flags.connected
    requires f in s.origin && s.origin[f] == f && f in s.down.disk
    ensures f in next.origin && next.origin[f] == f
  {
    hide OnHeader, UploadStep, PossibleIO, Granted, DistinctNames;
    AcceptedHeader(s.down, s.channel[0], e.newName, e.openOk);
  }

  lemma HeaderKeeps(requested: set<Name>, shared: Files, bytesFromBack: int, s: System, next: System, e: Event)
    requires Kept(requested, shared, bytesFromBack, s) && e.DeliverHeader? && NoClash(s, e)
    requires Step(s, shared, bytesFromBack, e) == Some(next) && Inv(shared, bytesFromBack, next)
    ensures Tidy(requested, next) && RequestedOrComplete(requested, shared, next)
  {
    hide Inv, Step, Complete, TidyDownload;
    HeaderFinds(shared, bytesFromBack, s, next, e);
    HeaderKeepsTidy(requested, shared, bytesFromBack, s, next, e);
    InvMeans(shared, bytesFromBack, next);
    forall f | f in requested && f !in next.down.origFileSet ensures Complete(next, shared, f) {
      if f in s.down.origFileSet {
        NamedIsOpen(s.down, f);
        OpenHasOrigin(shared, bytesFromBack, s);
        EndedIsComplete(s, shared, bytesFromBack, f);
      }
      CompleteMeans(s, shared, f);
      HeaderKeepsCopy(s, next, shared, bytesFromBack, e, f);
      CompleteStays(s, next, shared, bytesFromBack, e, f);
    }
  }

  lemma HeaderFinds(shared: Files, bytesFromBack: int, s: System, next: System, e: Event)
    requires Inv(shared, bytesFromBack, s) && e.DeliverHeader? && Step(s, shared, bytesFromBack, e) == Some(next)
    ensures s.down.flags.connected && !s.down.flags.uploadSession && s.channel != [] && s.channel[0].FileHeader?
  {
    hide Stream, AllContinuable, WrittenArePrefixes, RequestedArePrefixes, OnHeader, OpenFileInStep;
  }

  lemma FileSetIncluded(d: Download)
    requires TidyDownload(d)
    ensures d.fileSet <= d.origFileSet
  {
  }

  /** Between connecting and the first header there is no current name. */
  lemma NamedIsOpen(d: Download, f: Name)
    requires TidyDownload(d) && d.flags.connected && f == d.currentFileName && f in d.origFileSet
    ensures d.currentFileBytesDone >= 0
  {
  }

  lemma DataCounts(shared: Files, bytesFromBack: int, s: System, next: System, e: Event)
    requires Inv(shared, bytesFromBack, s) && e.DeliverData? && s.down.currentFileBytesDone >= 0
    requires Step(s, shared, bytesFromBack, e) == Some(next) && next.down.flags.connected
    ensures next.down.currentFileBytesDone >= 0
  {
    hide AllContinuable, WrittenArePrefixes, RequestedArePrefixes, Chunk.Decode, UploadStep, PossibleIO, Granted,
      DistinctNames, Level;
  }

  lemma DataKeepsTidy(requested: set<Name>, shared: Files, bytesFromBack: int, s: System, next: System, e: Event)
    requires Tidy(requested, s) && s.down.flags.connected && !s.down.flags.uploadSession
    requires s.down.currentFileBytesDone >= 0
    requires e.DeliverData? && Step(s, shared, bytesFromBack, e) == Some(next)
    ensures Tidy(requested, next) && next.origin == s.origin
    ensures forall f :: f in s.down.origFileSet && f !in next.down.origFileSet ==>
              && f == s.down.currentFileName && next.down.flags.connected && next.down.currentFileName == f
              && next.down.currentFileBytesDone >= next.down.currentFileSize
  {
    hide OnData, TidyDownload, UploadStep, PossibleIO, Granted, DistinctNames;
    DataIsTidy(s.down, s.channel[0].chunk, e.written);
  }

  lemma DataFinds(shared: Files, bytesFromBack: int, s: System, next: System, e: Event)
    requires Inv(shared, bytesFromBack, s) && e.DeliverData? && Step(s, shared, bytesFromBack, e) == Some(next)
    ensures s.down.flags.connected && !s.down.flags.uploadSession && s.down.currentFileBytesDone >= 0
  {
    hide AllContinuable, WrittenArePrefixes, RequestedArePrefixes, OnData, OpenFileInStep, Chunk.Decode,
      UploadStep, PossibleIO, Granted, DistinctNames, Level;
  }

  lemma DataKeeps(requested: set<Name>, shared: Files, bytesFromBack: int, s: System, next: System, e: Event)
    requires Kept(requested, shared, bytesFromBack, s) && e.DeliverData?
    requires Step(s, shared, bytesFromBack, e) == Some(next) && Inv(shared, bytesFromBack, next)
    ensures Tidy(requested, next) && RequestedOrComplete(requested, shared, next)
  {
    hide Inv, Step, Complete, TidyDownload;
    DataFinds(shared, bytesFromBack, s, next, e);
    DataKeepsTidy(requested, shared, bytesFromBack, s, next, e);
    InvMeans(shared, bytesFromBack, next);
    forall f | f in requested && f !in next.down.origFileSet ensures Complete(next, shared, f) {
      if f in s.down.origFileSet {
        OpenHasOrigin(shared, bytesFromBack, s);
        DataCounts(shared, bytesFromBack, s, next, e);
        EndedIsComplete(next, shared, bytesFromBack, f);
      } else {
        CompleteMeans(s, shared, f);
        CompleteStays(s, next, shared, bytesFromBack, e, f);
      }
    }
  }

  lemma InvMeans(shared: Files, bytesFromBack: int, s: System)
    requires Inv(shared, bytesFromBack, s)
    ensures WrittenArePrefixes(shared, s.down.disk, s.origin)
  {
  }

  lemma DropIsTidy(d: Download)
    requires TidyDownload(d)
    ensures TidyDownload(Disconnected(d)) && !Disconnected(d).flags.connected
    ensures TidyDownload(Restart(d)) && !Restart(d).flags.connected
  {
  }

  lemma OtherIsTidy(s: System, next: System, shared: Files, bytesFromBack: int, e: Event)
    requires Step(s, shared, bytesFromBack, e) == Some(next) && TidyDownload(s.down)
    requires !e.DeliverHeader? && !e.DeliverData?
    ensures TidyDownload(next.down) && next.down.origFileSet == s.down.origFileSet && next.origin == s.origin
  {
    hide PossibleIO, UploadStep, Granted, DistinctNames;
    match e
    case Disconnect => DropIsTidy(s.down);
    case UserAbort => AbortIsTidy(s.down, true, true);
    case UserRestart => DropIsTidy(s.down);
    case _ =>
  }

  lemma StepKeeps(requested: set<Name>, shared: Files, bytesFromBack: int, s: System, e: Event)
    requires Kept(requested, shared, bytesFromBack, s)
    requires Step(s, shared, bytesFromBack, e).Some? && Assumed(s, shared, bytesFromBack, e) && NoClash(s, e)
    ensures Kept(requested, shared, bytesFromBack, Step(s, shared, bytesFromBack, e).value)
  {
    hide Inv, RequestedOrComplete, Step, TidyDownload, Assumed, NoClash;
    var next := Step(s, shared, bytesFromBack, e).value;
    StepKeepsInv(s, shared, bytesFromBack, e);
    if e.DeliverHeader? {
      HeaderKeeps(requested, shared, bytesFromBack, s, next, e);
    } else if e.DeliverData? {
      DataKeeps(requested, shared, bytesFromBack, s, next, e);
    } else {
      OtherIsTidy(s, next, shared, bytesFromBack, e);
      InvMeans(shared, bytesFromBack, next);
      KeepRequests(requested, shared, s, next, bytesFromBack, e);
    }
  }

  /** A dropped connection counts as an error exactly when something is left to fetch, be
      it of the open file or of the files after it; the session then waits again exactly
      when a chunk has been accepted since it last came into being. */
  lemma DropRestartsIff(d: Download)
    requires TidyDownload(d) && d.flags.connected
    ensures var dropped := Disconnected(d);
            var unfinished := d.currentFileBytesDone < d.currentFileSize || d.fileSet != {};
            && (dropped.flags.waitingOnLocal <==> unfinished && d.flags.autoRestart)
            && (dropped.flags.finished <==> !dropped.flags.waitingOnLocal)
            && (dropped.flags.finished ==> (dropped.flags.errorOccurred <==> d.flags.errorOccurred || unfinished))
            && !dropped.flags.connected && dropped.openFile.None?
            && dropped.disk == d.disk && dropped.origFileSet == d.origFileSet
  {
    assert d.fileSet == {} <==> |d.fileSet| == 0;
  }

  // ---------- Whole runs ----------

  ghost predicate NeverClashes(s: System, shared: Files, bytesFromBack: int, events: seq<Event>)
    decreases |events|
  {
    events != [] ==>
      && NoClash(s, events[0])
      && (Step(s, shared, bytesFromBack, events[0]).Some? ==>
            NeverClashes(Step(s, shared, bytesFromBack, events[0]).value, shared, bytesFromBack, events[1..]))
  }

  lemma {:induction false} RunKeeps(requested: set<Name>, shared: Files, bytesFromBack: int, s: System,
                                    events: seq<Event>)
    requires Kept(requested, shared, bytesFromBack, s)
    requires After(s, shared, bytesFromBack, events).Some? && AllAssumed(s, shared, bytesFromBack, events)
    requires NeverClashes(s, shared, bytesFromBack, events)
    ensures Kept(requested, shared, bytesFromBack, After(s, shared, bytesFromBack, events).value)
    decreases |events|
  {
    hide Step, Kept, Assumed, NoClash;
    if events != [] {
      StepKeeps(requested, shared, bytesFromBack, s, events[0]);
      RunKeeps(requested, shared, bytesFromBack, Step(s, shared, bytesFromBack, events[0]).value, events[1..]);
    }
  }

  lemma InitialIsKept(requested: set<Name>, shared: Files, bytesFromBack: int, disk: Files)
    requires "" !in requested
    requires bytesFromBack > 0 ==>
      forall f :: f in requested && f in disk && f in shared ==> disk[f] <= shared[f]
    ensures Kept(requested, shared, bytesFromBack, Initial(disk, requested))
  {
  }

  /** In every run without name clashes, each requested file is requested still, or it is
      on disk and equal to the shared file; and a session that waits for its next
      connection asks for exactly the files that are not complete in that sense. */
  lemma NothingIsForgotten(shared: Files, bytesFromBack: int, disk: Files, requested: set<Name>, events: seq<Event>)
    requires "" !in requested
    requires bytesFromBack > 0 ==>
      forall f :: f in requested && f in disk && f in shared ==> disk[f] <= shared[f]
    requires var s := Initial(disk, requested);
      && After(s, shared, bytesFromBack, events).Some? && AllAssumed(s, shared, bytesFromBack, events)
      && NeverClashes(s, shared, bytesFromBack, events)
    ensures var s := After(Initial(disk, requested), shared, bytesFromBack, events).value;
      && (forall f :: f in requested ==>
            || f in Requests(s.down)
            || (f in s.down.disk && f in shared && s.down.disk[f] == shared[f]))
      && (!s.down.flags.connected && !s.down.flags.finished ==>
            && s.down.fileSet == Requests(s.down) && s.down.currentFileName == ""
            && (s.down.flags.uploadSession <==> s.down.fileSet == {}))
      && (forall f :: f in s.origin ==> s.origin[f] in requested)
  {
    hide Step, Assumed, NoClash, Inv;
    InitialIsKept(requested, shared, bytesFromBack, disk);
    RunKeeps(requested, shared, bytesFromBack, Initial(disk, requested), events);
  }

  /** Why names must not clash: a file a that was written whole under the name of a request b
      takes b out of the requests, while a, which was renamed, is requested again. */
  lemma ClashForgets(shared: Files, d: Download, a: Name, b: Name)
    requires d.flags.connected && !d.flags.uploadSession && a in d.fileSet && a in d.origFileSet && b in d.origFileSet
    requires a != b && d.currentFileName != a && d.currentFileName != b
    requires a in d.disk && b !in d.disk && a in shared && b in shared && 0 < |shared[a]| && shared[a] != shared[b]
    ensures PossibleNewName(d.disk, a, Some(b))
    ensures var begun := OnHeader(d, a, |shared[a]|, None, Some(b), true);
            var written := OnData(begun, Chunk.Encode(shared[a], Chunk.MUNGE_MODE_NONE), |shared[a]|);
            var restarted := Restart(written);
            && b !in restarted.fileSet && a in restarted.fileSet
            && b in restarted.disk && restarted.disk[b] != shared[b]
  {
    hide Chunk.Decode, Chunk.Encode, OnHeader;
    RenamedHeader(d, a, |shared[a]|, b);
    Chunk.ReceiveAfterSend(shared[a], Chunk.MUNGE_MODE_NONE);
    assert [] + shared[a] == shared[a];
  }
}

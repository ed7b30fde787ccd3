/** The transfer session object: the methods that change its fields, each tied to
    the function that Session reasons about. */
module TransferSession {
  import opened Words
  import opened Wrappers
  import opened Transfer
  import Chunk

  function DataMessages(messages: seq<Message>): nat {
    if messages == [] then 0
    else (if messages[0].FileData? then 1 else 0) + DataMessages(messages[1..])
  }

  lemma {:induction false} DataMessagesConcat(a: seq<Message>, b: seq<Message>)
    ensures DataMessages(a + b) == DataMessages(a) + DataMessages(b)
  {
    if a == [] {
      assert a + b == b;
    } else {
      assert (a + b)[1..] == a[1..] + b;
      DataMessagesConcat(a[1..], b);
    }
  }

  class UploadSession {
    const shared: Files
    var flags: UploadFlags
    var pending: seq<Grant>
    var currentFileName: Name
    var currentFileBytesDone: int
    var currentFileSize: int
    var position: Option<nat>
    var mungeMode: int
    /** Everything handed to the transceiver thread. */
    var outgoing: seq<Message>

    constructor (shared: Files, grants: seq<Grant>, mungeMode: int)
      ensures this.shared == shared && outgoing == []
      ensures State() == Upload(grants, "", -1, -1, None, mungeMode, UploadFlags(false, false, false))
    {
      this.shared := shared;
      flags := UploadFlags(false, false, false);
      pending, currentFileName, this.mungeMode, outgoing := grants, "", mungeMode, [];
      currentFileBytesDone, currentFileSize, position := -1, -1, None;
    }

    ghost function State(): Upload
      reads this
    {
      Upload(pending, currentFileName, currentFileBytesDone, currentFileSize, position, mungeMode, flags)
    }

    /** BFile::Read into the scratch buffer. */
    method ReadChunk(scratch: array<Byte>) returns (count: int)
      requires scratch.Length == CHUNK_SIZE && currentFileBytesDone >= 0
      modifies scratch
      ensures PossibleIO(State(), shared, ReadIO(count))
      ensures count > 0 ==>
        scratch[..count] == shared[currentFileName][position.value..position.value + count]
    {
      count := -1;
      if position.Some? && currentFileName in shared {
        var content := shared[currentFileName];
        var left := |content| - position.value;
        var wish: int := *;
        if wish <= CHUNK_SIZE && wish <= left && (wish == 0 ==> left <= 0) {
          count := wish;
        } else if left <= 0 {
          count := 0;
        }
        if count > 0 {
          forall i | 0 <= i < count {
            scratch[i] := content[position.value + i];
          }
        }
      }
    }

    method Abort()
      modifies this
      ensures State() == AbortUpload(old(State())) && outgoing == old(outgoing)
    {
      flags := flags.(waitingOnLocal := false, aborted := true);
      currentFileBytesDone, currentFileSize := -1, -1;
    }

    /** DoUploadAux while a file is being sent. */
    method SendChunk() returns (again: bool, ghost io: FileIO)
      requires currentFileBytesDone >= 0 && !flags.waitingOnLocal && !flags.aborted
      modifies this
      ensures PossibleIO(old(State()), shared, io)
      ensures var r := UploadStep(old(State()), shared, io);
              State() == r.next && outgoing == old(outgoing) + r.sent && again == r.again
    {
      hide Chunk.Encode;
      var scratch := new Byte[CHUNK_SIZE];
      var count := ReadChunk(scratch);
      io := ReadIO(count);
      again := false;
      if count > 0 {
        var msg := Chunk.PackChunk(scratch, count, mungeMode);
        outgoing := outgoing + [FileData(msg)];
        currentFileBytesDone := currentFileBytesDone + count;
        position := Some(position.value + count);
      } else if count == 0 {
        currentFileBytesDone, currentFileSize := -1, -1;
        again := true;
      } else {
        Abort();
      }
    }

    /** DoUploadAux between files. */
    method NextFile() returns (again: bool, ghost io: FileIO)
      requires currentFileBytesDone < 0 && !flags.waitingOnLocal && !flags.aborted
      modifies this
      ensures PossibleIO(old(State()), shared, io)
      ensures var r := UploadStep(old(State()), shared, io);
              State() == r.next && outgoing == old(outgoing) + r.sent && again == r.again
    {
      again := false;
      io := OpenIO(false, false);
      if pending == [] {
        flags := flags.(waitingForSendToFinish := true);
        return;
      }
      var grant := pending[0];
      pending := pending[1..];
      currentFileName, currentFileBytesDone, position := grant.name, grant.offset, None;
      var openOk: bool := *;
      if openOk && grant.name in shared {
        currentFileSize := |shared[grant.name]|;
        var seekOk: bool := *;
        if seekOk && grant.offset >= 0 {
          io := OpenIO(true, true);
          position := Some(grant.offset);
          outgoing := outgoing +
            [FileHeader(grant.name, currentFileSize, if grant.offset > 0 then Some(grant.offset) else None)];
        } else {
          io := OpenIO(true, false);
          position := Some(0);
        }
        again := true;
      }
    }

    method DoUploadAux() returns (again: bool, ghost io: FileIO)
      modifies this
      ensures PossibleIO(old(State()), shared, io)
      ensures var r := UploadStep(old(State()), shared, io);
              State() == r.next && outgoing == old(outgoing) + r.sent && again == r.again
    {
      if flags.waitingOnLocal || flags.aborted {
        again := false;
        io := if currentFileBytesDone >= 0 then ReadIO(-1) else OpenIO(false, false);
      } else if currentFileBytesDone >= 0 {
        again, io := SendChunk();
      } else {
        again, io := NextFile();
      }
    }

    /** The loop ends, whatever the file set and the file system do; one call sends at
        most one chunk and never puts the session further back in the shortest-first order. */
    method DoUpload() returns (ghost ios: seq<FileIO>)
      modifies this
      ensures old(outgoing) <= outgoing
      ensures UploadRun(old(State()), shared, ios) ==
        Some(UploadResult(State(), outgoing[|old(outgoing)|..], false))
      ensures DataMessages(outgoing[|old(outgoing)|..]) <= 1
      ensures Steady(old(State())) ==>
        Steady(State()) && BytesLeft(State(), shared) <= BytesLeft(old(State()), shared)
    {
      hide UploadStep, PossibleIO, Steady, BytesLeft, DataMessages;
      ghost var before := outgoing;
      ghost var sent := [];
      assert outgoing[|before|..] == [];
      NoMessages();
      ios := [];
      var again := true;
      while again
        invariant outgoing == before + sent
        invariant UploadRun(old(State()), shared, ios) == Some(UploadResult(State(), sent, again))
        invariant DataMessages(sent) <= if again then 0 else 1
        decreases again, UploadMeasure(State())
      {
        ghost var u, io := State(), OpenIO(false, false);
        again, io := DoUploadAux();
        UploadStepDecreases(u, shared, io);
        StepSends(u, shared, io);
        DataMessagesConcat(sent, UploadStep(u, shared, io).sent);
        assert (ios + [io])[..|ios|] == ios;
        ios, sent := ios + [io], sent + UploadStep(u, shared, io).sent;
      }
      assert outgoing[|before|..] == sent;
      if Steady(old(State())) {
        RunNeverGrows(old(State()), shared, ios);
      }
    }
  }

  lemma NoMessages()
    ensures DataMessages([]) == 0
  {
  }

  lemma StepSends(u: Upload, shared: Files, io: FileIO)
    requires PossibleIO(u, shared, io)
    ensures var r := UploadStep(u, shared, io); DataMessages(r.sent) <= if r.again then 0 else 1
  {
    var r := UploadStep(u, shared, io);
    if r.sent != [] {
      assert r.sent[1..] == [];
    }
  }

  class DownloadSession {
    var disk: Files
    var fileSet: set<Name>
    var origFileSet: set<Name>
    var currentFileName: Name
    var openFile: Option<Name>
    var currentFileBytesDone: int
    var currentFileSize: int
    var currentFileIndex: nat
    var origFileSetSize: nat
    var flags: DownloadFlags

    constructor (disk: Files, requested: set<Name>)
      ensures State() == Download(disk, requested, requested, "", None, -1, -1, 0, |requested|,
                                  DownloadFlags(requested == {}, true, false, false, false, false))
    {
      this.disk, fileSet, origFileSet := disk, requested, requested;
      currentFileName, openFile, currentFileBytesDone, currentFileSize := "", None, -1, -1;
      currentFileIndex, origFileSetSize := 0, |requested|;
      flags := DownloadFlags(requested == {}, true, false, false, false, false);
    }

    ghost function State(): Download
      reads this
    {
      Download(disk, fileSet, origFileSet, currentFileName, openFile, currentFileBytesDone, currentFileSize,
               currentFileIndex, origFileSetSize, flags)
    }

    method AbortSession(error: bool, forceNoRestart: bool)
      modifies this
      ensures State() == Abort(old(State()), error, forceNoRestart)
      decreases if !error || forceNoRestart then 0 else 2
    {
      if !error || forceNoRestart {
        flags := flags.(autoRestart := false);
      }
      currentFileBytesDone, currentFileSize := -1, -1;
      flags := flags.(waitingOnLocal := false, connected := false, errorOccurred := error, finished := true);
      if flags.autoRestart {
        flags := flags.(autoRestart := false);
        RestartSession();
      }
    }

    method RestartSession()
      modifies this
      ensures State() == Restart(old(State()))
      decreases 1
    {
      AbortSession(false, true);
      currentFileIndex, currentFileName := 0, "";
      fileSet := origFileSet;
      origFileSetSize := |fileSet|;
      flags := flags.(finished := false, waitingOnLocal := true, uploadSession := origFileSet == {});
    }

    /** MTT_EVENT_SESSION_DISCONNECTED */
    method SessionDisconnected()
      modifies this
      ensures State() == Disconnected(old(State()))
    {
      openFile := None;
      flags := flags.(finished := true, connected := false, waitingOnLocal := false);
      if currentFileBytesDone < currentFileSize || currentFileIndex < origFileSetSize {
        flags := flags.(errorOccurred := true);
      } else {
        flags := flags.(autoRestart := false);
      }
      if flags.autoRestart {
        flags := flags.(autoRestart := false);
        RestartSession();
      }
    }

    /** TRANSFER_COMMAND_FILE_HEADER. `newName` is what GenerateNewFilename comes up with
        and `openOk` whether the file can then be opened for writing. */
    method HeaderReceived(name: Name, size: nat, startOffset: Option<int>, newName: Option<Name>, openOk: bool)
      modifies this
      ensures State() == OnHeader(old(State()), name, size, startOffset, newName, openOk)
    {
      hide Abort;
      if flags.uploadSession {
        AbortSession(true, false);
        return;
      }
      var prevFile := currentFileName;
      currentFileName, currentFileSize := name, size;
      if name !in fileSet {
        AbortSession(true, false);
        return;
      }
      fileSet := fileSet - {name};
      origFileSet := origFileSet - {prevFile};
      var startByte := if startOffset.Some? && startOffset.value > 0 then startOffset.value else 0;
      var ready := OpenDownload(startByte, newName, openOk);
      if !ready {
        AbortSession(true, false);
      }
    }

    /** Opens the current file to be continued at `startByte`, or a new file. */
    method OpenDownload(startByte: nat, newName: Option<Name>, openOk: bool) returns (ok: bool)
      modifies this
      ensures var d := old(State());
              var append := Appends(d.disk, d.currentFileName, startByte);
              if !append && newName.None? then
                !ok && State() == d
              else if !openOk then
                !ok && State() == d.(openFile := None)
              else
                var target := if append then d.currentFileName else newName.value;
                ok && State() == d.(
                  disk := if append then d.disk else d.disk[target := []],
                  openFile := Some(target), currentFileName := target,
                  currentFileIndex := d.currentFileIndex + 1, currentFileBytesDone := startByte)
    {
      ok := false;
      var append := startByte > 0 && currentFileName in disk && |disk[currentFileName]| == startByte;
      if append || newName.Some? {
        if openOk {
          if !append {
            currentFileName := newName.value;
            disk := disk[currentFileName := []];
          }
          openFile := Some(currentFileName);
          currentFileIndex := currentFileIndex + 1;
          currentFileBytesDone := startByte;
          ok := true;
        } else {
          openFile := None;
        }
      }
    }

    /** TRANSFER_COMMAND_FILE_DATA */
    method DataReceived(data: array<Byte>, mm: Option<int>, chk: Option<Word>, written: nat)
      modifies this, data
      ensures State() == OnData(old(State()), Chunk.DataMessage(old(data[..]), mm, chk), written)
    {
      hide Chunk.Decode, Abort;
      if flags.uploadSession {
        return;
      }
      var abort := Chunk.UnpackChunk(data, mm, chk);
      if !abort {
        if openFile.None? || openFile.value !in disk {
          abort := true;
        } else {
          var taken := if written < data.Length then data[..written] else data[..];
          disk := disk[openFile.value := disk[openFile.value] + taken];
          if |taken| == data.Length {
            flags := flags.(autoRestart := true);
            currentFileBytesDone := currentFileBytesDone + data.Length;
            if currentFileBytesDone >= currentFileSize {
              origFileSet := origFileSet - {currentFileName};
            }
          } else {
            abort := true;
          }
        }
      }
      if abort {
        AbortSession(true, false);
      }
    }
  }
}

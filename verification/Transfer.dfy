/** The handlers of a file transfer session, as functions of the session's state:
    what the uploader does each time its output queue drains, and what the
    downloader does with each message. I/O results are arguments. */
module Transfer {
  import opened Words
  import opened Wrappers
  import Chunk

  type Name = string
  type Files = map<Name, seq<Byte>>

  datatype Message =
    | FileHeader(name: Name, size: nat, startOffset: Option<int>)
    | FileData(chunk: Chunk.DataMessage)

  // ---------- Uploading ----------

  const CHUNK_SIZE := 8 * 1024

  /** An entry of the uploader's file set: a file and the byte to start at. */
  datatype Grant = Grant(name: Name, offset: int)

  /** `pending` is what the file set iterator has not returned yet; `position` is the
      read position of the open file, if a file is open. */
  datatype Upload = Upload(
    pending: seq<Grant>,
    currentFileName: Name,
    currentFileBytesDone: int,
    currentFileSize: int,
    position: Option<nat>,
    mungeMode: int,
    flags: UploadFlags)

  datatype UploadFlags = UploadFlags(waitingOnLocal: bool, waitingForSendToFinish: bool, aborted: bool)

  /** What the file system answers during one step. A negative count is a read error. */
  datatype FileIO =
    | ReadIO(count: int)
    | OpenIO(openOk: bool, seekOk: bool)

  /** A read returns no more than was asked for and than there is, and nothing at all
      only at the end of the file; only files that are shared can be opened. */
  predicate PossibleIO(u: Upload, shared: Files, io: FileIO) {
    if u.currentFileBytesDone >= 0 then
      && io.ReadIO? && io.count <= CHUNK_SIZE
      && (u.position.None? || u.currentFileName !in shared ==> io.count < 0)
      && (u.position.Some? && u.currentFileName in shared ==>
            var left := |shared[u.currentFileName]| - u.position.value;
            (io.count > 0 ==> io.count <= left) && (io.count == 0 ==> left <= 0))
    else
      && io.OpenIO?
      && (io.openOk ==> u.pending != [] && u.pending[0].name in shared)
      && (io.seekOk ==> io.openOk && u.pending[0].offset >= 0)
  }

  /** The opened file's size and position could be obtained. */
  predicate SeekWorks(u: Upload, io: FileIO) {
    io.OpenIO? && io.openOk && u.pending != [] && u.pending[0].offset >= 0 ==> io.seekOk
  }

  function AbortUpload(u: Upload): Upload {
    u.(currentFileBytesDone := -1, currentFileSize := -1,
       flags := u.flags.(waitingOnLocal := false, aborted := true))
  }

  datatype UploadResult = UploadResult(next: Upload, sent: seq<Message>, again: bool)

  /** DoUploadAux */
  function UploadStep(u: Upload, shared: Files, io: FileIO): UploadResult
    requires PossibleIO(u, shared, io)
  {
    if u.flags.waitingOnLocal || u.flags.aborted then UploadResult(u, [], false)
    else if u.currentFileBytesDone >= 0 then
      if io.count > 0 then
        var data := shared[u.currentFileName][u.position.value..u.position.value + io.count];
        UploadResult(
          u.(currentFileBytesDone := u.currentFileBytesDone + io.count, position := Some(u.position.value + io.count)),
          [FileData(Chunk.Encode(data, u.mungeMode))], false)
      else if io.count == 0 then
        UploadResult(u.(currentFileBytesDone := -1, currentFileSize := -1), [], true)
      else
        UploadResult(AbortUpload(u), [], false)
    else if u.pending == [] then
      UploadResult(u.(flags := u.flags.(waitingForSendToFinish := true)), [], false)
    else
      var grant := u.pending[0];
      var next := u.(pending := u.pending[1..], currentFileName := grant.name, currentFileBytesDone := grant.offset);
      if !io.openOk then UploadResult(next.(position := None), [], false)
      else
        var size := |shared[grant.name]|;
        var reading := next.(currentFileSize := size);
        if io.seekOk then
          UploadResult(reading.(position := Some(grant.offset)),
                       [FileHeader(grant.name, size, if grant.offset > 0 then Some(grant.offset) else None)], true)
        else
          UploadResult(reading.(position := Some(0)), [], true)
  }

  /** How often DoUploadAux can still ask to be called again. */
  function UploadMeasure(u: Upload): nat {
    2 * |u.pending| + if u.currentFileBytesDone >= 0 then 1 else 0
  }

  lemma UploadStepDecreases(u: Upload, shared: Files, io: FileIO)
    requires PossibleIO(u, shared, io)
    ensures var r := UploadStep(u, shared, io); r.again ==> UploadMeasure(r.next) < UploadMeasure(u)
  {
  }

  // The sort key of the scheduler.

  function SharedSizes(pending: seq<Grant>, shared: Files): nat {
    if pending == [] then 0
    else (if pending[0].name in shared then |shared[pending[0].name]| else 0) + SharedSizes(pending[1..], shared)
  }

  /** GetNumBytesLeftToUpload, when the shared sizes are the actual sizes. */
  function BytesLeft(u: Upload, shared: Files): nat {
    (if u.currentFileBytesDone < u.currentFileSize then u.currentFileSize - u.currentFileBytesDone else 0)
    + SharedSizes(u.pending, shared)
  }

  /** Between files there is neither a size nor a position, and offsets are real. */
  predicate Steady(u: Upload) {
    && (forall i :: 0 <= i < |u.pending| ==> u.pending[i].offset >= 0)
    && (u.currentFileBytesDone < 0 ==> u.currentFileBytesDone == -1 && u.currentFileSize == -1)
  }

  lemma BytesLeftNeverGrows(u: Upload, shared: Files, io: FileIO)
    requires PossibleIO(u, shared, io) && Steady(u)
    ensures var next := UploadStep(u, shared, io).next;
            Steady(next) && BytesLeft(next, shared) <= BytesLeft(u, shared)
  {
  }

  /** DoUpload: steps as long as they ask to be called again, with what the file system
      answers in each, or None when it cannot go that way. */
  function UploadRun(u: Upload, shared: Files, ios: seq<FileIO>): Option<UploadResult> {
    if ios == [] then Some(UploadResult(u, [], true))
    else
      var n := |ios| - 1;
      var before := UploadRun(u, shared, ios[..n]);
      if before.None? || !before.value.again || !PossibleIO(before.value.next, shared, ios[n]) then None
      else
        var step := UploadStep(before.value.next, shared, ios[n]);
        Some(UploadResult(step.next, before.value.sent + step.sent, step.again))
  }

  lemma {:induction false} RunNeverGrows(u: Upload, shared: Files, ios: seq<FileIO>)
    requires UploadRun(u, shared, ios).Some? && Steady(u)
    ensures var next := UploadRun(u, shared, ios).value.next;
            Steady(next) && BytesLeft(next, shared) <= BytesLeft(u, shared)
  {
    hide UploadStep, PossibleIO, Steady, BytesLeft;
    if ios != [] {
      var n := |ios| - 1;
      RunNeverGrows(u, shared, ios[..n]);
      BytesLeftNeverGrows(UploadRun(u, shared, ios[..n]).value.next, shared, ios[n]);
    }
  }

  /** A single file whose rest fits into one chunk is sent by one call, header and all, and
      leaves nothing. */
  lemma SmallFileIsSentAtOnce(u: Upload, shared: Files, name: Name, offset: nat)
    requires !u.flags.waitingOnLocal && !u.flags.aborted && u.currentFileBytesDone == u.currentFileSize == -1
    requires u.pending == [Grant(name, offset)] && name in shared
    requires offset < |shared[name]| <= offset + 8192
    ensures var rest := |shared[name]| - offset;
            var run := UploadRun(u, shared, [OpenIO(true, true), ReadIO(rest)]);
            && run.Some? && !run.value.again && !run.value.next.flags.aborted
            && |run.value.sent| == 2 && run.value.sent[0].FileHeader?
            && run.value.sent[1] == FileData(Chunk.Encode(shared[name][offset..], u.mungeMode))
            && BytesLeft(u, shared) == |shared[name]| && BytesLeft(run.value.next, shared) == 0
  {
    hide Chunk.Encode;
    var rest := |shared[name]| - offset;
    var ios := [OpenIO(true, true), ReadIO(rest)];
    assert ios[..1] == [ios[0]] && [ios[0]][..0] == [];
    var first := UploadStep(u, shared, ios[0]);
    assert u.pending[1..] == [] && SharedSizes([], shared) == 0;
    assert SharedSizes(u.pending, shared) == |shared[name]| + SharedSizes(u.pending[1..], shared);
    assert UploadRun(u, shared, [ios[0]]) == Some(UploadResult(first.next, [] + first.sent, true));
    assert shared[name][offset..offset + rest] == shared[name][offset..];
  }

  // ---------- Downloading ----------

  /** `openFile` is the file that data is written to, at its end. */
  datatype Download = Download(
    disk: Files,
    fileSet: set<Name>,
    origFileSet: set<Name>,
    currentFileName: Name,
    openFile: Option<Name>,
    currentFileBytesDone: int,
    currentFileSize: int,
    currentFileIndex: nat,
    origFileSetSize: nat,
    flags: DownloadFlags)

  /** The session's boolean fields. */
  datatype DownloadFlags = DownloadFlags(
    uploadSession: bool,
    waitingOnLocal: bool,
    connected: bool,
    autoRestart: bool,
    errorOccurred: bool,
    finished: bool)

  function AbortNoRestart(d: Download, error: bool): Download {
    d.(currentFileBytesDone := -1, currentFileSize := -1,
       flags := d.flags.(waitingOnLocal := false, connected := false,
                         errorOccurred := error, finished := true, autoRestart := false))
  }

  /** RestartSession: a session whose original file set has emptied comes back as an upload. */
  function Restart(d: Download): Download {
    AbortNoRestart(d, false).(
      currentFileIndex := 0, currentFileName := "",
      fileSet := d.origFileSet, origFileSetSize := |d.origFileSet|,
      flags := DownloadFlags(d.origFileSet == {}, true, false, false, false, false))
  }

  /** AbortSession */
  function Abort(d: Download, error: bool, forceNoRestart: bool): Download {
    if error && !forceNoRestart && d.flags.autoRestart then Restart(AbortNoRestart(d, true))
    else AbortNoRestart(d, error)
  }

  /** MTT_EVENT_SESSION_DISCONNECTED */
  function Disconnected(d: Download): Download {
    var unfinished := d.currentFileBytesDone < d.currentFileSize || d.currentFileIndex < d.origFileSetSize;
    var closed := d.(openFile := None,
                     flags := d.flags.(finished := true, connected := false, waitingOnLocal := false,
                                       errorOccurred := d.flags.errorOccurred || unfinished,
                                       autoRestart := false));
    if unfinished && d.flags.autoRestart then Restart(closed) else closed
  }

  /** Whether a header continues a partial file: one of exactly the offset's size. */
  predicate Appends(disk: Files, name: Name, startByte: int) {
    startByte > 0 && name in disk && |disk[name]| == startByte
  }

  /** GenerateNewFilename's answer: the name itself while it is free, else another free
      name, or None when no free name was found. */
  predicate PossibleNewName(disk: Files, name: Name, newName: Option<Name>) {
    newName.Some? ==> newName.value !in disk && (name !in disk ==> newName.value == name)
  }

  /** TRANSFER_COMMAND_FILE_HEADER */
  function OnHeader(d: Download, name: Name, size: nat, startOffset: Option<int>,
                    newName: Option<Name>, openOk: bool): Download
  {
    var named := d.(currentFileName := name, currentFileSize := size);
    if d.flags.uploadSession then Abort(d, true, false)
    else if name !in d.fileSet then Abort(named, true, false)
    else
      var listed := named.(fileSet := d.fileSet - {name}, origFileSet := d.origFileSet - {d.currentFileName});
      var startByte := if startOffset.Some? && startOffset.value > 0 then startOffset.value else 0;
      var append := Appends(d.disk, name, startByte);
      if !append && newName.None? then Abort(listed, true, false)
      else if !openOk then Abort(listed.(openFile := None), true, false)
      else
        var target := if append then name else newName.value;
        listed.(
          disk := if append then d.disk else d.disk[target := []],
          openFile := Some(target),
          currentFileName := target,
          currentFileIndex := d.currentFileIndex + 1,
          currentFileBytesDone := startByte)
  }

  /** TRANSFER_COMMAND_FILE_DATA; `written` is how many bytes the write took. */
  function OnData(d: Download, chunk: Chunk.DataMessage, written: nat): Download
  {
    if d.flags.uploadSession then d
    else
      var received := Chunk.Decode(chunk);
      if received.None? then Abort(d, true, false)
      else if d.openFile.None? || d.openFile.value !in d.disk then Abort(d, true, false)
      else
        var data := received.value;
        var target := d.openFile.value;
        var taken := if written < |data| then data[..written] else data;
        var wrote := d.(disk := d.disk[target := d.disk[target] + taken]);
        if written < |data| then Abort(wrote, true, false)
        else
          var done := d.currentFileBytesDone + |data|;
          wrote.(
            flags := d.flags.(autoRestart := true),
            currentFileBytesDone := done,
            origFileSet := if done >= d.currentFileSize then d.origFileSet - {d.currentFileName} else d.origFileSet)
  }
}

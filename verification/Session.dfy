/** One downloader, one uploader and the connection between them, with
    disconnections, restarts and resumed files at any point. */
module Session {
  import opened Words
  import opened Wrappers
  import opened Transfer
  import Chunk
  import Resume
  import Rfc = Rfc1321

  /** `origin` records, for each file the downloader has written, which shared file
      it is a copy of; the two names differ when the download was renamed. */
  datatype System = System(up: Upload, channel: seq<Message>, down: Download, origin: map<Name, Name>)

  datatype Event =
    | Connect(grants: seq<Grant>, mungeMode: int)
    | Send(io: FileIO)
    | SetUploadWaiting(waiting: bool)
    | DeliverHeader(newName: Option<Name>, openOk: bool)
    | DeliverData(written: nat)
    | Disconnect
    | UserAbort
    | UserRestart

  predicate DistinctNames(grants: seq<Grant>) {
    forall i, j :: 0 <= i < j < |grants| ==> grants[i].name != grants[j].name
  }

  /** The start offset that the resume handshake grants: zero, or the size of a
      partial file whose hashed tail agrees with the shared file. */
  ghost predicate Granted(disk: Files, shared: Files, bytesFromBack: int, g: Grant) {
    g.offset == 0
    || (&& g.name in disk && g.name in shared
        && 0 < g.offset == |disk[g.name]|
        && Resume.Verified(disk[g.name], shared[g.name], bytesFromBack))
  }

  function FreshUpload(grants: seq<Grant>, mungeMode: int): Upload {
    Upload(grants, "", -1, -1, None, mungeMode, UploadFlags(false, false, false))
  }

  /** Messages of a connection that was closed are lost. */
  function Settle(s: System): System {
    if s.down.flags.connected then s else s.(channel := [])
  }

  /** The next state, or None when the event cannot happen. */
  ghost function Step(s: System, shared: Files, bytesFromBack: int, e: Event): Option<System> {
    match e
    case Connect(grants, mungeMode) =>
      if && !s.down.flags.connected && !s.down.flags.finished && !s.down.flags.uploadSession
         && DistinctNames(grants)
         && forall i :: 0 <= i < |grants| ==>
              grants[i].name in s.down.fileSet && Granted(s.down.disk, shared, bytesFromBack, grants[i])
      then Some(System(FreshUpload(grants, mungeMode), [],
                       s.down.(currentFileBytesDone := -1, currentFileSize := -1,
                               flags := s.down.flags.(connected := true, waitingOnLocal := false)),
                       s.origin))
      else None
    case Send(io) =>
      if s.down.flags.connected && PossibleIO(s.up, shared, io)
      then var r := UploadStep(s.up, shared, io); Some(s.(up := r.next, channel := s.channel + r.sent))
      else None
    case SetUploadWaiting(waiting) =>
      Some(s.(up := s.up.(flags := s.up.flags.(waitingOnLocal := waiting))))
    case DeliverHeader(newName, openOk) =>
      if s.channel != [] && s.channel[0].FileHeader? && PossibleNewName(s.down.disk, s.channel[0].name, newName)
      then
        var h := s.channel[0];
        var down := OnHeader(s.down, h.name, h.size, h.startOffset, newName, openOk);
        Some(Settle(s.(channel := s.channel[1..], down := down,
                       origin := if down.flags.connected then s.origin[down.currentFileName := h.name] else s.origin)))
      else None
    case DeliverData(written) =>
      if s.channel != [] && s.channel[0].FileData?
      then Some(Settle(s.(channel := s.channel[1..], down := OnData(s.down, s.channel[0].chunk, written))))
      else None
    case Disconnect =>
      if s.down.flags.connected then Some(Settle(s.(down := Disconnected(s.down)))) else None
    case UserAbort => Some(Settle(s.(down := Abort(s.down, true, true))))
    case UserRestart => if s.down.flags.uploadSession then None else Some(Settle(s.(down := Restart(s.down))))
  }

  /** What the claims below rest on, besides that nobody else writes to the download
      directory and that the shared files stay the same:
      an opened file can be sized and positioned; with whole-file hashes, different
      contents do not share the digest that was compared; with partial hashes, a
      generated name is not the name of another requested file. */
  ghost predicate Assumed(s: System, shared: Files, bytesFromBack: int, e: Event) {
    match e
    case Connect(grants, _) =>
      bytesFromBack <= 0 ==> forall i :: 0 <= i < |grants| ==>
        var n := grants[i].name;
        n in s.down.disk && n in shared && |s.down.disk[n]| <= |shared[n]|
          && Rfc.Digest(s.down.disk[n]) == Rfc.Digest(shared[n][..|s.down.disk[n]|])
        ==> s.down.disk[n] == shared[n][..|s.down.disk[n]|]
    case Send(io) => SeekWorks(s.up, io)
    case DeliverHeader(newName, _) =>
      bytesFromBack > 0 && newName.Some? && s.channel != [] && s.channel[0].FileHeader?
        && newName.value != s.channel[0].name
      ==> newName.value !in s.down.fileSet + s.down.origFileSet
    case _ => true
  }

  // ---------- The invariant ----------

  /** How far the downloader is: between files, or at a byte of a shared file. */
  datatype Cursor = NoFile | At(name: Name, done: nat)

  function DownloadCursor(s: System): Cursor {
    if s.down.currentFileBytesDone < 0 || s.down.currentFileName !in s.origin then NoFile
    else At(s.origin[s.down.currentFileName], s.down.currentFileBytesDone)
  }

  predicate BetweenFiles(shared: Files, c: Cursor) {
    c.NoFile? || (c.name in shared && c.done == |shared[c.name]|)
  }

  function Offset(startOffset: Option<int>): int {
    if startOffset.Some? then startOffset.value else 0
  }

  /** The uploader is at the same place, when nothing is under way. */
  predicate Level(shared: Files, c: Cursor, up: Upload) {
    up.flags.aborted
    || (if up.currentFileBytesDone >= 0 && up.position.Some? then
          && c == At(up.currentFileName, up.position.value)
          && up.currentFileName in shared
          && up.position.value == up.currentFileBytesDone <= |shared[up.currentFileName]|
        else BetweenFiles(shared, c))
  }

  /** The undelivered messages take the downloader from its cursor to the uploader's. */
  predicate Stream(shared: Files, c: Cursor, channel: seq<Message>, up: Upload)
    decreases |channel|
  {
    if channel == [] then Level(shared, c, up)
    else match channel[0]
      case FileHeader(name, size, startOffset) =>
        && BetweenFiles(shared, c)
        && name in shared && size == |shared[name]|
        && (startOffset.Some? ==> startOffset.value > 0)
        && Stream(shared, At(name, Offset(startOffset)), channel[1..], up)
      case FileData(chunk) =>
        && c.At? && c.name in shared
        && var data := Chunk.Decode(chunk);
        && data.Some? && c.done + |data.value| <= |shared[c.name]|
        && data.value == shared[c.name][c.done..c.done + |data.value|]
        && Stream(shared, At(c.name, c.done + |data.value|), channel[1..], up)
  }

  function Headers(channel: seq<Message>): seq<Grant> {
    if channel == [] then []
    else if channel[0].FileHeader? then
      [Grant(channel[0].name, Offset(channel[0].startOffset))] + Headers(channel[1..])
    else Headers(channel[1..])
  }

  /** The files still to come on this connection, with their start offsets. */
  function Upcoming(s: System): seq<Grant> {
    Headers(s.channel) + s.up.pending
  }

  /** A file that will be continued is there, has the promised size, is a prefix of
      the shared file, and is not being written meanwhile. */
  predicate Continuable(disk: Files, shared: Files, openFile: Option<Name>, g: Grant) {
    g.offset == 0
    || (&& g.name in disk && g.name in shared
        && 0 < g.offset == |disk[g.name]|
        && disk[g.name] <= shared[g.name]
        && openFile != Some(g.name))
  }

  predicate AllContinuable(disk: Files, shared: Files, openFile: Option<Name>, grants: seq<Grant>) {
    DistinctNames(grants) && forall i :: 0 <= i < |grants| ==> Continuable(disk, shared, openFile, grants[i])
  }

  /** Every file the downloader wrote is a prefix of what it is a copy of. */
  predicate WrittenArePrefixes(shared: Files, disk: Files, origin: map<Name, Name>) {
    forall f :: f in origin ==> f in disk && origin[f] in shared && disk[f] <= shared[origin[f]]
  }

  /** With partial hashes: what is on disk under a requested name is a prefix too. */
  predicate RequestedArePrefixes(shared: Files, s: System) {
    forall f :: f in s.down.fileSet + s.down.origFileSet ==>
      && (f in s.origin ==> s.origin[f] == f)
      && (f in s.down.disk && f in shared ==> s.down.disk[f] <= shared[f])
  }

  predicate OpenFileInStep(shared: Files, s: System) {
    s.down.currentFileBytesDone >= 0 ==>
      && s.down.currentFileName in s.origin
      && s.down.openFile == Some(s.down.currentFileName)
      && s.down.currentFileName in s.down.disk
      && |s.down.disk[s.down.currentFileName]| == s.down.currentFileBytesDone
      && s.origin[s.down.currentFileName] in shared
      && s.down.currentFileSize == |shared[s.origin[s.down.currentFileName]]|
  }

  predicate Inv(shared: Files, bytesFromBack: int, s: System) {
    && WrittenArePrefixes(shared, s.down.disk, s.origin)
    && (bytesFromBack > 0 ==> RequestedArePrefixes(shared, s))
    && (s.down.flags.connected ==>
          && OpenFileInStep(shared, s)
          && Stream(shared, DownloadCursor(s), s.channel, s.up)
          && AllContinuable(s.down.disk, shared,
                            if s.down.currentFileBytesDone >= 0 then s.down.openFile else None,
                            Upcoming(s)))
    && (!s.down.flags.connected ==> s.channel == [])
    && (s.down.flags.connected ==> !s.down.flags.uploadSession)
  }

  // ---------- Sending ----------

  lemma {:induction false} HeadersConcat(a: seq<Message>, b: seq<Message>)
    ensures Headers(a + b) == Headers(a) + Headers(b)
  {
    if a == [] {
      assert a + b == b;
    } else {
      assert (a + b)[1..] == a[1..] + b;
      HeadersConcat(a[1..], b);
    }
  }

  lemma {:induction false} StreamExtends(shared: Files, c: Cursor, channel: seq<Message>, up: Upload,
                                         sent: seq<Message>, next: Upload)
    requires Stream(shared, c, channel, up)
    requires forall d :: Level(shared, d, up) ==> Stream(shared, d, sent, next)
    ensures Stream(shared, c, channel + sent, next)
    decreases |channel|
  {
    hide Level, Chunk.Decode;
    if channel == [] {
      assert channel + sent == sent;
    } else {
      assert (channel + sent)[1..] == channel[1..] + sent;
      match channel[0]
      case FileHeader(name, _, startOffset) =>
        StreamExtends(shared, At(name, Offset(startOffset)), channel[1..], up, sent, next);
      case FileData(chunk) =>
        var data := Chunk.Decode(chunk).value;
        StreamExtends(shared, At(c.name, c.done + |data|), channel[1..], up, sent, next);
    }
  }

  lemma StreamOne(shared: Files, c: Cursor, m: Message, up: Upload)
    ensures m.FileHeader? ==>
      (Stream(shared, c, [m], up) <==>
        && BetweenFiles(shared, c)
        && m.name in shared && m.size == |shared[m.name]|
        && (m.startOffset.Some? ==> m.startOffset.value > 0)
        && Level(shared, At(m.name, Offset(m.startOffset)), up))
    ensures m.FileData? ==>
      (Stream(shared, c, [m], up) <==>
        && c.At? && c.name in shared
        && var data := Chunk.Decode(m.chunk);
        && data.Some? && c.done + |data.value| <= |shared[c.name]|
        && data.value == shared[c.name][c.done..c.done + |data.value|]
        && Level(shared, At(c.name, c.done + |data.value|), up))
  {
    hide Level, Chunk.Decode;
    assert [m][1..] == [];
  }

  /** A chunk, seen from a downloader that has caught up. */
  lemma ReadFromLevel(shared: Files, up: Upload, io: FileIO, d: Cursor)
    requires PossibleIO(up, shared, io) && Level(shared, d, up)
    requires !up.flags.waitingOnLocal && !up.flags.aborted && up.currentFileBytesDone >= 0
    ensures var r := UploadStep(up, shared, io); Stream(shared, d, r.sent, r.next)
  {
    hide Chunk.Decode, Chunk.Encode;
    if io.count > 0 {
      var data := shared[up.currentFileName][up.position.value..up.position.value + io.count];
      Chunk.ReceiveAfterSend(data, up.mungeMode);
      var r := UploadStep(up, shared, io);
      StreamOne(shared, d, r.sent[0], r.next);
    }
  }

  /** The next file's header, seen from a downloader that has caught up. */
  lemma OpenFromLevel(shared: Files, disk: Files, openFile: Option<Name>, up: Upload, io: FileIO, d: Cursor)
    requires PossibleIO(up, shared, io) && SeekWorks(up, io) && Level(shared, d, up)
    requires !up.flags.waitingOnLocal && !up.flags.aborted && up.currentFileBytesDone < 0 && up.pending != []
    requires Continuable(disk, shared, openFile, up.pending[0])
    ensures var r := UploadStep(up, shared, io); Stream(shared, d, r.sent, r.next)
  {
    hide Chunk.Decode, Chunk.Encode;
    if io.openOk {
      var r := UploadStep(up, shared, io);
      StreamOne(shared, d, r.sent[0], r.next);
    }
  }

  lemma SendFromLevel(shared: Files, disk: Files, openFile: Option<Name>, up: Upload, io: FileIO, d: Cursor)
    requires PossibleIO(up, shared, io) && SeekWorks(up, io)
    requires up.pending != [] ==> Continuable(disk, shared, openFile, up.pending[0])
    requires Level(shared, d, up)
    ensures var r := UploadStep(up, shared, io); Stream(shared, d, r.sent, r.next)
  {
    if !up.flags.waitingOnLocal && !up.flags.aborted {
      if up.currentFileBytesDone >= 0 {
        ReadFromLevel(shared, up, io, d);
      } else if up.pending != [] {
        OpenFromLevel(shared, disk, openFile, up, io, d);
      }
    }
  }

  lemma UpcomingAfterSend(shared: Files, channel: seq<Message>, up: Upload, io: FileIO)
    requires PossibleIO(up, shared, io) && SeekWorks(up, io)
    requires up.pending != [] ==> up.pending[0].offset >= 0
    ensures var r := UploadStep(up, shared, io);
            var after := Headers(channel + r.sent) + r.next.pending;
            after == Headers(channel) + up.pending || (up.pending != [] && after == Headers(channel) + up.pending[1..])
  {
    hide Chunk.Encode, Headers;
    var r := UploadStep(up, shared, io);
    HeadersConcat(channel, r.sent);
    HeadersOne(r.sent);
  }

  lemma HeadersOne(sent: seq<Message>)
    ensures sent == [] ==> Headers(sent) == []
    ensures |sent| == 1 && sent[0].FileHeader? ==> Headers(sent) == [Grant(sent[0].name, Offset(sent[0].startOffset))]
    ensures |sent| == 1 && sent[0].FileData? ==> Headers(sent) == []
  {
  }

  lemma SendKeepsInv(s: System, shared: Files, bytesFromBack: int, io: FileIO)
    requires Inv(shared, bytesFromBack, s) && s.down.flags.connected
    requires PossibleIO(s.up, shared, io) && SeekWorks(s.up, io)
    ensures Inv(shared, bytesFromBack, Step(s, shared, bytesFromBack, Send(io)).value)
  {
    hide Stream, Level, Headers, Continuable, UploadStep, Resume.Verified;
    var r := UploadStep(s.up, shared, io);
    var open := if s.down.currentFileBytesDone >= 0 then s.down.openFile else None;
    if s.up.pending != [] {
      assert Upcoming(s)[|Headers(s.channel)|] == s.up.pending[0];
      ContinuableOffset(s.down.disk, shared, open, s.up.pending[0]);
    }
    forall d | Level(shared, d, s.up) ensures Stream(shared, d, r.sent, r.next) {
      SendFromLevel(shared, s.down.disk, open, s.up, io, d);
    }
    StreamExtends(shared, DownloadCursor(s), s.channel, s.up, r.sent, r.next);
    UpcomingAfterSend(shared, s.channel, s.up, io);
    DropKeepsContinuable(s.down.disk, shared, open, Headers(s.channel), s.up.pending);
  }

  lemma ContinuableOffset(disk: Files, shared: Files, openFile: Option<Name>, g: Grant)
    requires Continuable(disk, shared, openFile, g)
    ensures g.offset >= 0
  {
  }

  lemma DropKeepsContinuable(disk: Files, shared: Files, openFile: Option<Name>, a: seq<Grant>, b: seq<Grant>)
    requires AllContinuable(disk, shared, openFile, a + b)
    ensures b != [] ==> AllContinuable(disk, shared, openFile, a + b[1..])
  {
    if b != [] {
      var all, rest := a + b, a + b[1..];
      forall i | 0 <= i < |rest| ensures rest[i] == all[if i < |a| then i else i + 1] {
      }
    }
  }

  /** The uploader is requeued, or begins again, in the middle of whatever it does. */
  lemma WaitingKeepsInv(s: System, shared: Files, bytesFromBack: int, waiting: bool)
    requires Inv(shared, bytesFromBack, s)
    ensures Inv(shared, bytesFromBack, Step(s, shared, bytesFromBack, SetUploadWaiting(waiting)).value)
  {
    hide Headers, Continuable, Stream, AllContinuable, WrittenArePrefixes, Level;
    var up := s.up.(flags := s.up.flags.(waitingOnLocal := waiting));
    if s.down.flags.connected {
      WaitingKeepsStream(shared, DownloadCursor(s), s.channel, s.up, up);
    }
  }

  lemma {:induction false} WaitingKeepsStream(shared: Files, c: Cursor, channel: seq<Message>, up: Upload, next: Upload)
    requires Stream(shared, c, channel, up)
    requires next == up.(flags := up.flags.(waitingOnLocal := next.flags.waitingOnLocal))
    ensures Stream(shared, c, channel, next)
    decreases |channel|
  {
    hide Chunk.Decode;
    if channel != [] {
      match channel[0]
      case FileHeader(name, _, startOffset) =>
        WaitingKeepsStream(shared, At(name, Offset(startOffset)), channel[1..], up, next);
      case FileData(chunk) =>
        var data := Chunk.Decode(chunk).value;
        WaitingKeepsStream(shared, At(c.name, c.done + |data|), channel[1..], up, next);
    }
  }

  // ---------- Receiving ----------

  /** The grants after the first one, once a header has opened `target`. */
  lemma HeaderLeavesRestContinuable(disk: Files, shared: Files, openFile: Option<Name>, grants: seq<Grant>,
                                    disk': Files, target: Name)
    requires grants != [] && AllContinuable(disk, shared, openFile, grants)
    requires (disk' == disk && target == grants[0].name) || (target !in disk && disk' == disk[target := []])
    ensures AllContinuable(disk', shared, Some(target), grants[1..])
  {
  }

  /** What an accepted header does to the state. */
  lemma AcceptedHeader(d: Download, h: Message, newName: Option<Name>, openOk: bool)
    requires d.flags.connected && h.FileHeader? && PossibleNewName(d.disk, h.name, newName)
    ensures var down := OnHeader(d, h.name, h.size, h.startOffset, newName, openOk);
            var append := Appends(d.disk, h.name, Offset(h.startOffset));
            var target := if append || newName.None? then h.name else newName.value;
            if down.flags.connected then
              && down == d.(disk := if append then d.disk else d.disk[target := []],
                            fileSet := d.fileSet - {h.name},
                            origFileSet := d.origFileSet - {d.currentFileName},
                            openFile := Some(target), currentFileName := target,
                            currentFileIndex := d.currentFileIndex + 1,
                            currentFileSize := h.size,
                            currentFileBytesDone :=
                              if h.startOffset.Some? && h.startOffset.value > 0 then h.startOffset.value else 0)
              && (append || target !in d.disk)
            else
              down.disk == d.disk && down.fileSet + down.origFileSet <= d.fileSet + d.origFileSet
  {
  }

  lemma TargetIsPrefix(shared: Files, disk: Files, origin: map<Name, Name>, name: Name, target: Name, disk': Files)
    requires WrittenArePrefixes(shared, disk, origin) && name in shared
    requires || (disk' == disk && target == name && name in disk && disk[name] <= shared[name])
             || (target !in disk && disk' == disk[target := []])
    ensures WrittenArePrefixes(shared, disk', origin[target := name])
  {
  }

  lemma AcceptedKeepsInv(s: System, shared: Files, bytesFromBack: int, down: Download)
    requires Inv(shared, bytesFromBack, s) && s.channel != [] && s.channel[0].FileHeader?
    requires var h := s.channel[0];
             var append := Appends(s.down.disk, h.name, Offset(h.startOffset));
             && down.flags.connected && down.flags.uploadSession == s.down.flags.uploadSession
             && down.fileSet <= s.down.fileSet && down.origFileSet <= s.down.origFileSet
             && (if append then down.disk == s.down.disk && down.currentFileName == h.name
                 else down.currentFileName !in s.down.disk && down.disk == s.down.disk[down.currentFileName := []])
             && (bytesFromBack > 0 && down.currentFileName != h.name ==>
                   down.currentFileName !in s.down.fileSet + s.down.origFileSet)
             && down.openFile == Some(down.currentFileName)
             && down.currentFileSize == h.size
             && down.currentFileBytesDone == Offset(h.startOffset)
    ensures Inv(shared, bytesFromBack,
                System(s.up, s.channel[1..], down, s.origin[down.currentFileName := s.channel[0].name]))
  {
    hide Chunk.Decode, AllContinuable, Continuable, Level, WrittenArePrefixes, RequestedArePrefixes, Headers;
    var h := s.channel[0];
    var g := Grant(h.name, Offset(h.startOffset));
    var open := if s.down.currentFileBytesDone >= 0 then s.down.openFile else None;
    var rest := Headers(s.channel[1..]) + s.up.pending;
    HeadersFirst(s.channel);
    assert Upcoming(s) == [g] + rest && Upcoming(s)[1..] == rest;
    HeadIsContinuable(s.down.disk, shared, open, g, rest);
    HeaderLeavesRestContinuable(s.down.disk, shared, open, Upcoming(s), down.disk, down.currentFileName);
    TargetIsPrefix(shared, s.down.disk, s.origin, h.name, down.currentFileName, down.disk);
    if bytesFromBack > 0 {
      HeaderKeepsRequested(s, shared, h.name, down);
      RequestedOnly(shared, s.(down := down, origin := s.origin[down.currentFileName := h.name]),
                    System(s.up, s.channel[1..], down, s.origin[down.currentFileName := h.name]));
    }
  }

  lemma RequestedOnly(shared: Files, s: System, t: System)
    requires RequestedArePrefixes(shared, s) && s.down == t.down && s.origin == t.origin
    ensures RequestedArePrefixes(shared, t)
  {
  }

  lemma HeaderKeepsInv(s: System, shared: Files, bytesFromBack: int, newName: Option<Name>, openOk: bool)
    requires Inv(shared, bytesFromBack, s) && Assumed(s, shared, bytesFromBack, DeliverHeader(newName, openOk))
    requires Step(s, shared, bytesFromBack, DeliverHeader(newName, openOk)).Some?
    ensures Inv(shared, bytesFromBack, Step(s, shared, bytesFromBack, DeliverHeader(newName, openOk)).value)
  {
    hide AllContinuable, Level, OnHeader, WrittenArePrefixes, Headers, BetweenFiles;
    var h := s.channel[0];
    var down := OnHeader(s.down, h.name, h.size, h.startOffset, newName, openOk);
    AcceptedHeader(s.down, h, newName, openOk);
    if down.flags.connected {
      AcceptedKeepsInv(s, shared, bytesFromBack, down);
    } else {
      assert WrittenArePrefixes(shared, down.disk, s.origin);
    }
  }

  lemma HeadersFirst(channel: seq<Message>)
    requires channel != [] && channel[0].FileHeader?
    ensures Headers(channel) == [Grant(channel[0].name, Offset(channel[0].startOffset))] + Headers(channel[1..])
  {
  }

  lemma HeaderKeepsRequested(s: System, shared: Files, name: Name, down: Download)
    requires RequestedArePrefixes(shared, s)
    requires down.fileSet + down.origFileSet <= s.down.fileSet + s.down.origFileSet
    requires var target := down.currentFileName;
             || (down.disk == s.down.disk && target == name)
             || (target !in s.down.disk && down.disk == s.down.disk[target := []]
                 && (target != name ==> target !in s.down.fileSet + s.down.origFileSet))
    ensures RequestedArePrefixes(shared, s.(down := down, origin := s.origin[down.currentFileName := name]))
  {
  }

  lemma HeadIsContinuable(disk: Files, shared: Files, openFile: Option<Name>, g: Grant, rest: seq<Grant>)
    requires AllContinuable(disk, shared, openFile, [g] + rest)
    ensures Continuable(disk, shared, openFile, g)
    ensures g.offset > 0 ==>
      g.name in disk && g.name in shared && g.offset == |disk[g.name]| && disk[g.name] <= shared[g.name]
    ensures g.offset >= 0
  {
    assert ([g] + rest)[0] == g;
  }

  lemma DataLeavesContinuable(disk: Files, shared: Files, openFile: Option<Name>, grants: seq<Grant>, f: Name,
                              content: seq<Byte>)
    requires AllContinuable(disk, shared, openFile, grants) && openFile == Some(f)
    ensures AllContinuable(disk[f := content], shared, openFile, grants)
  {
  }

  lemma PrefixExtends(done: seq<Byte>, whole: seq<Byte>, data: seq<Byte>, k: nat)
    requires done <= whole && |done| + |data| <= |whole| && k <= |data|
    requires data == whole[|done|..|done| + |data|]
    ensures done + data[..k] <= whole
  {
  }

  lemma DataKeepsInv(s: System, shared: Files, bytesFromBack: int, written: nat)
    requires Inv(shared, bytesFromBack, s)
    requires Step(s, shared, bytesFromBack, DeliverData(written)).Some?
    ensures Inv(shared, bytesFromBack, Step(s, shared, bytesFromBack, DeliverData(written)).value)
  {
    hide Resume.Verified, Chunk.Decode, AllContinuable, Continuable, Level;
    var chunk := s.channel[0].chunk;
    assert s.down.flags.connected;
    var f := s.down.currentFileName;
    var n := s.origin[f];
    var data := Chunk.Decode(chunk).value;
    var done := s.down.currentFileBytesDone;
    var down := OnData(s.down, chunk, written);
    PrefixExtends(s.down.disk[f], shared[n], data, if written < |data| then written else |data|);
    assert data[..|data|] == data;
    DataLeavesContinuable(s.down.disk, shared, s.down.openFile, Upcoming(s), f, down.disk[f]);
  }

  lemma ConnectKeepsInv(s: System, shared: Files, bytesFromBack: int, grants: seq<Grant>, mungeMode: int)
    requires Inv(shared, bytesFromBack, s) && Assumed(s, shared, bytesFromBack, Connect(grants, mungeMode))
    requires Step(s, shared, bytesFromBack, Connect(grants, mungeMode)).Some?
    ensures Inv(shared, bytesFromBack, Step(s, shared, bytesFromBack, Connect(grants, mungeMode)).value)
  {
    hide Rfc.Digest;
    forall i | 0 <= i < |grants| ensures Continuable(s.down.disk, shared, None, grants[i]) {
      var n := grants[i].name;
      if grants[i].offset != 0 && bytesFromBack <= 0 {
        var partial := s.down.disk[n];
        assert partial[0..|partial|] == partial && shared[n][0..|partial|] == shared[n][..|partial|];
      }
    }
  }

  lemma StepKeepsInv(s: System, shared: Files, bytesFromBack: int, e: Event)
    requires Inv(shared, bytesFromBack, s) && Assumed(s, shared, bytesFromBack, e)
    requires Step(s, shared, bytesFromBack, e).Some?
    ensures Inv(shared, bytesFromBack, Step(s, shared, bytesFromBack, e).value)
  {
    match e
    case Connect(grants, mungeMode) => ConnectKeepsInv(s, shared, bytesFromBack, grants, mungeMode);
    case Send(io) => SendKeepsInv(s, shared, bytesFromBack, io);
    case SetUploadWaiting(waiting) => WaitingKeepsInv(s, shared, bytesFromBack, waiting);
    case DeliverHeader(newName, openOk) => HeaderKeepsInv(s, shared, bytesFromBack, newName, openOk);
    case DeliverData(written) => DataKeepsInv(s, shared, bytesFromBack, written);
    case _ =>
  }

  // ---------- Whole runs ----------

  /** A transfer as the user starts it: nothing downloaded by it yet. */
  function Initial(disk: Files, requested: set<Name>): System {
    System(FreshUpload([], Chunk.MUNGE_MODE_NONE), [],
           Download(disk, requested, requested, "", None, -1, -1, 0, |requested|,
                    DownloadFlags(requested == {}, true, false, false, false, false)),
           map[])
  }

  ghost function After(s: System, shared: Files, bytesFromBack: int, events: seq<Event>): Option<System>
    decreases |events|
  {
    if events == [] then Some(s)
    else
      var next := Step(s, shared, bytesFromBack, events[0]);
      if next.None? then None else After(next.value, shared, bytesFromBack, events[1..])
  }

  ghost predicate AllAssumed(s: System, shared: Files, bytesFromBack: int, events: seq<Event>)
    decreases |events|
  {
    events != [] ==>
      && Assumed(s, shared, bytesFromBack, events[0])
      && (Step(s, shared, bytesFromBack, events[0]).Some? ==>
            AllAssumed(Step(s, shared, bytesFromBack, events[0]).value, shared, bytesFromBack, events[1..]))
  }

  lemma {:induction false} RunKeepsInv(s: System, shared: Files, bytesFromBack: int, events: seq<Event>)
    requires Inv(shared, bytesFromBack, s)
    requires After(s, shared, bytesFromBack, events).Some? && AllAssumed(s, shared, bytesFromBack, events)
    ensures Inv(shared, bytesFromBack, After(s, shared, bytesFromBack, events).value)
    decreases |events|
  {
    hide Step, Inv, Assumed;
    if events != [] {
      StepKeepsInv(s, shared, bytesFromBack, events[0]);
      RunKeepsInv(Step(s, shared, bytesFromBack, events[0]).value, shared, bytesFromBack, events[1..]);
    }
  }

  /** At every point of every run, each file the downloader has written is a prefix of
      the shared file it is a copy of, and the open one is as long as the session counts. */
  lemma DownloadsArePrefixes(shared: Files, bytesFromBack: int, disk: Files, requested: set<Name>, events: seq<Event>)
    requires bytesFromBack > 0 ==>
      forall f :: f in requested && f in disk && f in shared ==> disk[f] <= shared[f]
    requires var s := Initial(disk, requested);
      After(s, shared, bytesFromBack, events).Some? && AllAssumed(s, shared, bytesFromBack, events)
    ensures var s := After(Initial(disk, requested), shared, bytesFromBack, events).value;
      && (forall f :: f in s.origin ==>
            f in s.down.disk && s.origin[f] in shared && s.down.disk[f] <= shared[s.origin[f]])
      && (s.down.flags.connected && s.down.currentFileBytesDone >= 0 ==>
            var f := s.down.currentFileName;
            f in s.origin && |s.down.disk[f]| == s.down.currentFileBytesDone)
  {
    hide Step, Assumed;
    RunKeepsInv(Initial(disk, requested), shared, bytesFromBack, events);
  }

  /** Once the uploader has reached the end of a file and nothing is under way, or once
      the count has reached the announced size, the downloaded file is the shared file. */
  lemma FinishedDownloadIsComplete(shared: Files, bytesFromBack: int, s: System)
    requires Inv(shared, bytesFromBack, s)
    requires s.down.flags.connected && s.down.currentFileBytesDone >= 0
    requires || s.down.currentFileBytesDone >= s.down.currentFileSize
             || (s.channel == [] && !s.up.flags.aborted && s.up.currentFileBytesDone < 0)
    ensures var f := s.down.currentFileName; s.down.disk[f] == shared[s.origin[f]]
  {
    var f := s.down.currentFileName;
    assert |s.down.disk[f]| == |shared[s.origin[f]]|;
  }

  /** No event, in any state, shortens or alters what is already on disk. */
  lemma StepsOnlyAppend(s: System, shared: Files, bytesFromBack: int, e: Event)
    requires Step(s, shared, bytesFromBack, e).Some?
    ensures var next := Step(s, shared, bytesFromBack, e).value;
      forall f :: f in s.down.disk ==> f in next.down.disk && s.down.disk[f] <= next.down.disk[f]
  {
    hide Chunk.Decode, PossibleIO, UploadStep, Granted, OnHeader, OnData;
    match e
    case DeliverHeader(newName, openOk) =>
      HeaderOnlyAppends(s.down, s.channel[0], newName, openOk);
    case DeliverData(written) =>
      DataOnlyAppends(s.down, s.channel[0].chunk, written);
    case _ =>
  }

  lemma HeaderOnlyAppends(d: Download, h: Message, newName: Option<Name>, openOk: bool)
    requires h.FileHeader? && PossibleNewName(d.disk, h.name, newName)
    ensures var down := OnHeader(d, h.name, h.size, h.startOffset, newName, openOk);
      forall f :: f in d.disk ==> f in down.disk && d.disk[f] <= down.disk[f]
  {
  }

  lemma DataOnlyAppends(d: Download, chunk: Chunk.DataMessage, written: nat)
    ensures var down := OnData(d, chunk, written);
      forall f :: f in d.disk ==> f in down.disk && d.disk[f] <= down.disk[f]
  {
    hide Chunk.Decode;
  }

  // ---------- Requests and restarts ----------

  function Requests(d: Download): set<Name> {
    d.fileSet + d.origFileSet
  }

  /** A file that is completed by a chunk will not be requested again if and only if it
      was not renamed: the sets are keyed by the requested name, and it is the name on
      disk that is taken out. */
  lemma CompletedIsForgottenIff(d: Download, name: Name, chunk: Chunk.DataMessage, written: nat)
    requires d.flags.connected && !d.flags.uploadSession && name !in d.fileSet && name in d.origFileSet
    requires var next := OnData(d, chunk, written);
             next.flags.connected && next.currentFileBytesDone >= next.currentFileSize
    ensures name !in Requests(OnData(d, chunk, written)) <==> d.currentFileName == name
  {
    hide Chunk.Decode;
  }

  lemma HeaderOnlyShrinks(d: Download, name: Name, size: nat, startOffset: Option<int>, newName: Option<Name>,
                          openOk: bool)
    ensures Requests(OnHeader(d, name, size, startOffset, newName, openOk)) <= Requests(d)
  {
    hide Appends;
  }

  lemma DataOnlyShrinks(d: Download, chunk: Chunk.DataMessage, written: nat)
    ensures Requests(OnData(d, chunk, written)) <= Requests(d)
  {
    hide Chunk.Decode;
  }

  lemma RequestsOnlyShrink(s: System, shared: Files, bytesFromBack: int, e: Event)
    requires Step(s, shared, bytesFromBack, e).Some?
    ensures Requests(Step(s, shared, bytesFromBack, e).value.down) <= Requests(s.down)
  {
    hide PossibleIO, UploadStep, Granted, PossibleNewName, OnHeader, OnData;
    match e
    case DeliverHeader(newName, openOk) =>
      var h := s.channel[0];
      HeaderOnlyShrinks(s.down, h.name, h.size, h.startOffset, newName, openOk);
    case DeliverData(written) =>
      DataOnlyShrinks(s.down, s.channel[0].chunk, written);
    case _ =>
  }

  /** What is no longer requested never is again, through any disconnections and restarts. */
  lemma {:induction false} ForgottenStaysForgotten(s: System, shared: Files, bytesFromBack: int,
                                                   events: seq<Event>, f: Name)
    requires After(s, shared, bytesFromBack, events).Some? && f !in Requests(s.down)
    ensures f !in Requests(After(s, shared, bytesFromBack, events).value.down)
    decreases |events|
  {
    hide Step, Requests;
    if events != [] {
      var next := Step(s, shared, bytesFromBack, events[0]).value;
      RequestsOnlyShrink(s, shared, bytesFromBack, events[0]);
      ForgottenStaysForgotten(next, shared, bytesFromBack, events[1..], f);
    }
  }

  /** The session gave up a connection and went back to waiting, unasked. */
  predicate RestartsItself(s: System, e: Event, next: System) {
    !e.UserRestart? && s.down.flags.connected && !next.down.flags.connected && next.down.flags.waitingOnLocal
  }

  predicate AcceptsChunk(e: Event, next: System) {
    e.DeliverData? && next.down.flags.autoRestart
  }

  /** Accepted chunks minus restarts, over a run. */
  ghost function Credit(s: System, shared: Files, bytesFromBack: int, events: seq<Event>): int
    requires After(s, shared, bytesFromBack, events).Some?
    decreases |events|
  {
    if events == [] then 0
    else
      var next := Step(s, shared, bytesFromBack, events[0]).value;
      (if AcceptsChunk(events[0], next) then 1 else 0) - (if RestartsItself(s, events[0], next) then 1 else 0)
      + Credit(next, shared, bytesFromBack, events[1..])
  }

  function Due(s: System): int {
    if s.down.flags.autoRestart then 1 else 0
  }

  lemma RestartIsPaidFor(s: System, shared: Files, bytesFromBack: int, e: Event)
    requires Step(s, shared, bytesFromBack, e).Some?
    ensures var next := Step(s, shared, bytesFromBack, e).value;
            Due(next) <=
              Due(s) + (if AcceptsChunk(e, next) then 1 else 0) - (if RestartsItself(s, e, next) then 1 else 0)
  {
    hide Chunk.Decode, PossibleIO, UploadStep, Granted, PossibleNewName, Appends;
  }

  /** No endless cycling: in every run the downloader accepts at least as many chunks as
      it restarts itself, and one more while another restart is due. */
  lemma {:induction false} RestartsArePaidFor(s: System, shared: Files, bytesFromBack: int, events: seq<Event>)
    requires After(s, shared, bytesFromBack, events).Some?
    ensures Due(After(s, shared, bytesFromBack, events).value) - Due(s) <= Credit(s, shared, bytesFromBack, events)
    decreases |events|
  {
    hide Step, Due, AcceptsChunk, RestartsItself;
    if events != [] {
      var next := Step(s, shared, bytesFromBack, events[0]).value;
      RestartIsPaidFor(s, shared, bytesFromBack, events[0]);
      RestartsArePaidFor(next, shared, bytesFromBack, events[1..]);
    }
  }

  // ---------- Where the assumptions are needed ----------

  /** A header that asks to continue a file opens one of the promised length exactly
      when the partial file still has that length; otherwise the new, empty file is
      counted as if the earlier bytes were in it. */
  lemma HeaderInStepIff(d: Download, h: Message, newName: Option<Name>, openOk: bool)
    requires d.flags.connected && h.FileHeader? && PossibleNewName(d.disk, h.name, newName)
    requires OnHeader(d, h.name, h.size, h.startOffset, newName, openOk).flags.connected
    ensures var down := OnHeader(d, h.name, h.size, h.startOffset, newName, openOk);
            var startByte := Offset(h.startOffset);
            && down.currentFileName in down.disk
            && (|down.disk[down.currentFileName]| == down.currentFileBytesDone
                <==> startByte <= 0 || Appends(d.disk, h.name, startByte))
  {
  }

  /** Opening the next file keeps the downloader in step with the uploader if and only
      if the file can be positioned (or there is nothing to tell apart: the file before
      it was the same empty one). */
  lemma OpeningInStepIff(shared: Files, disk: Files, openFile: Option<Name>, up: Upload, io: FileIO, d: Cursor)
    requires PossibleIO(up, shared, io) && Level(shared, d, up)
    requires !up.flags.waitingOnLocal && !up.flags.aborted && up.currentFileBytesDone < 0 && up.pending != []
    requires Continuable(disk, shared, openFile, up.pending[0])
    ensures var r := UploadStep(up, shared, io);
            Stream(shared, d, r.sent, r.next) <==>
              SeekWorks(up, io) || (up.pending[0].offset == 0 && d == At(up.pending[0].name, 0))
  {
    hide Chunk.Decode, Chunk.Encode;
    if SeekWorks(up, io) {
      OpenFromLevel(shared, disk, openFile, up, io, d);
    }
  }

  /** A file that opens but cannot be positioned is sent without a header, so that
      its bytes end up behind the complete file before it. */
  lemma UnpositionedFileIsAppended(shared: Files, up: Upload, d: Download, a: Name, b: Name, count: nat)
    requires !up.flags.waitingOnLocal && !up.flags.aborted && up.currentFileBytesDone < 0 && up.pending == [Grant(b, 0)]
    requires a in shared && b in shared && 0 < count <= CHUNK_SIZE && count <= |shared[b]|
    requires !d.flags.uploadSession && d.openFile == Some(a) && a in d.disk && d.disk[a] == shared[a]
    ensures var opening := OpenIO(true, false);
            PossibleIO(up, shared, opening) && !SeekWorks(up, opening)
    ensures var first := UploadStep(up, shared, OpenIO(true, false));
            && first.sent == [] && PossibleIO(first.next, shared, ReadIO(count))
            && var second := UploadStep(first.next, shared, ReadIO(count));
            && |second.sent| == 1 && second.sent[0].FileData?
            && !(OnData(d, second.sent[0].chunk, count).disk[a] <= shared[a])
  {
    Chunk.ReceiveAfterSend(shared[b][0..count], up.mungeMode);
  }

  /** The name that a header's file will be written under. */
  function Target(d: Download, h: Message, newName: Option<Name>): Name
    requires h.FileHeader?
  {
    if Appends(d.disk, h.name, Offset(h.startOffset)) || newName.None? then h.name else newName.value
  }

  /** With partial hashes, an accepted header keeps what is on disk under requested names
      in step if and only if the name that will be written is that of no other request. */
  lemma HeaderKeepsRequestedIff(s: System, shared: Files, h: Message, newName: Option<Name>, openOk: bool)
    requires RequestedArePrefixes(shared, s) && s.down.flags.connected
    requires h.FileHeader? && PossibleNewName(s.down.disk, h.name, newName)
    requires OnHeader(s.down, h.name, h.size, h.startOffset, newName, openOk).flags.connected
    ensures var down := OnHeader(s.down, h.name, h.size, h.startOffset, newName, openOk);
            var target := Target(s.down, h, newName);
            && down.currentFileName == target
            && (RequestedArePrefixes(shared, s.(down := down, origin := s.origin[target := h.name])) <==>
                  || target == h.name
                  || target !in (s.down.fileSet - {h.name}) + (s.down.origFileSet - {s.down.currentFileName}))
  {
    AcceptedHeader(s.down, h, newName, openOk);
    var down := OnHeader(s.down, h.name, h.size, h.startOffset, newName, openOk);
    hide OnHeader;
    if down.currentFileName == h.name || down.currentFileName !in Requests(down) {
      RenamedKeepsRequested(s, shared, h.name, down);
    }
  }

  lemma RenamedKeepsRequested(s: System, shared: Files, name: Name, down: Download)
    requires RequestedArePrefixes(shared, s)
    requires Requests(down) <= Requests(s.down)
    requires var target := down.currentFileName;
             && (target == name || target !in Requests(down))
             && (down.disk == s.down.disk || (target !in s.down.disk && down.disk == s.down.disk[target := []]))
    ensures RequestedArePrefixes(shared, s.(down := down, origin := s.origin[down.currentFileName := name]))
  {
  }

  /** What goes wrong otherwise: a file a that had to be renamed is written as b, which is
      requested too. When the connection drops in the middle, b is requested again and, as
      the bytes before that point end alike in both files, it is granted an offset. */
  lemma NameClashIsGranted(shared: Files, d: Download, a: Name, b: Name, chunk: seq<Byte>, end: seq<Byte>)
    requires d.flags.connected && !d.flags.uploadSession && a in d.fileSet && b in d.origFileSet
    requires a != b && d.currentFileName != b && a in d.disk && b !in d.disk && a in shared && b in shared
    requires chunk < shared[a] && |chunk| <= |shared[b]| && !(chunk <= shared[b])
    requires 0 < |end| <= |chunk| && end == chunk[|chunk| - |end|..] == shared[b][|chunk| - |end|..|chunk|]
    ensures PossibleNewName(d.disk, a, Some(b))
    ensures var begun := OnHeader(d, a, |shared[a]|, None, Some(b), true);
            var written := OnData(begun, Chunk.Encode(chunk, Chunk.MUNGE_MODE_NONE), |chunk|);
            var dropped := Disconnected(written);
            && dropped.flags.waitingOnLocal && b in dropped.fileSet
            && b in dropped.disk && !(dropped.disk[b] <= shared[b])
            && Granted(dropped.disk, shared, |end|, Grant(b, |chunk|))
  {
    hide OnHeader, OnData, Disconnected, Chunk.Decode, Chunk.Encode, Granted;
    var begun := OnHeader(d, a, |shared[a]|, None, Some(b), true);
    RenamedHeader(d, a, |shared[a]|, b);
    var written := OnData(begun, Chunk.Encode(chunk, Chunk.MUNGE_MODE_NONE), |chunk|);
    FirstChunk(begun, b, chunk);
    DropRestarts(written);
    SameEndIsGranted(written.disk, shared, b, end);
  }

  lemma RenamedHeader(d: Download, a: Name, size: nat, b: Name)
    requires !d.flags.uploadSession && a in d.fileSet
    ensures OnHeader(d, a, size, None, Some(b), true) ==
      d.(disk := d.disk[b := []], fileSet := d.fileSet - {a}, origFileSet := d.origFileSet - {d.currentFileName},
         currentFileName := b, currentFileSize := size, openFile := Some(b),
         currentFileIndex := d.currentFileIndex + 1, currentFileBytesDone := 0)
  {
  }

  lemma FirstChunk(d: Download, b: Name, chunk: seq<Byte>)
    requires !d.flags.uploadSession && d.openFile == Some(b) && b in d.disk && d.disk[b] == []
    requires d.currentFileBytesDone == 0 && |chunk| < d.currentFileSize
    ensures OnData(d, Chunk.Encode(chunk, Chunk.MUNGE_MODE_NONE), |chunk|) ==
      d.(disk := d.disk[b := chunk], flags := d.flags.(autoRestart := true), currentFileBytesDone := |chunk|)
  {
    hide Chunk.Decode, Chunk.Encode;
    Chunk.ReceiveAfterSend(chunk, Chunk.MUNGE_MODE_NONE);
    assert d.disk[b] + chunk == chunk;
  }

  lemma DropRestarts(d: Download)
    requires d.currentFileBytesDone < d.currentFileSize && d.flags.autoRestart
    ensures var dropped := Disconnected(d);
            dropped.flags.waitingOnLocal && dropped.fileSet == d.origFileSet && dropped.disk == d.disk
  {
  }

  lemma SameEndIsGranted(disk: Files, shared: Files, b: Name, end: seq<Byte>)
    requires b in disk && b in shared && 0 < |end| <= |disk[b]| <= |shared[b]|
    requires end == disk[b][|disk[b]| - |end|..] == shared[b][|disk[b]| - |end|..|disk[b]|]
    ensures Granted(disk, shared, |end|, Grant(b, |disk[b]|))
  {
    hide Rfc.Digest;
    assert disk[b][|disk[b]| - |end|..|disk[b]|] == end;
  }
}

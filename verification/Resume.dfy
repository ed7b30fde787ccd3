/** The resume handshake: what the downloader says about a partial file, and how
    the uploader checks it against its own copy before granting a start offset. */
module Resume {
  import opened Words
  import opened Wrappers
  import opened HashFile
  import Rfc = Rfc1321

  const MD5_DIGEST_SIZE := 16

  /** One file of a TRANSFER_COMMAND_FILE_LIST message. */
  datatype Request = Request(offset: Int64, numBytes: Option<Int64>, md5: seq<Byte>)

  function Min(x: int, y: int): int {
    if x < y then x else y
  }

  /** How much of the end of a partial file of `size` bytes gets hashed. */
  function TailLength(size: nat, bytesFromBack: int): nat {
    if bytesFromBack <= 0 then size else Min(bytesFromBack, size)
  }

  /** What a downloader sends whose seek, if it does one, works. */
  ghost function Describe(partial: seq<Byte>, bytesFromBack: int): Request
    requires |partial| < 0x8000_0000_0000_0000
  {
    var n := TailLength(|partial|, bytesFromBack);
    Request(|partial|,
            if bytesFromBack > 0 then Some(n) else None,
            if |partial| > 0 then Rfc.Digest(partial[|partial| - n..|partial|]) else [0])
  }

  /** What one sends that could not hash its file: an offset of zero. */
  predicate Blank(req: Request) {
    req.offset == 0 && req.md5 == [0]
  }

  /** One round of MD5SendLooper's loop over its files. */
  method DescribePartial(file: File?, bytesFromBack: Int64, io: HashIO) returns (req: Request)
    requires file != null ==> file.CacheCoherent() && |file.content| < 0x8000_0000_0000_0000
    modifies file
    ensures file != null ==>
      && file.content == old(file.content) && file.modTime == old(file.modTime) && file.CacheCoherent()
    ensures file == null ==> Blank(req)
    ensures file != null ==>
      var slice := old(file.Hashed(0, bytesFromBack, io));
      if slice.None? || |file.content| == 0 then Blank(req)
      else
        && slice.value.from <= slice.value.to <= |file.content|
        && req == Describe(file.content, bytesFromBack).(
                    md5 := Rfc.Digest(file.content[slice.value.from..slice.value.to]))
  {
    hide Rfc.Digest;
    if file != null {
      HashesTail(file, bytesFromBack, io);
    }
    var ok, fileOffset, hashed, digest := HashFileMD5(file, 0, bytesFromBack, io);
    var numBytes := None;
    if bytesFromBack > 0 {
      numBytes := Some(hashed);
    }
    req := Request(fileOffset, numBytes, if fileOffset > 0 then digest else [0]);
  }

  /** The (len, offset) with which the uploader calls HashFileMD5: the two variables
      trade roles when the request carries a usable byte count. */
  function VerifierArguments(req: Request): (Int64, Int64)
    requires req.offset > 0
  {
    match req.numBytes
    case None => (req.offset, 0)
    case Some(n) =>
      if n <= req.offset then (n, MinusInt64(req.offset, n)) else (req.offset, n)
  }

  /** One round of MD5ReceiveLooper's loop; a well-formed digest is 16 bytes long. */
  method VerifyRequest(file: File?, req: Request, io: HashIO) returns (granted: int)
    requires file != null ==> file.CacheCoherent() && |file.content| < 0x8000_0000_0000_0000
    modifies file
    ensures file != null ==>
      && file.content == old(file.content) && file.modTime == old(file.modTime) && file.CacheCoherent()
    ensures req.offset <= 0 ==> granted == req.offset
    ensures req.offset > 0 ==> granted == 0 || granted == req.offset
    ensures req.offset > 0 ==>
      (granted == req.offset <==>
        && file != null && |req.md5| == MD5_DIGEST_SIZE
        && var (len, offset) := VerifierArguments(req);
           var slice := old(file.Hashed(len, offset, io));
        && slice.Some? && slice.value.from <= slice.value.to <= |file.content|
        && Rfc.Digest(file.content[slice.value.from..slice.value.to]) == req.md5)
  {
    hide Rfc.Digest;
    granted := req.offset;
    if req.offset > 0 {
      granted := 0;
      if |req.md5| == MD5_DIGEST_SIZE {
        var offset: Int64 := req.offset;
        var readLength: Int64 := 0;
        if req.numBytes.Some? {
          readLength := req.numBytes.value;
          if readLength <= offset {
            var temp := readLength;
            readLength := MinusInt64(offset, readLength);
            offset := temp;
          }
        }
        var ok, newLen, hashed, digest := HashFileMD5(file, offset, readLength, io);
        if ok && digest == req.md5 {
          granted := req.offset;
        }
      }
    }
  }

  /** Both sides hash the same interval: the last n bytes before the offset. */
  lemma SameInterval(partial: seq<Byte>, bytesFromBack: Int64, sourceSize: nat)
    requires 0 < |partial| < 0x8000_0000_0000_0000
    ensures var n := TailLength(|partial|, bytesFromBack);
            var (len, offset) := VerifierArguments(Describe(partial, bytesFromBack));
            && Intended(0, bytesFromBack, |partial|) == Some(Slice(|partial| - n, |partial|))
            && Intended(len, offset, sourceSize) ==
                 if |partial| <= sourceSize then Some(Slice(|partial| - n, |partial|)) else None
  {
    hide Rfc.Digest;
  }

  /** What a granted, non-zero start offset tells about the two files. */
  ghost predicate Verified(partial: seq<Byte>, source: seq<Byte>, bytesFromBack: int) {
    var from := |partial| - TailLength(|partial|, bytesFromBack);
    && |partial| <= |source|
    && Rfc.Digest(partial[from..|partial|]) == Rfc.Digest(source[from..|partial|])
  }

  /** Both hashed the same number of bytes, with the same digest; a peer whose seek failed
      hashed them from the start of its file. */
  ghost predicate Agree(partial: seq<Byte>, source: seq<Byte>, bytesFromBack: int,
                        soughtHere: bool, soughtThere: bool)
  {
    var n := TailLength(|partial|, bytesFromBack);
    var here := if soughtHere then |partial| - n else 0;
    var there := if soughtThere then |partial| - n else 0;
    && 0 < |partial| <= |source|
    && Rfc.Digest(partial[here..here + n]) == Rfc.Digest(source[there..there + n])
  }

  /** Where both seeks work, this is what a granted offset should tell. */
  lemma SoughtAgreeIff(partial: seq<Byte>, source: seq<Byte>, bytesFromBack: int)
    ensures Agree(partial, source, bytesFromBack, true, true) <==>
      0 < |partial| && Verified(partial, source, bytesFromBack)
  {
    hide Rfc.Digest;
  }

  /** Where a seek fails, files whose tails differ are granted the offset if what was
      hashed instead is the same, as for two files that start alike. */
  lemma UnsoughtAgree(partial: seq<Byte>, source: seq<Byte>, bytesFromBack: int)
    requires 0 < bytesFromBack < |partial| <= |source|
    requires partial[..bytesFromBack] == source[..bytesFromBack]
    ensures Agree(partial, source, bytesFromBack, false, false)
  {
    hide Rfc.Digest;
    assert partial[0..0 + bytesFromBack] == source[0..0 + bytesFromBack];
  }

  /** What the downloader hashes of its partial file. */
  lemma HashesTail(file: File, bytesFromBack: Int64, io: HashIO)
    requires |file.content| < 0x8000_0000_0000_0000
    ensures var size, slice := |file.content|, file.Hashed(0, bytesFromBack, io);
            var n := TailLength(size, bytesFromBack);
            slice.Some? ==> slice.value == (if io.seekOk then Slice(size - n, size) else Slice(0, n))
    ensures Undisturbed(io.replies) ==> file.Hashed(0, bytesFromBack, io).Some?
  {
    hide Interrupted;
    var size := |file.content|;
    var n := TailLength(size, bytesFromBack);
    if Undisturbed(io.replies) {
      UndisturbedIff(io.replies, size, if io.seekOk then size - n else 0, n);
    }
  }

  /** What the uploader hashes of its own file in reply. */
  lemma HashesInterval(file: File, partial: seq<Byte>, bytesFromBack: Int64, io: HashIO)
    requires |file.content| < 0x8000_0000_0000_0000 && 0 < |partial| < 0x8000_0000_0000_0000
    ensures var n := TailLength(|partial|, bytesFromBack);
            var (len, offset) := VerifierArguments(Describe(partial, bytesFromBack));
            var slice := file.Hashed(len, offset, io);
            && (slice.Some? ==>
                  |partial| <= |file.content|
                  && slice.value == (if io.seekOk then Slice(|partial| - n, |partial|) else Slice(0, n)))
            && (Undisturbed(io.replies) && |partial| <= |file.content| ==> slice.Some?)
  {
    hide Interrupted, Rfc.Digest;
    var size := |file.content|;
    var n := TailLength(|partial|, bytesFromBack);
    if Undisturbed(io.replies) && |partial| <= size {
      UndisturbedIff(io.replies, size, if io.seekOk then |partial| - n else 0, n);
    }
    if |partial| > size {
      NotThereInterrupts(io.replies, size, |partial| - n, n);
    }
  }

  /** The whole exchange for one file. */
  method Handshake(partial: File?, source: File?, bytesFromBack: Int64, here: HashIO, there: HashIO)
    returns (granted: int)
    requires partial != null ==> partial.CacheCoherent() && |partial.content| < 0x8000_0000_0000_0000
    requires source != null ==> source.CacheCoherent() && |source.content| < 0x8000_0000_0000_0000
    requires partial == null || partial != source
    modifies partial, source
    ensures partial != null ==> partial.content == old(partial.content)
    ensures source != null ==> source.content == old(source.content)
    ensures partial == null ==> granted == 0
    ensures partial != null ==> granted == 0 || granted == |partial.content|
    ensures granted > 0 ==>
      && partial != null && source != null
      && Agree(partial.content, source.content, bytesFromBack, here.seekOk, there.seekOk)
    ensures partial != null && source != null && Undisturbed(here.replies) && Undisturbed(there.replies) ==>
      (granted > 0 <==> Agree(partial.content, source.content, bytesFromBack, here.seekOk, there.seekOk))
  {
    hide Rfc.Digest, Interrupted, DigestedSlice;
    if partial != null {
      HashesTail(partial, bytesFromBack, here);
      if source != null && |partial.content| > 0 {
        HashesInterval(source, partial.content, bytesFromBack, there);
      }
    }
    var req := DescribePartial(partial, bytesFromBack, here);
    granted := VerifyRequest(source, req, there);
  }

  /** Without partial hashing, and unless two different contents share a digest, a
      granted offset means that the partial file is a prefix of the source. */
  lemma FullVerificationIsPrefix(partial: seq<Byte>, source: seq<Byte>)
    requires Verified(partial, source, 0)
    requires Rfc.Digest(partial) == Rfc.Digest(source[..|partial|]) ==> partial == source[..|partial|]
    ensures partial <= source
  {
    assert partial[0..|partial|] == partial && source[0..|partial|] == source[..|partial|];
  }
}

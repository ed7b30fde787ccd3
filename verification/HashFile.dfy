/** HashFileMD5: the MD5 of a slice of a file, read in pieces, with a cached
    digest for the whole file. */
module HashFile {
  import opened Words
  import opened Wrappers
  import Rfc = Rfc1321
  import Md5

  type Int64 = i: int | -0x8000_0000_0000_0000 <= i < 0x8000_0000_0000_0000

  /** 64-bit addition that wraps. */
  function PlusInt64(x: Int64, y: Int64): Int64 {
    var s := x as int + y as int;
    if s >= 0x8000_0000_0000_0000 then s - 0x1_0000_0000_0000_0000
    else if s < -0x8000_0000_0000_0000 then s + 0x1_0000_0000_0000_0000
    else s
  }

  function MinusInt64(x: Int64, y: Int64): Int64 {
    var d := x as int - y as int;
    if d >= 0x8000_0000_0000_0000 then d - 0x1_0000_0000_0000_0000
    else if d < -0x8000_0000_0000_0000 then d + 0x1_0000_0000_0000_0000
    else d
  }

  /** The "BeShare:HashMD5" attribute: file size, digest, low 32 bits of the mtime. */
  datatype CachedHash = CachedHash(size: int, digest: seq<Byte>, mtime: Word)

  class File {
    var content: seq<Byte>
    var modTime: int
    var attribute: Option<CachedHash>

    /** A cached hash that matches the file's size and time is the file's digest. */
    ghost predicate CacheCoherent()
      reads this
    {
      attribute.Some? && attribute.value.size == |content| && attribute.value.mtime == Wrap(modTime)
      ==> attribute.value.digest == Rfc.Digest(content)
    }

    /** BFile::Read at a position, of at most n bytes. */
    method Read(pos: nat, n: nat, io: seq<ReadIO>) returns (data: seq<Byte>)
      ensures var k := Taken(io, |content|, pos, n);
              |data| == k && (k > 0 ==> data == content[pos..pos + k])
    {
      var k := Taken(io, |content|, pos, n);
      data := if k > 0 then content[pos..pos + k] else [];
    }

    /** The slice that a call of HashFileMD5 digests, if it succeeds. */
    function Hashed(len: Int64, offset: Int64, io: HashIO): Option<Slice>
      reads this
    {
      if Cached(attribute, len, offset, |content|, modTime) then Some(Slice(0, |content|))
      else DigestedSlice(len, offset, |content|, io)
    }
  }

  // ---------- Input and output ----------

  /** What one read call does: it returns at most `count` bytes, none when that is not
      positive, as at the end of the file or after an error; and whether the shutdown
      flag is seen after it. */
  datatype ReadIO = ReadIO(count: int, shutdown: bool)

  /** What happens during one call of HashFileMD5. Reads that are not listed return all
      that is asked for and there is. */
  datatype HashIO = HashIO(seekOk: bool, replies: seq<ReadIO>)

  /** How many bytes the next read of at most n bytes returns. */
  function Taken(replies: seq<ReadIO>, size: nat, pos: nat, n: nat): (k: nat)
    ensures k <= n && (k > 0 ==> pos + k <= size)
  {
    var there := if pos >= size then 0 else if size - pos < n then size - pos else n;
    if replies == [] || replies[0].count >= there then there
    else if replies[0].count > 0 then replies[0].count else 0
  }

  function Later(replies: seq<ReadIO>): seq<ReadIO> {
    if replies == [] then [] else replies[1..]
  }

  const BUFFER_SIZE := 256 * 1024

  /** A read comes back empty before `left` bytes from `pos` on were read, or the shutdown
      flag is seen after a read. */
  predicate Interrupted(replies: seq<ReadIO>, size: nat, pos: nat, left: nat)
    decreases left
  {
    left > 0 &&
      (var k := Taken(replies, size, pos, if left < BUFFER_SIZE then left else BUFFER_SIZE);
       k == 0 || (replies != [] && replies[0].shutdown) || Interrupted(Later(replies), size, pos + k, left - k))
  }

  /** No read fails and the flag is not seen, however short the reads are. */
  predicate Undisturbed(replies: seq<ReadIO>) {
    forall i :: 0 <= i < |replies| ==> replies[i].count > 0 && !replies[i].shutdown
  }

  /** Then only bytes that are not there stop a call. */
  lemma {:induction false} UndisturbedIff(replies: seq<ReadIO>, size: nat, pos: nat, left: nat)
    requires Undisturbed(replies)
    ensures Interrupted(replies, size, pos, left) <==> left > 0 && pos + left > size
    decreases left
  {
    if left > 0 {
      var k := Taken(replies, size, pos, if left < BUFFER_SIZE then left else BUFFER_SIZE);
      if k > 0 {
        UndisturbedIff(Later(replies), size, pos + k, left - k);
      }
    }
  }

  /** Bytes that are not there always stop it. */
  lemma {:induction false} NotThereInterrupts(replies: seq<ReadIO>, size: nat, pos: nat, left: nat)
    requires left > 0 && pos + left > size
    ensures Interrupted(replies, size, pos, left)
    decreases left
  {
    var k := Taken(replies, size, pos, if left < BUFFER_SIZE then left else BUFFER_SIZE);
    if 0 < k < left {
      NotThereInterrupts(Later(replies), size, pos + k, left - k);
    }
  }

  /** So does a read that returns nothing, or after which the flag is seen, unless the reads
      before it can have been enough. */
  lemma {:induction false} FailedReadInterrupts(replies: seq<ReadIO>, size: nat, pos: nat, left: nat, n: nat)
    requires n < |replies| && (replies[n].count <= 0 || replies[n].shutdown) && n * BUFFER_SIZE < left
    ensures Interrupted(replies, size, pos, left)
    decreases n
  {
    var k := Taken(replies, size, pos, if left < BUFFER_SIZE then left else BUFFER_SIZE);
    if n > 0 && k > 0 {
      FailedReadInterrupts(Later(replies), size, pos + k, left - k, n - 1);
    }
  }

  /** The bytes each of the four modes is meant to hash:
      the whole file, its first len bytes, [offset, offset + len), or its last offset bytes. */
  datatype Slice = Slice(from: nat, to: nat)

  function Intended(len: int, offset: int, size: nat): (s: Option<Slice>)
    ensures s.Some? ==> s.value.from <= s.value.to <= size
  {
    if len > size then None
    else if offset <= 0 then Some(Slice(0, if len > 0 then len else size))
    else if len <= 0 then Some(Slice(if offset < size then size - offset else 0, size))
    else if offset + len <= size then Some(Slice(offset, offset + len))
    else None
  }

  /** The range that the code sets out to read. The test for the end of the file wraps
      around for offsets near 2^63. */
  function Attempted(len: Int64, offset: Int64, size: nat): Option<Slice>
    requires size < 0x8000_0000_0000_0000
  {
    if len > size then None
    else if offset > 0 && len > 0 then
      if PlusInt64(offset, len) > size then None else Some(Slice(offset, offset + len))
    else Intended(len, offset, size)
  }

  /** The slice that is digested when nothing is cached: the result of the seek is not
      looked at, so that reading starts at the beginning of the file when it fails. */
  function DigestedSlice(len: Int64, offset: Int64, size: nat, io: HashIO): Option<Slice>
  {
    if size >= 0x8000_0000_0000_0000 then None
    else
      var attempted := Attempted(len, offset, size);
      if attempted.None? then None
      else
        var wanted := attempted.value.to - attempted.value.from;
        var from := if io.seekOk then attempted.value.from else 0;
        if Interrupted(io.replies, size, from, wanted) then None else Some(Slice(from, from + wanted))
  }

  predicate Cached(attribute: Option<CachedHash>, len: Int64, offset: Int64, size: nat, modTime: int) {
    && offset == 0 && (len == 0 || len == size)
    && attribute.Some? && attribute.value.size == size && attribute.value.mtime == Wrap(modTime)
  }

  lemma DigestedIsThere(len: Int64, offset: Int64, size: nat, io: HashIO)
    ensures var s := DigestedSlice(len, offset, size, io); s.Some? ==> s.value.from <= s.value.to <= size
  {
    var attempted := if size < 0x8000_0000_0000_0000 then Attempted(len, offset, size) else None;
    if attempted.Some? {
      var wanted := attempted.value.to - attempted.value.from;
      var from := if io.seekOk then attempted.value.from else 0;
      if wanted > 0 && from + wanted > size {
        NotThereInterrupts(io.replies, size, from, wanted);
      }
    }
  }

  /** A call digests the intended slice if and only if its seek works or it has none to
      do; otherwise it reports success with as many bytes from the start of the file. */
  lemma DigestsIntendedIff(len: Int64, offset: Int64, size: nat, io: HashIO)
    requires DigestedSlice(len, offset, size, io).Some?
    ensures DigestedSlice(len, offset, size, io) == Intended(len, offset, size) <==>
      io.seekOk || offset <= 0 || (len <= 0 && offset >= size)
  {
    DigestedIsThere(len, offset, size, io);
  }

  /** With a working seek a call fails if and only if there is no intended slice, or a
      read of it is interrupted. */
  lemma DigestsUnlessInterrupted(len: Int64, offset: Int64, size: nat, io: HashIO)
    requires io.seekOk && size < 0x8000_0000_0000_0000
    ensures var slice := Intended(len, offset, size);
            DigestedSlice(len, offset, size, io) ==
              if slice.Some? && !Interrupted(io.replies, size, slice.value.from, slice.value.to - slice.value.from)
              then slice else None
  {
    var attempted := Attempted(len, offset, size);
    if attempted.Some? {
      var wanted := attempted.value.to - attempted.value.from;
      if wanted > 0 && attempted.value.to > size {
        NotThereInterrupts(io.replies, size, attempted.value.from, wanted);
      }
    }
  }

  /** However short the reads are, an undisturbed call digests the intended slice. */
  lemma UndisturbedDigestsIntended(len: Int64, offset: Int64, size: nat, io: HashIO)
    requires io.seekOk && Undisturbed(io.replies) && size < 0x8000_0000_0000_0000
    ensures DigestedSlice(len, offset, size, io) == Intended(len, offset, size)
  {
    DigestsUnlessInterrupted(len, offset, size, io);
    var slice := Intended(len, offset, size);
    if slice.Some? {
      UndisturbedIff(io.replies, size, slice.value.from, slice.value.to - slice.value.from);
    }
  }

  lemma OneRead(replies: seq<ReadIO>, size: nat, pos: nat, left: nat)
    ensures left == 0 ==> !Interrupted(replies, size, pos, left)
    ensures left > 0 ==>
      var k := Taken(replies, size, pos, if left < BUFFER_SIZE then left else BUFFER_SIZE);
      Interrupted(replies, size, pos, left) <==>
        k == 0 || (replies != [] && replies[0].shutdown) || Interrupted(Later(replies), size, pos + k, left - k)
  {
  }

  lemma Joined(content: seq<Byte>, start: nat, hashed: nat, data: seq<Byte>)
    requires start + hashed + |data| <= |content|
    requires data == content[start + hashed..start + hashed + |data|]
    ensures content[start..start + hashed] + data == content[start..start + hashed + |data|]
  {
  }

  /** The read loop: MD5 of `wanted` bytes from `start`, however the reads are cut. */
  method HashRange(file: File, start: nat, wanted: nat, io: seq<ReadIO>)
    returns (ok: bool, hashed: nat, digest: seq<Byte>)
    ensures ok <==> !Interrupted(io, |file.content|, start, wanted)
    ensures ok ==> hashed == wanted && (wanted > 0 ==> start + wanted <= |file.content|)
    ensures ok && start + wanted <= |file.content| ==>
      digest == Rfc.Digest(file.content[start..start + wanted])
    ensures hashed <= |file.content|
  {
    hide Rfc.Digest, Md5.MD5Context.Valid, Taken, Interrupted, Later;
    ghost var content := file.content;
    var ctx := new Md5.MD5Context();
    var bytesLeft: nat := wanted;
    var replies := io;
    hashed, digest := 0, Zeros(16);
    OneRead(io, |content|, start, wanted);
    while true
      invariant hashed + bytesLeft == wanted && (wanted > 0 ==> bytesLeft > 0)
      invariant hashed > 0 ==> start + hashed <= |file.content|
      invariant Interrupted(replies, |content|, start + hashed, bytesLeft) == Interrupted(io, |content|, start, wanted)
      invariant ctx.Valid() && fresh(ctx) && fresh(ctx.buf) && fresh(ctx.bytes) && fresh(ctx.input)
      invariant file.content == content
      invariant ctx.msg == if hashed > 0 then content[start..start + hashed] else []
      decreases bytesLeft
    {
      var data := file.Read(start + hashed, if bytesLeft < BUFFER_SIZE then bytesLeft else BUFFER_SIZE, replies);
      OneRead(replies, |content|, start + hashed, bytesLeft);
      if |data| == 0 {
        break;
      }
      Joined(content, start, hashed, data);
      hashed := hashed + |data|;
      if replies != [] && replies[0].shutdown {
        return false, hashed, digest;
      }
      replies := Later(replies);
      ctx.Update(data);
      if |data| < bytesLeft {
        bytesLeft := bytesLeft - |data|;
      } else {
        OneRead(replies, |content|, start + hashed, 0);
        bytesLeft := 0;
        break;
      }
    }
    if bytesLeft > 0 {
      return false, hashed, digest;
    }
    assert start + wanted <= |content| ==> ctx.msg == content[start..start + wanted];
    digest := ctx.Final();
    ok := true;
  }

  method HashFileMD5(file: File?, len: Int64, offset: Int64, io: HashIO)
    returns (ok: bool, newLen: int, hashed: nat, digest: seq<Byte>)
    requires file != null ==> file.CacheCoherent() && |file.content| < 0x8000_0000_0000_0000
    modifies file
    ensures file == null ==> !ok
    ensures !ok ==> newLen == len
    ensures hashed <= if file == null then 0 else |file.content|
    ensures file != null ==>
      && file.content == old(file.content) && file.modTime == old(file.modTime)
      && file.CacheCoherent()
      && var slice := old(file.Hashed(len, offset, io));
      && (ok <==> slice.Some?)
      && (ok ==>
        && slice.value.from <= slice.value.to <= |file.content|
        && digest == Rfc.Digest(file.content[slice.value.from..slice.value.to])
        && hashed == slice.value.to - slice.value.from
        && newLen == (if len == 0 then |file.content| else len))
      && (ok && offset == 0 && newLen == |file.content| ==>
        file.attribute == Some(CachedHash(|file.content|, digest, Wrap(file.modTime))))
      && (!(ok && offset == 0 && newLen == |file.content|) ==> file.attribute == old(file.attribute))
  {
    hide Rfc.Digest, Interrupted;
    ok, newLen, hashed, digest := false, len, 0, [];
    if file == null {
      return;
    }
    var fileSize := |file.content|;
    var modTime := file.modTime;
    DigestedIsThere(len, offset, fileSize, io);
    if len > 0 && fileSize < len {
      return;
    }
    if offset == 0 && (len == 0 || len == fileSize) && file.attribute.Some? {
      var cached := file.attribute.value;
      if cached.size == fileSize && cached.mtime == Wrap(modTime) {
        assert file.content[0..fileSize] == file.content;
        return true, fileSize, fileSize, cached.digest;
      }
    }

    digest := Zeros(16);
    var bytesLeft := if len > 0 then len else fileSize;
    var start := 0;
    if offset > 0 {
      if len > 0 {
        if PlusInt64(offset, len) > fileSize {
          return;
        }
        start := if io.seekOk then offset else 0;
      } else {
        if offset < fileSize {
          start := if io.seekOk then fileSize - offset else 0;
        }
        bytesLeft := if offset < fileSize then offset else fileSize;
      }
    }

    ok, hashed, digest := HashRange(file, start, bytesLeft, io.replies);
    if !ok {
      return;
    }
    if len == 0 {
      newLen := fileSize;
    }
    if offset == 0 && newLen == fileSize {
      assert file.content[0..fileSize] == file.content;
      file.attribute := Some(CachedHash(fileSize, digest, Wrap(modTime)));
    }
  }
}

/** The digest cache of HashFileMD5 while other parties edit the file and any
    number of whole-file hash calls are in flight. */
module DigestCache {
  import opened Words
  import opened Wrappers
  import opened HashFile
  import Rfc = Rfc1321

  datatype Version = Version(content: seq<Byte>, modTime: int)

  /** A hash call between two of its system calls. */
  datatype Call =
    | Started
    | Sized(size: nat)
    | Sampled(size: nat, mtime: Word)
    | Reading(size: nat, mtime: Word, read: seq<Byte>)

  /** Every version the file has had, the current one last. */
  datatype State = State(history: seq<Version>, attribute: Option<CachedHash>, calls: map<nat, Call>)

  datatype Event =
    | Edit(version: Version)
    | Start(id: nat)
    | GetSize(id: nat)
    | GetModificationTime(id: nat)
    | CacheHit(id: nat, digest: seq<Byte>)
    | CacheMiss(id: nat)
    | Read(id: nat, count: nat)
    | Store(id: nat)
    | Fail(id: nat)

  ghost predicate WellFormed(s: State) {
    s.history != []
  }

  function Current(s: State): Version
    requires s.history != []
  {
    s.history[|s.history| - 1]
  }

  /** What the cache compares: the size and the low 32 bits of the modification time. */
  function Stamp(v: Version): (int, Word) {
    (|v.content|, Wrap(v.modTime))
  }

  predicate Hits(attribute: Option<CachedHash>, size: int, mtime: Word) {
    attribute.Some? && attribute.value.size == size && attribute.value.mtime == mtime
  }

  /** An edit leaves a size and time that the file has not had before. */
  ghost predicate FreshStamp(history: seq<Version>, v: Version) {
    forall i :: 0 <= i < |history| ==> Stamp(history[i]) != Stamp(v)
  }

  /** The state after an event, or None when the event cannot happen. */
  ghost function Step(s: State, e: Event): Option<State>
    requires WellFormed(s)
  {
    match e
    case Edit(v) =>
      if FreshStamp(s.history, v) then Some(s.(history := s.history + [v])) else None
    case Start(id) =>
      if id !in s.calls then Some(s.(calls := s.calls[id := Started])) else None
    case _ =>
      if e.id in s.calls then CallStep(s, e, e.id, s.calls[e.id]) else None
  }

  ghost function CallStep(s: State, e: Event, id: nat, call: Call): Option<State>
    requires WellFormed(s) && id in s.calls
  {
    var current := Current(s).content;
    match (e, call)
    case (GetSize(_), Started) =>
      Some(s.(calls := s.calls[id := Sized(|current|)]))
    case (GetModificationTime(_), Sized(size)) =>
      Some(s.(calls := s.calls[id := Sampled(size, Wrap(Current(s).modTime))]))
    case (CacheHit(_, digest), Sampled(size, mtime)) =>
      if Hits(s.attribute, size, mtime) && digest == s.attribute.value.digest
      then Some(s.(calls := s.calls - {id})) else None
    case (CacheMiss(_), Sampled(size, mtime)) =>
      if !Hits(s.attribute, size, mtime)
      then Some(s.(calls := s.calls[id := Reading(size, mtime, [])])) else None
    case (Read(_, count), Reading(size, mtime, read)) =>
      var end := |read| + count;
      if 0 < count && end <= size && end <= |current|
      then Some(s.(calls := s.calls[id := Reading(size, mtime, read + current[|read|..end])])) else None
    case (Store(_), Reading(size, mtime, read)) =>
      if |read| == size
      then Some(State(s.history, Some(CachedHash(size, Rfc.Digest(read), mtime)), s.calls - {id})) else None
    case (Fail(_), _) =>
      Some(s.(calls := s.calls - {id}))
    case _ => None
  }

  ghost predicate StampIsReal(history: seq<Version>, size: int, mtime: Word) {
    exists i :: 0 <= i < |history| && Stamp(history[i]) == (size, mtime)
  }

  /** The size and time that a call samples, in two system calls, are those of some
      version of the file. */
  ghost predicate SampleIsReal(s: State, e: Event)
    requires WellFormed(s)
  {
    e.GetModificationTime? && e.id in s.calls && s.calls[e.id].Sized?
    ==> StampIsReal(s.history, s.calls[e.id].size, Wrap(Current(s).modTime))
  }

  /** They are when no edit that changed the size fell between the two samples. */
  lemma SameSizeIsReal(s: State, e: Event)
    requires WellFormed(s)
    requires e.GetModificationTime? && e.id in s.calls && s.calls[e.id].Sized?
    requires s.calls[e.id].size == |Current(s).content|
    ensures SampleIsReal(s, e)
  {
    assert Stamp(s.history[|s.history| - 1]) == (s.calls[e.id].size, Wrap(Current(s).modTime));
  }

  /** A call in flight holds a stamp that some version had; while that version is
      still the current one, what was read is a prefix of its content. */
  ghost predicate CallInv(s: State, call: Call)
    requires WellFormed(s)
  {
    (call.Sampled? || call.Reading? ==> StampIsReal(s.history, call.size, call.mtime))
    && (call.Reading? && Stamp(Current(s)) == (call.size, call.mtime) ==> call.read <= Current(s).content)
  }

  ghost predicate Inv(s: State) {
    && WellFormed(s)
    && (forall id :: id in s.calls ==> CallInv(s, s.calls[id]))
    && (s.attribute.Some? ==>
          && StampIsReal(s.history, s.attribute.value.size, s.attribute.value.mtime)
          && (Hits(s.attribute, |Current(s).content|, Wrap(Current(s).modTime)) ==>
                s.attribute.value.digest == Rfc.Digest(Current(s).content)))
  }

  lemma EditKeepsCall(s: State, v: Version, call: Call)
    requires Inv(s) && CallInv(s, call) && FreshStamp(s.history, v)
    ensures CallInv(s.(history := s.history + [v]), call)
  {
    if call.Sampled? || call.Reading? {
      var i :| 0 <= i < |s.history| && Stamp(s.history[i]) == (call.size, call.mtime);
      assert (s.history + [v])[i] == s.history[i];
    }
  }

  lemma EditKeepsInv(s: State, v: Version)
    requires Inv(s) && FreshStamp(s.history, v)
    ensures Inv(s.(history := s.history + [v]))
  {
    hide Rfc.Digest;
    var s' := s.(history := s.history + [v]);
    forall id | id in s'.calls ensures CallInv(s', s'.calls[id]) {
      EditKeepsCall(s, v, s.calls[id]);
    }
    if s.attribute.Some? {
      var i :| 0 <= i < |s.history| && Stamp(s.history[i]) == (s.attribute.value.size, s.attribute.value.mtime);
      assert s'.history[i] == s.history[i];
    }
  }

  /** A step keeps the invariant if and only if what it samples is real. */
  lemma StepKeepsInvIff(s: State, e: Event)
    requires Inv(s) && Step(s, e).Some?
    ensures Inv(Step(s, e).value) <==> SampleIsReal(s, e)
  {
    hide Rfc.Digest;
    match e
    case Edit(v) =>
      EditKeepsInv(s, v);
    case GetModificationTime(id) =>
      var call := Step(s, e).value.calls[id];
      assert CallInv(Step(s, e).value, call) <==> StampIsReal(s.history, call.size, call.mtime);
    case Store(id) =>
      var call := s.calls[id];
      if Stamp(Current(s)) == (call.size, call.mtime) {
        assert call.read == Current(s).content;
      }
    case _ =>
  }

  /** A cache hit that does not return the digest of the file's current content. */
  ghost predicate StaleHit(s: State, e: Event) {
    WellFormed(s) && e.CacheHit? && e.digest != Rfc.Digest(Current(s).content)
  }

  /** No edit came between the call's sampling and its reading of the attribute. */
  ghost predicate SampleIsCurrent(s: State, e: Event)
    requires WellFormed(s)
  {
    e.CacheHit? && e.id in s.calls && s.calls[e.id].Sampled?
    ==> Stamp(Current(s)) == (s.calls[e.id].size, s.calls[e.id].mtime)
  }

  /** The state after a run from a file without a cached hash. */
  ghost function After(v: Version, events: seq<Event>): (s: Option<State>)
    ensures s.Some? ==> WellFormed(s.value)
  {
    if events == [] then Some(State([v], None, map[]))
    else
      var before := After(v, events[..|events| - 1]);
      if before.None? then None else Step(before.value, events[|events| - 1])
  }

  ghost predicate AllSamplesReal(v: Version, events: seq<Event>) {
    forall i :: 0 <= i < |events| && After(v, events[..i]).Some? ==>
      SampleIsReal(After(v, events[..i]).value, events[i])
  }

  lemma {:induction false} RunKeepsInv(v: Version, events: seq<Event>)
    requires After(v, events).Some? && AllSamplesReal(v, events)
    ensures Inv(After(v, events).value)
  {
    if events != [] {
      var n := |events| - 1;
      forall i | 0 <= i < n && After(v, events[..n][..i]).Some?
        ensures SampleIsReal(After(v, events[..n][..i]).value, events[..n][i])
      {
        assert events[..n][..i] == events[..i];
      }
      RunKeepsInv(v, events[..n]);
      StepKeepsInvIff(After(v, events[..n]).value, events[n]);
    }
  }

  /** In every run whose calls sample what some version had, a cache hit is the digest of
      the current content, whatever edits happened before the call sampled, also in the
      middle of the hashing that filled the cache, if none came between the call's
      sampling and its reading of the attribute. */
  lemma CacheHitsAreFresh(v: Version, events: seq<Event>, e: Event)
    requires After(v, events).Some? && AllSamplesReal(v, events)
    requires Step(After(v, events).value, e).Some? && SampleIsCurrent(After(v, events).value, e)
    ensures !StaleHit(After(v, events).value, e)
  {
    hide Rfc.Digest;
    RunKeepsInv(v, events);
  }

  // ---------- Where an edit came in between ----------

  /** A hit whose sample is not current any more is right only by chance: it is stale
      already, or one more edit makes it so. */
  lemma OutdatedSampleGoesStale(v: Version, events: seq<Event>, s: State, e: Event, c: seq<Byte>, d: seq<Byte>)
    returns (longer: seq<Event>)
    requires After(v, events) == Some(s) && Step(s, e).Some? && e.CacheHit? && !SampleIsCurrent(s, e)
    requires |c| == |d| > Largest(s.history) && Rfc.Digest(c) != Rfc.Digest(d)
    requires AllSamplesReal(v, events)
    ensures After(v, longer).Some? && Step(After(v, longer).value, e).Some?
    ensures StaleHit(After(v, longer).value, e) && !SampleIsCurrent(After(v, longer).value, e)
  {
    hide Rfc.Digest, After;
    RunKeepsInv(v, events);
    longer := events;
    if !StaleHit(s, e) {
      var t;
      longer, t := Continue(v, events, s, Edit(Version(if Rfc.Digest(c) == e.digest then d else c, 0)));
      assert t.calls == s.calls && t.attribute == s.attribute;
    }
  }

  /** A call that starts and samples undisturbed. */
  lemma Sample(v: Version, events: seq<Event>, s: State, id: nat) returns (longer: seq<Event>, t: State)
    requires After(v, events) == Some(s) && AllSamplesReal(v, events) && id !in s.calls
    ensures After(v, longer) == Some(t) && AllSamplesReal(v, longer)
    ensures t == s.(calls := s.calls[id := Sampled(|Current(s).content|, Wrap(Current(s).modTime))])
  {
    hide Rfc.Digest, After, AllSamplesReal, Wrap;
    longer, t := ContinueReal(v, events, s, Start(id));
    longer, t := ContinueReal(v, longer, t, GetSize(id));
    SameSizeIsReal(t, GetModificationTime(id));
    longer, t := ContinueReal(v, longer, t, GetModificationTime(id));
    assert t.calls == s.calls[id := t.calls[id]];
  }

  lemma StartOfRun(v: Version)
    ensures After(v, []) == Some(State([v], None, map[])) && AllSamplesReal(v, [])
  {
  }

  /** It can even be the digest of content that the file never had: all samples are real,
      one call mixes two versions, and another that sampled as early then hits. */
  lemma MixedDigestIsHit() returns (v: Version, events: seq<Event>, s: State, e: Event)
    ensures After(v, events) == Some(s) && AllSamplesReal(v, events)
    ensures s.history == [Version([0, 0], 0), Version([1, 1], 1)]
    ensures Step(s, e).Some? && e == CacheHit(0, Rfc.Digest([0, 1])) && !SampleIsCurrent(s, e)
  {
    hide Rfc.Digest, After, AllSamplesReal;
    var v1 := Version([1, 1], 1);
    v := Version([0, 0], 0);
    s, events := State([v], None, map[]), [];
    StartOfRun(v);
    events, s := Sample(v, events, s, 0);
    events, s := Sample(v, events, s, 1);
    assert s == State([v], None, map[0 := Sampled(2, 0), 1 := Sampled(2, 0)]);
    events, s := ContinueReal(v, events, s, CacheMiss(1));
    events, s := ContinueReal(v, events, s, Read(1, 1));
    assert [] + [0, 0][0..1] == [0];
    assert s == State([v], None, map[0 := Sampled(2, 0), 1 := Reading(2, 0, [0])]);
    events, s := ContinueReal(v, events, s, Edit(v1));
    assert s == State([v, v1], None, map[0 := Sampled(2, 0), 1 := Reading(2, 0, [0])]);
    events, s := MixedDigestIsStored(v, events, s);
    e := CacheHit(0, Rfc.Digest([0, 1]));
  }

  lemma MixedDigestIsStored(v: Version, events: seq<Event>, s: State) returns (longer: seq<Event>, t: State)
    requires s.history == [Version([0, 0], 0), Version([1, 1], 1)]
    requires s.calls == map[0 := Sampled(2, 0), 1 := Reading(2, 0, [0])]
    requires After(v, events) == Some(s) && AllSamplesReal(v, events)
    ensures After(v, longer) == Some(t) && AllSamplesReal(v, longer)
    ensures t == State(s.history, Some(CachedHash(2, Rfc.Digest([0, 1]), 0)), map[0 := Sampled(2, 0)])
  {
    hide Rfc.Digest, After, AllSamplesReal;
    longer, t := ContinueReal(v, events, s, Read(1, 1));
    assert [0] + [1, 1][1..2] == [0, 1];
    assert t.calls == map[0 := Sampled(2, 0), 1 := Reading(2, 0, [0, 1])];
    longer, t := ContinueReal(v, longer, t, Store(1));
    assert t.calls == map[0 := Sampled(2, 0)];
  }

  lemma ContinueReal(v: Version, events: seq<Event>, s: State, e: Event) returns (longer: seq<Event>, s': State)
    requires After(v, events) == Some(s) && Step(s, e).Some?
    requires AllSamplesReal(v, events) && SampleIsReal(s, e)
    ensures After(v, longer) == Some(s') && Step(s, e) == Some(s') && AllSamplesReal(v, longer)
  {
    hide Step, SampleIsReal;
    longer, s' := events + [e], Step(s, e).value;
    assert longer[..|events|] == events;
    forall i | 0 <= i < |longer| && After(v, longer[..i]).Some?
      ensures SampleIsReal(After(v, longer[..i]).value, longer[i])
    {
      assert longer[..i] == events[..i];
      if i == |events| {
        assert events[..i] == events;
      }
    }
  }

  // ---------- Where the samples are not real ----------

  lemma Continue(v: Version, events: seq<Event>, s: State, e: Event) returns (longer: seq<Event>, s': State)
    requires After(v, events) == Some(s) && Step(s, e).Some?
    ensures After(v, longer) == Some(s') && Step(s, e) == Some(s')
  {
    longer, s' := events + [e], Step(s, e).value;
    assert longer[..|events|] == events;
  }

  function Largest(history: seq<Version>): (n: nat)
    ensures forall i :: 0 <= i < |history| ==> |history[i].content| <= n
  {
    if history == [] then 0
    else
      var n := Largest(history[..|history| - 1]);
      var last := |history[|history| - 1].content|;
      if last > n then last else n
  }

  /** A call that takes such a sample can fill the cache with any content of that size... */
  lemma UnrealSampleIsStored(v: Version, events: seq<Event>, s: State, id: nat, c: seq<Byte>)
    returns (longer: seq<Event>, t: State)
    requires After(v, events) == Some(s) && Inv(s) && id in s.calls && s.calls[id].Sized?
    requires !SampleIsReal(s, GetModificationTime(id)) && |c| == s.calls[id].size > 0
    ensures After(v, longer) == Some(t) && id !in t.calls
    ensures t.attribute == Some(CachedHash(|c|, Rfc.Digest(c), Wrap(Current(s).modTime)))
    ensures !StampIsReal(t.history, |c|, Wrap(Current(s).modTime))
  {
    hide Rfc.Digest, After;
    var size, mtime := s.calls[id].size, Wrap(Current(s).modTime);
    var larger := Version(c + Zeros(Largest(s.history) + 1), 0);
    longer, t := Continue(v, events, s, GetModificationTime(id));
    assert t.calls[id] == Sampled(size, mtime) && !Hits(t.attribute, size, mtime);
    longer, t := Continue(v, longer, t, CacheMiss(id));
    longer, t := Continue(v, longer, t, Edit(larger));
    assert Current(t) == larger && t.calls[id] == Reading(size, mtime, []);
    longer, t := Continue(v, longer, t, Read(id, size));
    assert [] + larger.content[0..size] == c;
    longer, t := Continue(v, longer, t, Store(id));
    assert t.history == s.history + [larger];
  }

  /** ...and the next edit to that size and time, which the file never had, still hits:
      wherever a sample is not real, some continuation of the run gets a stale digest. */
  lemma UnrealSampleGoesStale(v: Version, events: seq<Event>, s: State, id: nat, c: seq<Byte>, d: seq<Byte>)
    returns (longer: seq<Event>)
    requires After(v, events) == Some(s) && Inv(s) && id in s.calls && s.calls[id].Sized?
    requires !SampleIsReal(s, GetModificationTime(id))
    requires |c| == |d| == s.calls[id].size > 0 && Rfc.Digest(c) != Rfc.Digest(d)
    ensures After(v, longer).Some?
    ensures var t, e := After(v, longer).value, CacheHit(id, Rfc.Digest(c));
              Step(t, e).Some? && StaleHit(t, e) && SampleIsCurrent(t, e)
  {
    hide Rfc.Digest, After;
    var time := Current(s).modTime;
    var t;
    longer, t := UnrealSampleIsStored(v, events, s, id, c);
    longer, t := Continue(v, longer, t, Edit(Version(d, time)));
    longer, t := Continue(v, longer, t, Start(id));
    longer, t := Continue(v, longer, t, GetSize(id));
    longer, t := Continue(v, longer, t, GetModificationTime(id));
    assert Current(t) == Version(d, time) && t.calls[id] == Sampled(|d|, Wrap(time));
  }

  /** It takes one edit between the two system calls. */
  lemma TornSample(a: Byte) returns (events: seq<Event>, s: State)
    ensures After(Version([0], 0), events) == Some(s) && Inv(s) && 0 in s.calls && s.calls[0] == Sized(1)
    ensures !SampleIsReal(s, GetModificationTime(0))
  {
    var v0, v1 := Version([0], 0), Version([a, 0], 1);
    s := State([v0], None, map[]);
    events := [];
    assert After(v0, []) == Some(s);
    hide Rfc.Digest, After;
    events, s := Continue(v0, events, s, Start(0));
    events, s := Continue(v0, events, s, GetSize(0));
    events, s := Continue(v0, events, s, Edit(v1));
    assert s.history == [v0, v1];
  }
}

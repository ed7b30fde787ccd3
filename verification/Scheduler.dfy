/** The transfer scheduler: which sessions of the transfer list a pass starts, how
    the uploads are re-sorted, and how pausing, resuming and dequeueing call each other. */
module Scheduler {
  /** A session as the scheduler sees it. `bytesLeft` is GetNumBytesLeftToUpload, which
      DoUpload lowers when a start calls it: `starts` says, for each coming call of
      DoUpload in turn, by how much, and whether it fails. */
  datatype Session = Session(
    id: nat,
    upload: bool,
    remoteSessionID: string,
    bytesLeft: nat,
    connected: bool,
    numFiles: nat,
    starts: seq<Start>,
    flags: Flags)

  datatype Start = Start(bytesOff: nat, aborts: bool)

  datatype Flags = Flags(
    waitingOnLocal: bool,
    finished: bool,
    errorOccurred: bool,
    beginTransferEnabled: bool)

  datatype Limits = Limits(total: nat, perUser: nat)

  datatype Config = Config(uploads: Limits, downloads: Limits, shortestUploadsFirst: bool)

  datatype User = Anyone | Only(id: string)

  predicate IsActive(s: Session) {
    !s.flags.waitingOnLocal && !s.flags.finished
  }

  predicate Counts(s: Session, upload: bool, user: User) {
    s.upload == upload && IsActive(s) && (user.Anyone? || user.id == s.remoteSessionID)
  }

  /** CountActiveSessions */
  function Count(list: seq<Session>, upload: bool, user: User): (n: nat)
    ensures n <= |list|
  {
    if list == [] then 0
    else Count(list[..|list| - 1], upload, user) + if Counts(list[|list| - 1], upload, user) then 1 else 0
  }

  /** What DoUpload leaves behind: nothing more than was left before. */
  function Uploaded(s: Session, start: Start): (t: Session)
    ensures t.bytesLeft <= s.bytesLeft
  {
    s.(bytesLeft := if start.bytesOff < s.bytesLeft then s.bytesLeft - start.bytesOff else 0,
       flags := if start.aborts then s.flags.(finished := true, errorOccurred := true) else s.flags)
  }

  /** BeginTransfer: an upload that is connected already sends at once. */
  function Begin(s: Session): Session {
    if s.flags.beginTransferEnabled && s.flags.waitingOnLocal then
      var begun := s.(flags := s.flags.(waitingOnLocal := false));
      if s.upload && s.connected && s.numFiles > 0 && s.starts != [] then
        Uploaded(begun.(starts := s.starts[1..]), s.starts[0])
      else begun
    else s
  }

  /** A uint32 difference, stored in an int. */
  function ToInt32(x: int): int {
    var w := x % 0x1_0000_0000;
    if w < 0x8000_0000 then w else w - 0x1_0000_0000
  }

  function UserOf(s: Session): User {
    if s.remoteSessionID == "" then Anyone else Only(s.remoteSessionID)
  }

  predicate MayStart(list: seq<Session>, s: Session, upload: bool, perUser: nat) {
    s.upload == upload && s.flags.waitingOnLocal && Count(list, upload, UserOf(s)) < perUser
  }

  /** The loop of DequeueTransferSessions(upload), from index j on. */
  function Scan(list: seq<Session>, j: nat, upload: bool, perUser: nat, numToStart: nat): (r: seq<Session>)
    requires j <= |list|
    ensures |r| == |list|
    decreases |list| - j
  {
    if j == |list| || numToStart == 0 then list
    else if MayStart(list, list[j], upload, perUser) then
      Scan(list[j := Begin(list[j])], j + 1, upload, perUser, numToStart - 1)
    else Scan(list, j + 1, upload, perUser, numToStart)
  }

  /** DequeueTransferSessions(upload) */
  function Pass(list: seq<Session>, upload: bool, limits: Limits): (r: seq<Session>)
    ensures |r| == |list|
  {
    var numToStart := ToInt32(limits.total - Count(list, upload, Anyone));
    if numToStart > 0 then Scan(list, 0, upload, limits.perUser, numToStart) else list
  }

  // ---------- What one pass does ----------

  function Max(x: int, y: int): int {
    if x > y then x else y
  }

  lemma {:induction false} CountAfterUpdate(list: seq<Session>, j: nat, s: Session, upload: bool, user: User)
    requires j < |list|
    ensures Count(list[j := s], upload, user) ==
      Count(list, upload, user)
      - (if Counts(list[j], upload, user) then 1 else 0) + (if Counts(s, upload, user) then 1 else 0)
    decreases |list|
  {
    var n := |list| - 1;
    if j == n {
      assert list[j := s][..n] == list[..n];
    } else {
      assert list[j := s][..n] == list[..n][j := s];
      CountAfterUpdate(list[..n], j, s, upload, user);
    }
  }

  lemma CountLast(list: seq<Session>, upload: bool, user: User)
    requires list != []
    ensures var n := |list| - 1;
            Count(list, upload, user) == Count(list[..n], upload, user) + if Counts(list[n], upload, user) then 1 else 0
  {
    hide Counts;
  }

  lemma {:induction false} CountRemoved(list: seq<Session>, j: nat, upload: bool, user: User)
    requires j < |list|
    ensures Count(list, upload, user) ==
      Count(list[..j] + list[j + 1..], upload, user) + if Counts(list[j], upload, user) then 1 else 0
    decreases |list|
  {
    hide Counts, Count;
    var n := |list| - 1;
    var rest := list[..j] + list[j + 1..];
    CountLast(list, upload, user);
    if j == n {
      assert rest == list[..n];
    } else {
      CountRemoved(list[..n], j, upload, user);
      CountLast(rest, upload, user);
      assert rest[..n - 1] == list[..n][..j] + list[..n][j + 1..];
      assert rest[n - 1] == list[n];
    }
  }

  /** A session takes one slot of its direction, in total and of its user, unless it waits
      or has finished, with or without an error. */
  lemma CountWithout(list: seq<Session>, j: nat, upload: bool, user: User)
    requires j < |list|
    ensures var s := list[j];
            Count(list, upload, user) == Count(list[..j] + list[j + 1..], upload, user)
              + if s.flags.waitingOnLocal || s.flags.finished || s.upload != upload
                  || (user.Only? && user.id != s.remoteSessionID) then 0 else 1
  {
    hide Count;
    CountRemoved(list, j, upload, user);
  }

  /** Starting one session raises a count by one at most, and only counts it belongs to. */
  lemma CountAfterBegin(list: seq<Session>, j: nat, upload: bool, user: User)
    requires j < |list|
    ensures var after := Count(list[j := Begin(list[j])], upload, user);
            var before := Count(list, upload, user);
            && before <= after <= before + 1
            && (after > before ==> list[j].upload == upload && (user.Anyone? || user.id == list[j].remoteSessionID))
  {
    CountAfterUpdate(list, j, Begin(list[j]), upload, user);
  }

  lemma {:induction false} ScanBounds(list: seq<Session>, j: nat, upload: bool, perUser: nat, numToStart: nat,
                                      user: User)
    requires j <= |list|
    ensures var before := Count(list, upload, user);
            var after := Count(Scan(list, j, upload, perUser, numToStart), upload, user);
            && before <= after <= before + numToStart
            && (user.Only? && user.id != "" ==> after <= Max(perUser, before))
    ensures Count(Scan(list, j, upload, perUser, numToStart), !upload, user) == Count(list, !upload, user)
    decreases |list| - j
  {
    hide Begin, Count;
    if j < |list| && numToStart > 0 {
      if MayStart(list, list[j], upload, perUser) {
        CountAfterBegin(list, j, upload, user);
        CountAfterBegin(list, j, !upload, user);
        ScanBounds(list[j := Begin(list[j])], j + 1, upload, perUser, numToStart - 1, user);
      } else {
        ScanBounds(list, j + 1, upload, perUser, numToStart, user);
      }
    }
  }

  lemma Int32Difference(total: nat, active: nat)
    requires total < 0x1_0000_0000 && active < 0x8000_0000
    ensures ToInt32(total - active) > 0 ==> ToInt32(total - active) <= total - active
    ensures total < 0x8000_0000 ==> ToInt32(total - active) == total - active
  {
  }

  /** A pass never raises the number of active sessions above the limit (or above what
      it was), nor an identified user's number above the per-user limit (or what it was),
      and leaves the other direction alone. */
  lemma PassRespectsLimits(list: seq<Session>, upload: bool, limits: Limits, user: User)
    requires limits.total < 0x1_0000_0000 && |list| < 0x8000_0000
    ensures var r := Pass(list, upload, limits);
            && Count(list, upload, Anyone) <= Count(r, upload, Anyone)
                 <= Max(limits.total, Count(list, upload, Anyone))
            && (user.Only? && user.id != "" ==>
                  Count(r, upload, user) <= Max(limits.perUser, Count(list, upload, user)))
            && Count(r, !upload, user) == Count(list, !upload, user)
  {
    hide ToInt32, Scan, Count;
    var active := Count(list, upload, Anyone);
    Int32Difference(limits.total, active);
    var numToStart := ToInt32(limits.total - active);
    if numToStart > 0 {
      ScanBounds(list, 0, upload, limits.perUser, numToStart, Anyone);
      ScanBounds(list, 0, upload, limits.perUser, numToStart, user);
    }
  }

  lemma {:induction false} UnknownScan(list: seq<Session>, j: nat, upload: bool, perUser: nat, numToStart: nat)
    requires j <= |list| && forall i :: 0 <= i < |list| && list[i].upload == upload ==> list[i].remoteSessionID == ""
    ensures Count(Scan(list, j, upload, perUser, numToStart), upload, Anyone)
      <= Max(perUser, Count(list, upload, Anyone))
    decreases |list| - j
  {
    hide Count;
    if j < |list| && numToStart > 0 {
      if MayStart(list, list[j], upload, perUser) {
        CountAfterBegin(list, j, upload, Anyone);
        UnknownScan(list[j := Begin(list[j])], j + 1, upload, perUser, numToStart - 1);
      } else {
        UnknownScan(list, j + 1, upload, perUser, numToStart);
      }
    }
  }

  /** Sessions of unknown users are tested against the number of all active ones: together
      they stay within the limit of one user. */
  lemma UnknownUsersShareALimit(list: seq<Session>, upload: bool, limits: Limits)
    requires forall i :: 0 <= i < |list| && list[i].upload == upload ==> list[i].remoteSessionID == ""
    ensures Count(Pass(list, upload, limits), upload, Anyone) <= Max(limits.perUser, Count(list, upload, Anyone))
  {
    hide Count, Scan, ToInt32;
    var numToStart := ToInt32(limits.total - Count(list, upload, Anyone));
    if numToStart > 0 {
      UnknownScan(list, 0, upload, limits.perUser, numToStart);
    }
  }

  /** Waiting for a start that would succeed. */
  predicate Ready(s: Session, upload: bool) {
    s.upload == upload && s.flags.waitingOnLocal ==>
      s.flags.beginTransferEnabled && !s.flags.finished && !(s.upload && s.starts != [] && s.starts[0].aborts)
  }

  /** What holds of a scan's result r: it used up its starts, or every session from j on
      that still waits is blocked by the per-user test. */
  lemma {:induction false} ScanIsComplete(list: seq<Session>, j: nat, upload: bool, perUser: nat, numToStart: nat,
                                          k: nat)
    requires j <= k < |list| && forall i :: 0 <= i < |list| ==> Ready(list[i], upload)
    ensures var r := Scan(list, j, upload, perUser, numToStart);
            r[k].upload == upload && r[k].flags.waitingOnLocal ==>
              || Count(r, upload, Anyone) == Count(list, upload, Anyone) + numToStart
              || Count(r, upload, UserOf(r[k])) >= perUser
    decreases |list| - j
  {
    hide Count;
    if numToStart > 0 {
      var e := list[j];
      if MayStart(list, e, upload, perUser) {
        CountAfterUpdate(list, j, Begin(e), upload, Anyone);
        if j < k {
          ScanIsComplete(list[j := Begin(e)], j + 1, upload, perUser, numToStart - 1, k);
        } else {
          ScanKeepsEarlier(list[j := Begin(e)], j + 1, upload, perUser, numToStart - 1, k);
        }
      } else if j < k {
        ScanIsComplete(list, j + 1, upload, perUser, numToStart, k);
      } else {
        ScanKeepsEarlier(list, j + 1, upload, perUser, numToStart, k);
        ScanBounds(list, j + 1, upload, perUser, numToStart, UserOf(e));
      }
    }
  }

  lemma {:induction false} ScanKeepsEarlier(list: seq<Session>, j: nat, upload: bool, perUser: nat,
                                            numToStart: nat, k: nat)
    requires k < j <= |list|
    ensures Scan(list, j, upload, perUser, numToStart)[k] == list[k]
    decreases |list| - j
  {
    if j < |list| && numToStart > 0 {
      if MayStart(list, list[j], upload, perUser) {
        ScanKeepsEarlier(list[j := Begin(list[j])], j + 1, upload, perUser, numToStart - 1, k);
      } else {
        ScanKeepsEarlier(list, j + 1, upload, perUser, numToStart, k);
      }
    }
  }

  /** When every waiting session could start, a pass leaves nothing undone: the limit is
      reached, or each session still waiting is blocked by the per-user test. */
  lemma PassIsComplete(list: seq<Session>, upload: bool, limits: Limits, k: nat)
    requires limits.total < 0x8000_0000 && |list| < 0x8000_0000
    requires forall i :: 0 <= i < |list| ==> Ready(list[i], upload)
    requires k < |list|
    ensures var r := Pass(list, upload, limits);
            r[k].upload == upload && r[k].flags.waitingOnLocal ==>
              || Count(r, upload, Anyone) >= limits.total
              || Count(r, upload, UserOf(r[k])) >= limits.perUser
  {
    hide ToInt32, Scan, Count;
    Int32Difference(limits.total, Count(list, upload, Anyone));
    var numToStart := ToInt32(limits.total - Count(list, upload, Anyone));
    if numToStart > 0 {
      ScanIsComplete(list, 0, upload, limits.perUser, numToStart, k);
    }
  }

  /** First come, first served: a session that waits on while a later one was started
      was blocked by its own user's count, or was not enabled. */
  lemma {:induction false} ScanIsFirstCome(list: seq<Session>, j: nat, upload: bool, perUser: nat,
                                           numToStart: nat, i: nat, k: nat)
    requires j <= i < k < |list| && list[i].upload == upload
    ensures var r := Scan(list, j, upload, perUser, numToStart);
            r[k] != list[k] && r[i].flags.waitingOnLocal && list[i].flags.beginTransferEnabled ==>
              Count(r, upload, UserOf(r[i])) >= perUser
    decreases |list| - j
  {
    if numToStart == 0 {
    } else if MayStart(list, list[j], upload, perUser) {
      var next := list[j := Begin(list[j])];
      if j < i {
        ScanIsFirstCome(next, j + 1, upload, perUser, numToStart - 1, i, k);
      } else {
        ScanKeepsEarlier(next, j + 1, upload, perUser, numToStart - 1, i);
      }
    } else if j < i {
      ScanIsFirstCome(list, j + 1, upload, perUser, numToStart, i, k);
    } else {
      ScanKeepsEarlier(list, j + 1, upload, perUser, numToStart, i);
      ScanBounds(list, j + 1, upload, perUser, numToStart, UserOf(list[i]));
    }
  }

  // ---------- The first-come rule ----------

  /** Session k of the list takes a slot: it waits, earlier ones have left a slot, and its
      user's count, with those of the earlier ones that become active, is below the limit. */
  predicate Takes(list: seq<Session>, upload: bool, perUser: nat, slots: nat, k: nat)
    requires k < |list|
    decreases k, 1
  {
    && list[k].upload == upload && list[k].flags.waitingOnLocal
    && SlotsTaken(list, upload, perUser, slots, k) < slots
    && Count(list, upload, UserOf(list[k])) + Begun(list, upload, perUser, slots, k, UserOf(list[k])) < perUser
  }

  /** How many of the first k sessions take a slot. */
  function SlotsTaken(list: seq<Session>, upload: bool, perUser: nat, slots: nat, k: nat): (n: nat)
    requires k <= |list|
    ensures n <= slots
    decreases k, 0
  {
    if k == 0 then 0
    else
      SlotsTaken(list, upload, perUser, slots, k - 1) + if Takes(list, upload, perUser, slots, k - 1) then 1 else 0
  }

  /** How many of the first k sessions take a slot and count for the user from then on. */
  function Begun(list: seq<Session>, upload: bool, perUser: nat, slots: nat, k: nat, user: User): nat
    requires k <= |list|
    decreases k, 0
  {
    if k == 0 then 0
    else
      Begun(list, upload, perUser, slots, k - 1, user)
      + if Takes(list, upload, perUser, slots, k - 1)
           && Counts(Begin(list[k - 1]), upload, user) && !Counts(list[k - 1], upload, user) then 1 else 0
  }

  /** The list after the first n sessions had their turn. */
  function ServedTo(list: seq<Session>, upload: bool, perUser: nat, slots: nat, n: nat): (r: seq<Session>)
    ensures |r| == |list|
    ensures forall k :: 0 <= k < |list| ==>
      r[k] == if k < n && Takes(list, upload, perUser, slots, k) then Begin(list[k]) else list[k]
  {
    seq(|list|, k requires 0 <= k < |list| =>
      if k < n && Takes(list, upload, perUser, slots, k) then Begin(list[k]) else list[k])
  }

  function Slots(list: seq<Session>, upload: bool, limits: Limits): nat {
    var numToStart := ToInt32(limits.total - Count(list, upload, Anyone));
    if numToStart > 0 then numToStart else 0
  }

  /** Whether session k would be begun by a pass. */
  predicate Chosen(list: seq<Session>, upload: bool, limits: Limits, k: nat)
    requires k < |list|
  {
    Takes(list, upload, limits.perUser, Slots(list, upload, limits), k)
  }

  lemma TurnTaken(list: seq<Session>, upload: bool, perUser: nat, slots: nat, n: nat)
    requires n < |list|
    ensures var served := ServedTo(list, upload, perUser, slots, n);
            ServedTo(list, upload, perUser, slots, n + 1) ==
              if Takes(list, upload, perUser, slots, n) then served[n := Begin(list[n])] else served
  {
    hide Begin, Takes;
  }

  lemma {:induction false} CountServed(list: seq<Session>, upload: bool, perUser: nat, slots: nat, n: nat, user: User)
    requires n <= |list|
    ensures Count(ServedTo(list, upload, perUser, slots, n), upload, user) ==
      Count(list, upload, user) + Begun(list, upload, perUser, slots, n, user)
  {
    hide Count, Takes, Begin;
    if n == 0 {
      assert ServedTo(list, upload, perUser, slots, n) == list;
    } else {
      var before := ServedTo(list, upload, perUser, slots, n - 1);
      assert before[n - 1] == list[n - 1];
      hide ServedTo;
      CountServed(list, upload, perUser, slots, n - 1, user);
      TurnTaken(list, upload, perUser, slots, n - 1);
      if Takes(list, upload, perUser, slots, n - 1) {
        TakersWait(list, upload, perUser, slots, n - 1);
        CountAfterUpdate(before, n - 1, Begin(list[n - 1]), upload, user);
      }
    }
  }

  lemma TakersWait(list: seq<Session>, upload: bool, perUser: nat, slots: nat, k: nat)
    requires k < |list| && Takes(list, upload, perUser, slots, k)
    ensures list[k].upload == upload && list[k].flags.waitingOnLocal
  {
  }

  lemma {:induction false} NoSlotLeft(list: seq<Session>, upload: bool, perUser: nat, slots: nat, n: nat, k: nat)
    requires n <= k <= |list| && SlotsTaken(list, upload, perUser, slots, n) == slots
    ensures SlotsTaken(list, upload, perUser, slots, k) == slots
    decreases k
  {
    if n < k {
      NoSlotLeft(list, upload, perUser, slots, n, k - 1);
    }
  }

  /** At its turn a session passes the loop's tests if and only if the rule gives it a slot. */
  lemma TurnIff(list: seq<Session>, upload: bool, perUser: nat, slots: nat, n: nat)
    requires n < |list| && SlotsTaken(list, upload, perUser, slots, n) < slots
    ensures var served := ServedTo(list, upload, perUser, slots, n);
            && served[n] == list[n]
            && (MayStart(served, served[n], upload, perUser) <==> Takes(list, upload, perUser, slots, n))
  {
    hide Count, Begin, Begun, SlotsTaken;
    CountServed(list, upload, perUser, slots, n, UserOf(list[n]));
  }

  lemma NobodyElse(list: seq<Session>, upload: bool, perUser: nat, slots: nat, n: nat)
    requires n <= |list| && SlotsTaken(list, upload, perUser, slots, n) == slots
    ensures ServedTo(list, upload, perUser, slots, n) == ServedTo(list, upload, perUser, slots, |list|)
  {
    hide Begin;
    forall k | n <= k < |list| ensures !Takes(list, upload, perUser, slots, k) {
      NoSlotLeft(list, upload, perUser, slots, n, k);
    }
  }

  /** The loop, which looks at the list as it changes, serves by that rule. */
  lemma {:induction false} ScanServes(list: seq<Session>, upload: bool, perUser: nat, slots: nat, n: nat)
    requires n <= |list|
    ensures Scan(ServedTo(list, upload, perUser, slots, n), n, upload, perUser,
                 slots - SlotsTaken(list, upload, perUser, slots, n))
      == ServedTo(list, upload, perUser, slots, |list|)
    decreases |list| - n
  {
    hide Begin, Takes, MayStart, ServedTo;
    if n == |list| {
    } else if SlotsTaken(list, upload, perUser, slots, n) == slots {
      NobodyElse(list, upload, perUser, slots, n);
    } else {
      TurnIff(list, upload, perUser, slots, n);
      TurnTaken(list, upload, perUser, slots, n);
      ScanServes(list, upload, perUser, slots, n + 1);
    }
  }

  /** A pass begins exactly the sessions that the first-come rule chooses beforehand. */
  lemma PassServes(list: seq<Session>, upload: bool, limits: Limits, k: nat)
    requires k < |list|
    ensures Pass(list, upload, limits)[k] == if Chosen(list, upload, limits, k) then Begin(list[k]) else list[k]
  {
    hide ToInt32, Scan, Count, Takes;
    var slots := Slots(list, upload, limits);
    if slots > 0 {
      ScanServes(list, upload, limits.perUser, slots, 0);
      assert ServedTo(list, upload, limits.perUser, slots, 0) == list;
    } else {
      NoSlotAtAll(list, upload, limits.perUser, k);
    }
  }

  lemma NoSlotAtAll(list: seq<Session>, upload: bool, perUser: nat, k: nat)
    requires k < |list|
    ensures !Takes(list, upload, perUser, 0, k)
  {
  }
}

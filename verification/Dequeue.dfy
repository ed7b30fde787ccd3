/** DequeueTransferSessions, PauseAllUploads and ResumeAllUploads, which call each
    other under the guard of a counter. */
module Dequeue {
  import opened Scheduler
  import opened Resort
  import Transfer

  function PauseOne(s: Session): Session {
    if s.upload then s.(flags := s.flags.(waitingOnLocal := true, beginTransferEnabled := false)) else s
  }

  function ResumeOne(s: Session): Session {
    if s.upload && s.flags.waitingOnLocal then
      if s.flags.beginTransferEnabled then Begin(s)
      else s.(flags := s.flags.(beginTransferEnabled := true))
    else s
  }

  function PauseEach(list: seq<Session>): (r: seq<Session>)
    ensures |r| == |list|
    ensures forall i :: 0 <= i < |list| ==> r[i] == PauseOne(list[i])
  {
    seq(|list|, i requires 0 <= i < |list| => PauseOne(list[i]))
  }

  function ResumeEach(list: seq<Session>): (r: seq<Session>)
    ensures |r| == |list|
    ensures forall i :: 0 <= i < |list| ==> r[i] == ResumeOne(list[i])
  {
    seq(|list|, i requires 0 <= i < |list| => ResumeOne(list[i]))
  }

  predicate NeedsSort(list: seq<Session>) {
    !Ordered(LiveUploads(list))
  }

  function BothPasses(list: seq<Session>, cfg: Config): (r: seq<Session>)
    ensures |r| == |list|
  {
    Pass(Pass(list, true, cfg.uploads), false, cfg.downloads)
  }

  /** DequeueTransferSessions. The counter is what makes the recursion end: a re-sort
      happens at zero only, and everything below it runs at one. */
  function DequeueAll(list: seq<Session>, cfg: Config, dequeueCount: nat): (r: seq<Session>)
    ensures |r| == |list|
    decreases if dequeueCount == 0 then 2 else 0
  {
    if dequeueCount == 0 && cfg.shortestUploadsFirst && NeedsSort(list) then
      BothPasses(ResumeAll(Resorted(PauseAll(list, cfg, dequeueCount + 1)), cfg, dequeueCount + 1), cfg)
    else BothPasses(list, cfg)
  }

  /** PauseAllUploads */
  function PauseAll(list: seq<Session>, cfg: Config, dequeueCount: nat): (r: seq<Session>)
    ensures |r| == |list|
    decreases if dequeueCount == 0 then 3 else 1
  {
    DequeueAll(PauseEach(list), cfg, dequeueCount)
  }

  /** ResumeAllUploads */
  function ResumeAll(list: seq<Session>, cfg: Config, dequeueCount: nat): (r: seq<Session>)
    ensures |r| == |list|
    decreases if dequeueCount == 0 then 3 else 1
  {
    DequeueAll(ResumeEach(list), cfg, dequeueCount)
  }

  // ---------- What a pass keeps ----------

  /** A session after a start, if it waited for one: the same session, not alive again,
      not disabled, and with fewer bytes left only if it was started. */
  predicate Successor(s: Session, t: Session) {
    && t == s.(flags := t.flags, bytesLeft := t.bytesLeft, starts := t.starts)
    && (Live(t) ==> Live(s))
    && (s.flags.beginTransferEnabled ==> t.flags.beginTransferEnabled)
    && (t.flags.waitingOnLocal ==> s.flags.waitingOnLocal)
    && t.bytesLeft <= s.bytesLeft
    && (t.bytesLeft < s.bytesLeft ==> s.flags.waitingOnLocal && !t.flags.waitingOnLocal)
  }

  predicate Successors(list: seq<Session>, next: seq<Session>) {
    |list| == |next| && forall i :: 0 <= i < |list| ==> Successor(list[i], next[i])
  }

  /** A pass in one direction leaves the sessions of the other, and disabled ones, as they are. */
  lemma {:induction false} ScanTouches(list: seq<Session>, j: nat, upload: bool, perUser: nat, numToStart: nat, k: nat)
    requires j <= |list| && k < |list|
    ensures var r := Scan(list, j, upload, perUser, numToStart);
            && Successor(list[k], r[k])
            && (list[k].upload != upload || !list[k].flags.beginTransferEnabled ==> r[k] == list[k])
    decreases |list| - j
  {
    if j < |list| && numToStart > 0 {
      if MayStart(list, list[j], upload, perUser) {
        ScanTouches(list[j := Begin(list[j])], j + 1, upload, perUser, numToStart - 1, k);
      } else {
        ScanTouches(list, j + 1, upload, perUser, numToStart, k);
      }
    }
  }

  lemma PassTouches(list: seq<Session>, upload: bool, limits: Limits, k: nat)
    requires k < |list|
    ensures var r := Pass(list, upload, limits);
            && Successor(list[k], r[k])
            && (list[k].upload != upload || !list[k].flags.beginTransferEnabled ==> r[k] == list[k])
  {
    hide ToInt32, Scan, Count;
    var numToStart := ToInt32(limits.total - Count(list, upload, Anyone));
    if numToStart > 0 {
      ScanTouches(list, 0, upload, limits.perUser, numToStart, k);
    }
  }

  lemma BothPassesTouch(list: seq<Session>, cfg: Config)
    ensures Successors(list, BothPasses(list, cfg))
    ensures forall k :: 0 <= k < |list| && list[k].upload && !list[k].flags.beginTransferEnabled ==>
      BothPasses(list, cfg)[k] == list[k]
  {
    hide Pass;
    forall k | 0 <= k < |list|
      ensures Successor(list[k], BothPasses(list, cfg)[k])
      ensures list[k].upload && !list[k].flags.beginTransferEnabled ==> BothPasses(list, cfg)[k] == list[k]
    {
      PassTouches(list, true, cfg.uploads, k);
      PassTouches(Pass(list, true, cfg.uploads), false, cfg.downloads, k);
    }
  }

  lemma SuccessorsCompose(list: seq<Session>, next: seq<Session>, last: seq<Session>)
    requires Successors(list, next) && Successors(next, last)
    ensures Successors(list, last)
  {
    hide Live;
    forall i | 0 <= i < |list| ensures Successor(list[i], last[i]) {
      assert Successor(list[i], next[i]) && Successor(next[i], last[i]);
    }
  }

  // ---------- The order after the starts ----------

  datatype Change = Change(before: Session, after: Session)

  /** The uploads that are alive after the call, with what they were before it. */
  function LiveChanges(list: seq<Session>, next: seq<Session>): (r: seq<Change>)
    requires |list| == |next|
    ensures |r| <= |list|
  {
    if list == [] then []
    else (if Live(next[0]) then [Change(list[0], next[0])] else []) + LiveChanges(list[1..], next[1..])
  }

  predicate Fell(c: Change) {
    SortKey(c.after) < SortKey(c.before)
  }

  /** Nothing is left any more, which ranks last. */
  predicate Rose(c: Change) {
    SortKey(c.after) > SortKey(c.before)
  }

  /** A started upload whose key fell has not fallen below the live upload before it, and
      one that sent its last bytes is followed by none that has bytes left. */
  predicate StartsKeepOrder(list: seq<Session>, next: seq<Session>)
    requires |list| == |next|
  {
    var changes := LiveChanges(list, next);
    forall n :: 0 < n < |changes| && (Fell(changes[n]) || Rose(changes[n - 1])) ==>
      SortKey(changes[n - 1].after) <= SortKey(changes[n].after)
  }

  lemma {:induction false} LiveChangesAre(list: seq<Session>, next: seq<Session>)
    requires Successors(list, next)
    ensures |LiveChanges(list, next)| == |LiveUploads(next)|
    ensures forall n :: 0 <= n < |LiveUploads(next)| ==> LiveChanges(list, next)[n].after == LiveUploads(next)[n]
  {
    hide Live, Successor;
    if list != [] {
      LiveChangesAre(list[1..], next[1..]);
    }
  }

  lemma {:induction false} LiveChangesWereLive(list: seq<Session>, next: seq<Session>, n: nat) returns (i: nat)
    requires Successors(list, next) && n < |LiveChanges(list, next)|
    ensures i < |LiveUploads(list)| && LiveUploads(list)[i] == LiveChanges(list, next)[n].before
  {
    hide Live;
    if Live(next[0]) && n == 0 {
      i := 0;
    } else {
      i := LiveChangesWereLive(list[1..], next[1..], if Live(next[0]) then n - 1 else n);
      i := if Live(list[0]) then i + 1 else i;
    }
    assert Successor(list[0], next[0]);
  }

  lemma {:induction false} LiveChangesWereOrdered(list: seq<Session>, next: seq<Session>, m: nat, n: nat)
    requires Successors(list, next) && Ordered(LiveUploads(list)) && m < n < |LiveChanges(list, next)|
    ensures SortKey(LiveChanges(list, next)[m].before) <= SortKey(LiveChanges(list, next)[n].before)
  {
    hide Live, SortKey;
    assert Successor(list[0], next[0]);
    var rest := LiveUploads(list[1..]);
    assert Ordered(rest) by {
      OrderedRest(list);
    }
    if Live(next[0]) && m == 0 {
      var i := LiveChangesWereLive(list[1..], next[1..], n - 1);
      assert LiveUploads(list)[0] == list[0] && LiveUploads(list)[i + 1] == rest[i];
    } else {
      var d := if Live(next[0]) then 1 else 0;
      LiveChangesWereOrdered(list[1..], next[1..], m - d, n - d);
    }
  }

  lemma OrderedRest(list: seq<Session>)
    requires list != [] && Ordered(LiveUploads(list))
    ensures Ordered(LiveUploads(list[1..]))
  {
    hide Live, SortKey, Ordered;
    var live, rest := LiveUploads(list), LiveUploads(list[1..]);
    var d := if Live(list[0]) then 1 else 0;
    assert live[d..] == rest;
    OrderedFrom(live, d);
  }

  lemma OrderedFrom(s: seq<Session>, d: nat)
    requires d <= |s| && Ordered(s)
    ensures Ordered(s[d..])
  {
    hide SortKey;
  }

  lemma {:induction false} NeighboursOrder(s: seq<Session>)
    requires forall n :: 0 < n < |s| ==> SortKey(s[n - 1]) <= SortKey(s[n])
    ensures Ordered(s)
  {
    hide SortKey;
    if s != [] {
      var front := s[..|s| - 1];
      NeighboursOrder(front);
      forall i, j | 0 <= i < j < |s| ensures SortKey(s[i]) <= SortKey(s[j]) {
        if j < |s| - 1 {
          assert front[i] == s[i] && front[j] == s[j];
        } else if i < j - 1 {
          assert front[i] == s[i] && front[j - 1] == s[j - 1];
          assert SortKey(s[j - 1]) <= SortKey(s[j]);
        }
      }
    }
  }

  /** Where the live uploads were in order, they still are if and only if the starts keep
      their neighbours in order. */
  lemma StaysOrderedIff(list: seq<Session>, next: seq<Session>)
    requires Successors(list, next) && Ordered(LiveUploads(list))
    ensures Ordered(LiveUploads(next)) <==> StartsKeepOrder(list, next)
  {
    hide Live, SortKey, LiveUploads, LiveChanges, Successor;
    LiveChangesAre(list, next);
    var changes, live := LiveChanges(list, next), LiveUploads(next);
    if StartsKeepOrder(list, next) {
      forall n | 0 < n < |live| ensures SortKey(live[n - 1]) <= SortKey(live[n]) {
        LiveChangesWereOrdered(list, next, n - 1, n);
        assert changes[n - 1].after == live[n - 1] && changes[n].after == live[n];
      }
      NeighboursOrder(live);
    }
  }

  // ---------- Resuming ----------

  /** Resuming enables the uploads that were not, and begins those that were, limits or
      not: after two of them no upload waits. Downloads are left alone. */
  lemma ResumeForces(list: seq<Session>, k: nat)
    requires k < |list|
    ensures var once := ResumeEach(list)[k];
            var twice := ResumeEach(ResumeEach(list))[k];
            if list[k].upload then
              && (once.flags.waitingOnLocal <==> list[k].flags.waitingOnLocal && !list[k].flags.beginTransferEnabled)
              && (list[k].flags.waitingOnLocal ==> once.flags.beginTransferEnabled)
              && !twice.flags.waitingOnLocal
            else once == twice == list[k]
  {
  }

  // ---------- Halted uploads ----------

  /** Every upload waits and may not begin. */
  predicate Halted(list: seq<Session>) {
    forall i :: 0 <= i < |list| && list[i].upload ==>
      list[i].flags.waitingOnLocal && !list[i].flags.beginTransferEnabled
  }

  lemma HaltedPassesKeepUploads(list: seq<Session>, cfg: Config)
    requires Halted(list)
    ensures Halted(BothPasses(list, cfg))
    ensures forall k :: 0 <= k < |list| && list[k].upload ==> BothPasses(list, cfg)[k] == list[k]
  {
    hide BothPasses;
    BothPassesTouch(list, cfg);
  }

  lemma ResortedStaysHalted(list: seq<Session>)
    requires Halted(list)
    ensures Halted(Resorted(list))
  {
    hide Resorted;
    ResortedIsShortestFirst(list);
    var r := Resorted(list);
    forall i | 0 <= i < |r| && r[i].upload
      ensures r[i].flags.waitingOnLocal && !r[i].flags.beginTransferEnabled
    {
      assert r[i] in multiset(r);
      assert r[i] in list;
    }
  }

  lemma {:induction false} NothingActive(list: seq<Session>, user: User)
    requires forall i :: 0 <= i < |list| && list[i].upload ==> list[i].flags.waitingOnLocal
    ensures Count(list, true, user) == 0
    decreases |list|
  {
    if list != [] {
      NothingActive(list[..|list| - 1], user);
    }
  }

  lemma BothPassesCount(list: seq<Session>, cfg: Config, user: User)
    requires cfg.uploads.total < 0x1_0000_0000 && cfg.downloads.total < 0x1_0000_0000 && |list| < 0x8000_0000
    ensures var r := BothPasses(list, cfg);
            && Count(r, true, Anyone) <= Max(cfg.uploads.total, Count(list, true, Anyone))
            && (user.Only? && user.id != "" ==>
                  Count(r, true, user) <= Max(cfg.uploads.perUser, Count(list, true, user)))
  {
    hide Pass, Count;
    var l := Pass(list, true, cfg.uploads);
    PassRespectsLimits(list, true, cfg.uploads, user);
    PassRespectsLimits(l, false, cfg.downloads, user);
    PassRespectsLimits(l, false, cfg.downloads, Anyone);
  }

  /** A call that re-sorts leaves the active uploads within the limits, in total and for
      every identified user, even where forced starts had gone beyond them. */
  lemma ResortRestoresLimits(list: seq<Session>, cfg: Config, user: User)
    requires cfg.uploads.total < 0x1_0000_0000 && cfg.downloads.total < 0x1_0000_0000 && |list| < 0x8000_0000
    requires cfg.shortestUploadsFirst && NeedsSort(list)
    ensures var r := DequeueAll(list, cfg, 0);
            && Count(r, true, Anyone) <= cfg.uploads.total
            && (user.Only? && user.id != "" ==> Count(r, true, user) <= cfg.uploads.perUser)
  {
    hide BothPasses, Count, NeedsSort, Resorted;
    var paused := BothPasses(PauseEach(list), cfg);
    HaltedPassesKeepUploads(PauseEach(list), cfg);
    var resorted := Resorted(paused);
    ResortedStaysHalted(paused);
    var resumed := ResumeEach(resorted);
    NothingActive(resumed, Anyone);
    NothingActive(resumed, user);
    BothPassesCount(resumed, cfg, user);
    BothPassesCount(BothPasses(resumed, cfg), cfg, user);
  }

  // ---------- Each direction for itself ----------

  /** The same sessions of one direction at the same places; the others may differ. */
  predicate SameSide(a: seq<Session>, b: seq<Session>, upload: bool) {
    && |a| == |b|
    && forall i :: 0 <= i < |a| ==> a[i].upload == b[i].upload && (a[i].upload == upload ==> a[i] == b[i])
  }

  lemma {:induction false} SameLiveUploads(a: seq<Session>, b: seq<Session>)
    requires SameSide(a, b, true)
    ensures LiveUploads(a) == LiveUploads(b)
  {
    if a != [] {
      SameLiveUploads(a[1..], b[1..]);
    }
  }

  lemma {:induction false} SameRewritten(a: seq<Session>, b: seq<Session>, sorted: seq<Session>)
    requires SameSide(a, b, true)
    ensures SameSide(Rewrite(a, sorted), Rewrite(b, sorted), true)
  {
    if a != [] {
      assert Live(a[0]) == Live(b[0]);
      SameRewritten(a[1..], b[1..], if Live(a[0]) && sorted != [] then sorted[1..] else sorted);
    }
  }

  lemma {:induction false} SameCount(a: seq<Session>, b: seq<Session>, upload: bool, user: User)
    requires SameSide(a, b, upload)
    ensures Count(a, upload, user) == Count(b, upload, user)
    decreases |a|
  {
    if a != [] {
      SameCount(a[..|a| - 1], b[..|b| - 1], upload, user);
    }
  }

  lemma {:induction false} SameTakes(a: seq<Session>, b: seq<Session>, upload: bool, perUser: nat, slots: nat, k: nat)
    requires SameSide(a, b, upload) && k < |a|
    ensures Takes(a, upload, perUser, slots, k) == Takes(b, upload, perUser, slots, k)
    decreases k, 1
  {
    hide Count;
    SameCount(a, b, upload, UserOf(a[k]));
    SameTaken(a, b, upload, perUser, slots, k, UserOf(a[k]));
  }

  lemma {:induction false} SameTaken(a: seq<Session>, b: seq<Session>, upload: bool, perUser: nat, slots: nat, k: nat,
                                     user: User)
    requires SameSide(a, b, upload) && k <= |a|
    ensures SlotsTaken(a, upload, perUser, slots, k) == SlotsTaken(b, upload, perUser, slots, k)
    ensures Begun(a, upload, perUser, slots, k, user) == Begun(b, upload, perUser, slots, k, user)
    decreases k, 0
  {
    hide Takes, Begin, Counts;
    if k > 0 {
      SameTakes(a, b, upload, perUser, slots, k - 1);
      SameTaken(a, b, upload, perUser, slots, k - 1, user);
      if Takes(a, upload, perUser, slots, k - 1) {
        TakersWait(a, upload, perUser, slots, k - 1);
      }
    }
  }

  lemma SameChosen(a: seq<Session>, b: seq<Session>, upload: bool, limits: Limits, k: nat)
    requires SameSide(a, b, upload) && k < |a|
    ensures Chosen(a, upload, limits, k) == Chosen(b, upload, limits, k)
  {
    hide Takes, Count;
    SameCount(a, b, upload, Anyone);
    SameTakes(a, b, upload, limits.perUser, Slots(a, upload, limits), k);
  }

  // ---------- What a call starts ----------

  /** Whether a call re-sorts first. */
  predicate SortIsDue(list: seq<Session>, cfg: Config, dequeueCount: nat) {
    dequeueCount == 0 && cfg.shortestUploadsFirst && NeedsSort(list)
  }

  /** The list with which a call begins its starts: when a re-sort is due, all uploads
      wait, are enabled, and the live ones are in order. */
  function StartedFrom(list: seq<Session>, due: bool): (r: seq<Session>)
    ensures |r| == |list|
  {
    if due then ResumeEach(Resorted(PauseEach(list))) else list
  }

  function LimitsOf(cfg: Config, upload: bool): Limits {
    if upload then cfg.uploads else cfg.downloads
  }

  /** The list after one round of the first-come rule. */
  function Served(list: seq<Session>, upload: bool, limits: Limits): (r: seq<Session>)
    ensures |r| == |list|
  {
    seq(|list|, k requires 0 <= k < |list| => if Chosen(list, upload, limits, k) then Begin(list[k]) else list[k])
  }

  function ServedRounds(list: seq<Session>, upload: bool, limits: Limits, rounds: nat): (r: seq<Session>)
    ensures |r| == |list|
  {
    if rounds == 0 then list else Served(ServedRounds(list, upload, limits, rounds - 1), upload, limits)
  }

  /** How often a call asks the first-come rule. A re-sort pauses and resumes the uploads,
      and dequeues each time; while they are paused, only downloads can start. */
  function Rounds(due: bool, upload: bool): nat {
    if !due then 1 else if upload then 2 else 3
  }

  /** Whether the session at index k is begun in one of the rounds. */
  predicate Started(from: seq<Session>, upload: bool, limits: Limits, rounds: nat, k: nat)
    requires k < |from|
  {
    rounds > 0
    && (Started(from, upload, limits, rounds - 1, k)
        || Chosen(ServedRounds(from, upload, limits, rounds - 1), upload, limits, k))
  }

  lemma BothPassesServe(list: seq<Session>, cfg: Config, upload: bool)
    ensures SameSide(BothPasses(list, cfg), Served(list, upload, LimitsOf(cfg, upload)), upload)
  {
    hide Pass, Chosen, Begin;
    var first := Pass(list, true, cfg.uploads);
    forall k | 0 <= k < |list|
      ensures first[k].upload == list[k].upload && (!list[k].upload ==> first[k] == list[k])
    {
      PassTouches(list, true, cfg.uploads, k);
    }
    forall k | 0 <= k < |list|
      ensures BothPasses(list, cfg)[k].upload == Served(list, upload, LimitsOf(cfg, upload))[k].upload
      ensures list[k].upload == upload ==>
                BothPasses(list, cfg)[k] == Served(list, upload, LimitsOf(cfg, upload))[k]
    {
      BeginKeepsDirection(list[k]);
      PassTouches(first, false, cfg.downloads, k);
      if upload {
        PassServes(list, true, cfg.uploads, k);
      } else {
        PassServes(first, false, cfg.downloads, k);
        SameChosen(first, list, false, cfg.downloads, k);
      }
    }
    forall k | 0 <= k < |list| ensures Served(list, upload, LimitsOf(cfg, upload))[k].upload == list[k].upload {
      BeginKeepsDirection(list[k]);
    }
  }

  lemma SameServed(a: seq<Session>, b: seq<Session>, upload: bool, limits: Limits)
    requires SameSide(a, b, upload)
    ensures SameSide(Served(a, upload, limits), Served(b, upload, limits), upload)
  {
    hide Chosen, Begin;
    forall k | 0 <= k < |a|
      ensures Served(a, upload, limits)[k].upload == Served(b, upload, limits)[k].upload == a[k].upload
      ensures a[k].upload == upload ==> Served(a, upload, limits)[k] == Served(b, upload, limits)[k]
    {
      SameChosen(a, b, upload, limits, k);
      BeginKeepsDirection(a[k]);
      BeginKeepsDirection(b[k]);
    }
  }

  lemma SameSideCompose(a: seq<Session>, b: seq<Session>, c: seq<Session>, upload: bool)
    requires SameSide(a, b, upload) && SameSide(b, c, upload)
    ensures SameSide(a, c, upload) && SameSide(b, a, upload)
  {
  }

  /** One more pair of passes is one more round. */
  lemma OneMoreRound(a: seq<Session>, from: seq<Session>, cfg: Config, upload: bool, rounds: nat)
    requires SameSide(a, ServedRounds(from, upload, LimitsOf(cfg, upload), rounds), upload)
    ensures SameSide(BothPasses(a, cfg), ServedRounds(from, upload, LimitsOf(cfg, upload), rounds + 1), upload)
  {
    hide BothPasses, Served, SameSide;
    var limits := LimitsOf(cfg, upload);
    BothPassesServe(a, cfg, upload);
    SameServed(a, ServedRounds(from, upload, limits, rounds), upload, limits);
    SameSideCompose(BothPasses(a, cfg), Served(a, upload, limits), ServedRounds(from, upload, limits, rounds + 1),
                    upload);
  }

  /** The passes between pausing and sorting start downloads only, and sorting and resuming
      leave the downloads where they are. */
  lemma ResortsFrom(list: seq<Session>, cfg: Config)
    requires NeedsSort(list)
    ensures SameSide(ResumeEach(Resorted(PauseAll(list, cfg, 1))), StartedFrom(list, true), true)
    ensures SameSide(ResumeEach(Resorted(PauseAll(list, cfg, 1))), BothPasses(list, cfg), false)
    ensures PauseAll(list, cfg, 1) == BothPasses(PauseEach(list), cfg)
  {
    hide BothPasses, LiveUploads, Rewrite, Sorted;
    var halted := PauseEach(list);
    var paused := BothPasses(halted, cfg);
    HaltedPassesKeepUploads(halted, cfg);
    BothPassesTouch(halted, cfg);
    assert forall k :: 0 <= k < |halted| ==> Successor(halted[k], paused[k]);
    assert SameSide(halted, paused, true);
    SameLiveUploads(halted, paused);
    SameRewritten(halted, paused, Sorted(LiveUploads(halted)));
    SameResumed(Resorted(paused), Resorted(halted));
    ResortsDownloads(list, cfg);
  }

  lemma ResortsDownloads(list: seq<Session>, cfg: Config)
    ensures SameSide(ResumeEach(Resorted(BothPasses(PauseEach(list), cfg))), BothPasses(list, cfg), false)
  {
    hide BothPasses, Resorted, Served;
    var halted := PauseEach(list);
    var paused := BothPasses(halted, cfg);
    BothPassesServe(halted, cfg, false);
    BothPassesServe(list, cfg, false);
    SameServed(halted, list, false, cfg.downloads);
    assert SameSide(paused, BothPasses(list, cfg), false);
    DownloadsStayPut(paused, paused);
  }

  lemma SameResumed(a: seq<Session>, b: seq<Session>)
    requires SameSide(b, a, true)
    ensures SameSide(ResumeEach(a), ResumeEach(b), true)
  {
  }

  /** Whatever the counter and the settings: each direction comes out of a call as the
      first-come rule serves it, round by round. */
  lemma DequeueServes(list: seq<Session>, cfg: Config, dequeueCount: nat, upload: bool)
    ensures var due := SortIsDue(list, cfg, dequeueCount);
            SameSide(DequeueAll(list, cfg, dequeueCount),
                     ServedRounds(StartedFrom(list, due), upload, LimitsOf(cfg, upload), Rounds(due, upload)), upload)
  {
    hide BothPasses, Resorted, NeedsSort, PauseAll, Served;
    var limits := LimitsOf(cfg, upload);
    if SortIsDue(list, cfg, dequeueCount) {
      var from := StartedFrom(list, true);
      var resumed := ResumeEach(Resorted(PauseAll(list, cfg, 1)));
      ResortsFrom(list, cfg);
      assert DequeueAll(list, cfg, dequeueCount) == BothPasses(BothPasses(resumed, cfg), cfg);
      if upload {
        OneMoreRound(resumed, from, cfg, true, 0);
        OneMoreRound(BothPasses(resumed, cfg), from, cfg, true, 1);
      } else {
        StartedFromKeepsDownloads(list);
        OneMoreRound(list, from, cfg, false, 0);
        SameSideCompose(resumed, BothPasses(list, cfg), ServedRounds(from, false, limits, 1), false);
        OneMoreRound(resumed, from, cfg, false, 1);
        OneMoreRound(BothPasses(resumed, cfg), from, cfg, false, 2);
      }
    } else {
      OneMoreRound(list, list, cfg, upload, 0);
    }
  }

  lemma StartedFromKeepsDownloads(list: seq<Session>)
    ensures SameSide(list, StartedFrom(list, true), false)
  {
    hide Resorted;
    DownloadsStayPut(PauseEach(list), PauseEach(list));
    ResortedIsShortestFirst(PauseEach(list));
  }

  /** What becomes of every session is known before: it is begun, if the first-come rule
      chooses it in some round, and else stays as it is. */
  lemma DequeueStarts(list: seq<Session>, cfg: Config, dequeueCount: nat, k: nat)
    requires k < |list|
    ensures var due, r := SortIsDue(list, cfg, dequeueCount), DequeueAll(list, cfg, dequeueCount)[k];
            var s := StartedFrom(list, due)[k];
            && r.upload == s.upload
            && r == if Started(StartedFrom(list, due), s.upload, LimitsOf(cfg, s.upload), Rounds(due, s.upload), k)
                    then Begin(s) else s
  {
    hide DequeueAll, StartedFrom, Served, NeedsSort, Begin, Rounds, Started;
    var due := SortIsDue(list, cfg, dequeueCount);
    var from := StartedFrom(list, due);
    var upload := from[k].upload;
    DequeueServes(list, cfg, dequeueCount, upload);
    DequeueServes(list, cfg, dequeueCount, !upload);
    RoundsServe(from, upload, LimitsOf(cfg, upload), Rounds(due, upload), k);
    RoundsServe(from, !upload, LimitsOf(cfg, !upload), Rounds(due, !upload), k);
    BeginKeepsDirection(from[k]);
  }

  lemma {:induction false} RoundsServe(list: seq<Session>, upload: bool, limits: Limits, rounds: nat, k: nat)
    requires k < |list|
    ensures ServedRounds(list, upload, limits, rounds)[k] ==
      if Started(list, upload, limits, rounds, k) then Begin(list[k]) else list[k]
  {
    hide Chosen, Begin;
    if rounds > 0 {
      var before := ServedRounds(list, upload, limits, rounds - 1);
      RoundsServe(list, upload, limits, rounds - 1, k);
      if Started(list, upload, limits, rounds - 1, k) && Chosen(before, upload, limits, k) {
        ChosenWaits(before, upload, limits, k);
        BeginAgain(list[k]);
      }
    }
  }

  lemma ChosenWaits(list: seq<Session>, upload: bool, limits: Limits, k: nat)
    requires k < |list| && Chosen(list, upload, limits, k)
    ensures list[k].upload == upload && list[k].flags.waitingOnLocal
  {
    hide Slots;
  }

  /** A session that still waits after it was begun is disabled. */
  lemma BeginAgain(s: Session)
    requires Begin(s).flags.waitingOnLocal
    ensures Begin(Begin(s)) == Begin(s)
  {
  }

  // ---------- Nothing undone, nothing overdone ----------

  predicate AllReady(list: seq<Session>, upload: bool) {
    forall i :: 0 <= i < |list| ==> Ready(list[i], upload)
  }

  /** Session k waits only because the limit is reached or its user's limit is. */
  predicate Blocked(list: seq<Session>, upload: bool, limits: Limits, k: nat)
    requires k < |list|
  {
    Count(list, upload, Anyone) >= limits.total || Count(list, upload, UserOf(list[k])) >= limits.perUser
  }

  lemma ServedIsPass(list: seq<Session>, upload: bool, limits: Limits)
    ensures Served(list, upload, limits) == Pass(list, upload, limits)
  {
    hide Pass, Chosen, Begin;
    forall k | 0 <= k < |list| ensures Served(list, upload, limits)[k] == Pass(list, upload, limits)[k] {
      PassServes(list, upload, limits, k);
    }
  }

  lemma BeginKeepsReady(s: Session, upload: bool)
    requires Ready(s, upload)
    ensures Ready(Begin(s), upload)
    ensures s.upload == upload ==> !Begin(s).flags.waitingOnLocal
  {
  }

  lemma {:induction false} RoundsKeepReady(list: seq<Session>, upload: bool, limits: Limits, rounds: nat)
    requires AllReady(list, upload)
    ensures AllReady(ServedRounds(list, upload, limits, rounds), upload)
  {
    hide Ready, Begin, Chosen;
    if rounds > 0 {
      RoundsKeepReady(list, upload, limits, rounds - 1);
      var before := ServedRounds(list, upload, limits, rounds - 1);
      forall k | 0 <= k < |list| ensures Ready(Served(before, upload, limits)[k], upload) {
        BeginKeepsReady(before[k], upload);
      }
    }
  }

  /** A whole call, whatever the counter and the settings, leaves nothing undone in either
      direction: what still waits is blocked. */
  lemma DequeueIsComplete(list: seq<Session>, cfg: Config, dequeueCount: nat, upload: bool, k: nat)
    requires LimitsOf(cfg, upload).total < 0x8000_0000 && |list| < 0x8000_0000 && k < |list|
    requires AllReady(StartedFrom(list, SortIsDue(list, cfg, dequeueCount)), upload)
    ensures var r := DequeueAll(list, cfg, dequeueCount);
            r[k].upload == upload && r[k].flags.waitingOnLocal ==> Blocked(r, upload, LimitsOf(cfg, upload), k)
  {
    hide DequeueAll, StartedFrom, SortIsDue, Served, Count, Pass, Ready;
    var due, limits := SortIsDue(list, cfg, dequeueCount), LimitsOf(cfg, upload);
    var from, rounds, r := StartedFrom(list, due), Rounds(due, upload), DequeueAll(list, cfg, dequeueCount);
    var before := ServedRounds(from, upload, limits, rounds - 1);
    DequeueServes(list, cfg, dequeueCount, upload);
    RoundsKeepReady(from, upload, limits, rounds - 1);
    ServedIsPass(before, upload, limits);
    PassIsComplete(before, upload, limits, k);
    SameCount(r, Served(before, upload, limits), upload, Anyone);
    SameCount(r, Served(before, upload, limits), upload, UserOf(r[k]));
  }

  lemma {:induction false} RoundsRespectLimits(list: seq<Session>, upload: bool, limits: Limits, rounds: nat,
                                               user: User)
    requires limits.total < 0x1_0000_0000 && |list| < 0x8000_0000
    ensures var r := ServedRounds(list, upload, limits, rounds);
            && Count(list, upload, Anyone) <= Count(r, upload, Anyone)
                 <= Max(limits.total, Count(list, upload, Anyone))
            && (user.Only? && user.id != "" ==>
                  Count(r, upload, user) <= Max(limits.perUser, Count(list, upload, user)))
  {
    hide Count, Pass, Served;
    if rounds > 0 {
      var before := ServedRounds(list, upload, limits, rounds - 1);
      RoundsRespectLimits(list, upload, limits, rounds - 1, user);
      ServedIsPass(before, upload, limits);
      PassRespectsLimits(before, upload, limits, user);
    }
  }

  /** A whole call exceeds no limit, in total or for an identified user, that was not
      exceeded before its starts; a re-sort has then taken all uploads back. */
  lemma DequeueRespectsLimits(list: seq<Session>, cfg: Config, dequeueCount: nat, upload: bool, user: User)
    requires LimitsOf(cfg, upload).total < 0x1_0000_0000 && |list| < 0x8000_0000
    ensures var from, limits := StartedFrom(list, SortIsDue(list, cfg, dequeueCount)), LimitsOf(cfg, upload);
            var r := DequeueAll(list, cfg, dequeueCount);
            && Count(from, upload, Anyone) <= Count(r, upload, Anyone)
                 <= Max(limits.total, Count(from, upload, Anyone))
            && (user.Only? && user.id != "" ==>
                  Count(r, upload, user) <= Max(limits.perUser, Count(from, upload, user)))
  {
    hide DequeueAll, StartedFrom, SortIsDue, ServedRounds, Count;
    var due, limits := SortIsDue(list, cfg, dequeueCount), LimitsOf(cfg, upload);
    var from, rounds, r := StartedFrom(list, due), Rounds(due, upload), DequeueAll(list, cfg, dequeueCount);
    var served := ServedRounds(from, upload, limits, rounds);
    DequeueServes(list, cfg, dequeueCount, upload);
    RoundsRespectLimits(from, upload, limits, rounds, user);
    SameCount(r, served, upload, Anyone);
    SameCount(r, served, upload, user);
  }

  /** Counts before the starts: those of the list for downloads; none for uploads when a
      re-sort is due. */
  lemma CountsBeforeStarts(list: seq<Session>, user: User)
    ensures Count(StartedFrom(list, true), false, user) == Count(list, false, user)
    ensures Count(StartedFrom(list, true), true, user) == 0
  {
    hide Resorted, Count;
    StartedFromKeepsDownloads(list);
    SameCount(list, StartedFrom(list, true), false, user);
    ResortedStaysHalted(PauseEach(list));
    NothingActive(StartedFrom(list, true), user);
  }

  lemma NoMoreSlots(list: seq<Session>, upload: bool, limits: Limits, k: nat)
    requires limits.total < 0x8000_0000 && |list| < 0x8000_0000 && k < |list|
    requires list[k].upload == upload && list[k].flags.waitingOnLocal ==> Blocked(list, upload, limits, k)
    ensures !Chosen(list, upload, limits, k)
  {
    hide Count;
    Int32Difference(limits.total, Count(list, upload, Anyone));
  }

  lemma {:induction false} FirstRoundDecides(list: seq<Session>, upload: bool, limits: Limits, rounds: nat)
    requires limits.total < 0x8000_0000 && |list| < 0x8000_0000 && rounds > 0 && AllReady(list, upload)
    ensures ServedRounds(list, upload, limits, rounds) == ServedRounds(list, upload, limits, 1)
  {
    hide Served, Chosen, Ready, Pass, Blocked;
    if rounds > 1 {
      FirstRoundDecides(list, upload, limits, rounds - 1);
      var once := ServedRounds(list, upload, limits, 1);
      assert once == Served(list, upload, limits);
      ServedIsPass(list, upload, limits);
      forall k | 0 <= k < |list| ensures !Chosen(once, upload, limits, k) {
        assert once[k].upload == upload && once[k].flags.waitingOnLocal ==> Blocked(once, upload, limits, k) by {
          PassIsBlocked(list, upload, limits, k);
        }
        NoMoreSlots(once, upload, limits, k);
      }
      NobodyServed(once, upload, limits);
    }
  }

  lemma PassIsBlocked(list: seq<Session>, upload: bool, limits: Limits, k: nat)
    requires limits.total < 0x8000_0000 && |list| < 0x8000_0000 && k < |list| && AllReady(list, upload)
    ensures var r := Pass(list, upload, limits);
            r[k].upload == upload && r[k].flags.waitingOnLocal ==> Blocked(r, upload, limits, k)
  {
    hide Pass, Ready, Count;
    PassIsComplete(list, upload, limits, k);
  }

  lemma NobodyServed(list: seq<Session>, upload: bool, limits: Limits)
    requires forall k :: 0 <= k < |list| ==> !Chosen(list, upload, limits, k)
    ensures Served(list, upload, limits) == list
  {
    hide Chosen;
  }

  /** When no waiting download is disabled, one round decides for the downloads, in every
      call: a download is begun if and only if the first-come rule chooses it in the list
      as it was before the call. */
  lemma DownloadsStartIff(list: seq<Session>, cfg: Config, dequeueCount: nat, k: nat)
    requires cfg.downloads.total < 0x8000_0000 && |list| < 0x8000_0000 && AllReady(list, false)
    requires k < |list| && !list[k].upload
    ensures DequeueAll(list, cfg, dequeueCount)[k] ==
      if Chosen(list, false, cfg.downloads, k) then Begin(list[k]) else list[k]
    ensures IsActive(DequeueAll(list, cfg, dequeueCount)[k]) <==>
      IsActive(list[k]) || Chosen(list, false, cfg.downloads, k)
  {
    hide DequeueAll, SortIsDue, Chosen, StartedFrom, Ready, Begin;
    var due := SortIsDue(list, cfg, dequeueCount);
    var from, rounds := StartedFrom(list, due), Rounds(due, false);
    DequeueServes(list, cfg, dequeueCount, false);
    FromIsSameSide(list, due);
    SameReady(list, from);
    FirstRoundDecides(from, false, cfg.downloads, rounds);
    RoundsServe(from, false, cfg.downloads, rounds, k);
    SameChosen(list, from, false, cfg.downloads, k);
    BeginKeepsDirection(list[k]);
    assert ServedRounds(from, false, cfg.downloads, 1) == Served(from, false, cfg.downloads) by {
      OneRound(from, cfg.downloads);
    }
    ChosenBegins(list, cfg.downloads, k);
  }

  lemma OneRound(list: seq<Session>, limits: Limits)
    ensures ServedRounds(list, false, limits, 1) == Served(list, false, limits)
  {
    hide Served;
    assert ServedRounds(list, false, limits, 0) == list;
  }

  lemma ChosenBegins(list: seq<Session>, limits: Limits, k: nat)
    requires k < |list| && AllReady(list, false) && !list[k].upload
    ensures Chosen(list, false, limits, k) ==> IsActive(Begin(list[k])) && !IsActive(list[k])
  {
    hide Slots;
    assert Ready(list[k], false);
  }

  lemma FromIsSameSide(list: seq<Session>, due: bool)
    ensures SameSide(list, StartedFrom(list, due), false)
  {
    hide SameSide;
    if due {
      StartedFromKeepsDownloads(list);
    } else {
      assert SameSide(list, list, false) by { SameAsItself(list, false); }
    }
  }

  lemma SameAsItself(list: seq<Session>, upload: bool)
    ensures SameSide(list, list, upload)
  {
  }

  lemma SameReady(a: seq<Session>, b: seq<Session>)
    requires SameSide(a, b, false) && AllReady(a, false)
    ensures AllReady(b, false)
  {
    forall i | 0 <= i < |b| ensures Ready(b[i], false) {
      assert Ready(a[i], false);
    }
  }

  lemma BeginKeepsDirection(s: Session)
    ensures Begin(s).upload == s.upload
  {
  }

  /** From there on nothing changes but by starts. */
  lemma DequeueOnlyStarts(list: seq<Session>, cfg: Config)
    requires cfg.shortestUploadsFirst
    ensures Successors(StartedFrom(list, NeedsSort(list)), DequeueAll(list, cfg, 0))
    ensures Ordered(LiveUploads(StartedFrom(list, NeedsSort(list))))
  {
    hide BothPasses, Resorted, LiveUploads, Ordered, NeedsSort;
    if NeedsSort(list) {
      var halted := PauseEach(list);
      var sorted := Resorted(halted);
      ResortedIsShortestFirst(halted);
      ResortedStaysHalted(halted);
      ResumeKeepsOrder(sorted);
      var paused := BothPasses(halted, cfg);
      var resumed := ResumeEach(Resorted(paused));
      ResortsFrom(list, cfg);
      BothPassesTouch(halted, cfg);
      ResortedIsShortestFirst(paused);
      DownloadsStayPut(halted, paused);
      assert Successors(StartedFrom(list, true), resumed) by {
        forall k | 0 <= k < |list| ensures Successor(StartedFrom(list, true)[k], resumed[k]) {
          if !resumed[k].upload {
            assert Successor(halted[k], paused[k]);
          }
        }
      }
      var first := BothPasses(resumed, cfg);
      BothPassesTouch(resumed, cfg);
      SuccessorsCompose(StartedFrom(list, true), resumed, first);
      BothPassesTouch(first, cfg);
      SuccessorsCompose(StartedFrom(list, true), first, BothPasses(first, cfg));
    } else {
      BothPassesTouch(list, cfg);
      assert !NeedsSort(list) ==> Ordered(LiveUploads(list)) by {
        SortIsDueIff(list);
      }
    }
  }

  lemma SortIsDueIff(list: seq<Session>)
    ensures NeedsSort(list) <==> !Ordered(LiveUploads(list))
  {
  }

  lemma DownloadsStayPut(list: seq<Session>, next: seq<Session>)
    requires |list| == |next|
    ensures forall k :: 0 <= k < |list| && !list[k].upload ==> Resorted(list)[k] == list[k]
    ensures forall k :: 0 <= k < |next| && !next[k].upload ==> Resorted(next)[k] == next[k]
    ensures forall k :: 0 <= k < |next| && !Resorted(next)[k].upload ==> !next[k].upload
  {
    hide Resorted;
    ResortedIsShortestFirst(list);
    ResortedIsShortestFirst(next);
  }

  lemma {:induction false} ResumeKeepsOrder(list: seq<Session>)
    requires Halted(list) && Ordered(LiveUploads(list))
    ensures Ordered(LiveUploads(ResumeEach(list)))
  {
    hide Ordered;
    ResumeKeepsKeys(list);
    SameKeysOrdered(LiveUploads(list), LiveUploads(ResumeEach(list)));
  }

  lemma {:induction false} ResumeKeepsKeys(list: seq<Session>)
    requires Halted(list)
    ensures |LiveUploads(ResumeEach(list))| == |LiveUploads(list)|
    ensures forall i :: 0 <= i < |LiveUploads(list)| ==>
      SortKey(LiveUploads(ResumeEach(list))[i]) == SortKey(LiveUploads(list)[i])
  {
    if list != [] {
      assert ResumeEach(list)[1..] == ResumeEach(list[1..]);
      ResumeKeepsKeys(list[1..]);
    }
  }

  lemma SameKeysOrdered(s: seq<Session>, t: seq<Session>)
    requires Ordered(s) && |s| == |t| && forall i :: 0 <= i < |s| ==> SortKey(t[i]) == SortKey(s[i])
    ensures Ordered(t)
  {
  }

  // ---------- The order that the starts will leave ----------

  /** An upload that a start lets send at once. */
  predicate SendsAtOnce(s: Session) {
    && s.upload && s.flags.waitingOnLocal && s.flags.beginTransferEnabled
    && s.connected && s.numFiles > 0 && s.starts != []
  }

  /** The sort key it will have then. */
  function KeyIf(s: Session): nat {
    if SendsAtOnce(s) then SortKey(Uploaded(s, s.starts[0])) else SortKey(s)
  }

  predicate FailsIf(s: Session) {
    SendsAtOnce(s) && s.starts[0].aborts
  }

  function KeyAfter(from: seq<Session>, limits: Limits, rounds: nat, k: nat): nat
    requires k < |from|
  {
    if Started(from, true, limits, rounds, k) then KeyIf(from[k]) else SortKey(from[k])
  }

  predicate AliveAfter(from: seq<Session>, limits: Limits, rounds: nat, k: nat)
    requires k < |from|
  {
    Live(from[k]) && !(Started(from, true, limits, rounds, k) && FailsIf(from[k]))
  }

  /** Every upload that will be started, and not fail, is in order with every other one. */
  predicate WillBeInOrder(from: seq<Session>, limits: Limits, rounds: nat) {
    forall i, j :: 0 <= i < j < |from| && AliveAfter(from, limits, rounds, i) && AliveAfter(from, limits, rounds, j) ==>
      Started(from, true, limits, rounds, i) || Started(from, true, limits, rounds, j) ==>
      KeyAfter(from, limits, rounds, i) <= KeyAfter(from, limits, rounds, j)
  }

  lemma BeginForetold(s: Session)
    ensures SortKey(Begin(s)) == KeyIf(s)
    ensures Live(Begin(s)) <==> Live(s) && !FailsIf(s)
  {
  }

  lemma {:induction false} PairsOrder(list: seq<Session>)
    requires forall i, j :: 0 <= i < j < |list| && Live(list[i]) && Live(list[j]) ==>
      SortKey(list[i]) <= SortKey(list[j])
    ensures Ordered(LiveUploads(list))
  {
    hide Live, SortKey;
    if list != [] {
      var rest := list[1..];
      assert forall i :: 0 <= i < |rest| ==> rest[i] == list[i + 1];
      PairsOrder(rest);
      var live := LiveUploads(rest);
      forall n | Live(list[0]) && 0 <= n < |live| ensures SortKey(list[0]) <= SortKey(live[n]) {
        var i := LiveComesFrom(rest, n);
      }
      if Live(list[0]) {
        assert LiveUploads(list) == [list[0]] + live;
        OrderedFirst(list[0], live);
      }
    }
  }

  lemma OrderedFirst(e: Session, s: seq<Session>)
    requires Ordered(s) && forall n :: 0 <= n < |s| ==> SortKey(e) <= SortKey(s[n])
    ensures Ordered([e] + s)
  {
    hide SortKey;
  }

  lemma {:induction false} LiveComesFrom(list: seq<Session>, n: nat) returns (i: nat)
    requires n < |LiveUploads(list)|
    ensures i < |list| && Live(list[i]) && list[i] == LiveUploads(list)[n]
  {
    hide Live;
    if Live(list[0]) && n == 0 {
      i := 0;
    } else {
      i := LiveComesFrom(list[1..], if Live(list[0]) then n - 1 else n);
      i := i + 1;
    }
  }

  lemma Foretold(list: seq<Session>, cfg: Config, k: nat)
    requires cfg.shortestUploadsFirst && k < |list|
    ensures var from, r := StartedFrom(list, NeedsSort(list)), DequeueAll(list, cfg, 0)[k];
            var rounds := Rounds(NeedsSort(list), true);
            && (Live(r) <==> AliveAfter(from, cfg.uploads, rounds, k))
            && (Live(r) ==> SortKey(r) == KeyAfter(from, cfg.uploads, rounds, k))
  {
    hide DequeueAll, StartedFrom, NeedsSort, Started, KeyIf, FailsIf, SortKey, Begin;
    DequeueStarts(list, cfg, 0, k);
    BeginForetold(StartedFrom(list, NeedsSort(list))[k]);
  }

  /** A call leaves nothing to re-sort if and only if the uploads that the first-come rule
      chooses will, with what they send at once, be in order with all the others. The
      limits, the flags and the amounts that decide it are those before the starts. */
  lemma SettlesIff(list: seq<Session>, cfg: Config)
    requires cfg.shortestUploadsFirst
    ensures !NeedsSort(DequeueAll(list, cfg, 0)) <==> 
      WillBeInOrder(StartedFrom(list, NeedsSort(list)), cfg.uploads, Rounds(NeedsSort(list), true))
  {
    hide DequeueAll, StartedFrom, Started, Live, SortKey, LiveUploads, KeyIf, FailsIf;
    var from, r := StartedFrom(list, NeedsSort(list)), DequeueAll(list, cfg, 0);
    var rounds := Rounds(NeedsSort(list), true);
    forall k | 0 <= k < |list|
      ensures Live(r[k]) <==> AliveAfter(from, cfg.uploads, rounds, k)
      ensures Live(r[k]) ==> SortKey(r[k]) == KeyAfter(from, cfg.uploads, rounds, k)
    {
      Foretold(list, cfg, k);
    }
    DequeueOnlyStarts(list, cfg);
    if Ordered(LiveUploads(r)) {
      forall i, j | 0 <= i < j < |list| && Live(r[i]) && Live(r[j]) ensures SortKey(r[i]) <= SortKey(r[j]) {
        LiveOrderIsListOrder(r, i, j);
      }
    }
    if WillBeInOrder(from, cfg.uploads, rounds) {
      forall i, j | 0 <= i < j < |list| && Live(r[i]) && Live(r[j]) ensures SortKey(r[i]) <= SortKey(r[j]) {
        LiveOrderIsListOrder(from, i, j);
      }
      PairsOrder(r);
    }
  }

  /** The live uploads are in order whichever of them are started. */
  predicate StartsFit(from: seq<Session>) {
    forall i, j :: 0 <= i < j < |from| && Live(from[i]) && Live(from[j]) ==>
      && KeyIf(from[i]) <= SortKey(from[j])
      && SortKey(from[i]) <= KeyIf(from[j])
      && KeyIf(from[i]) <= KeyIf(from[j])
  }

  /** Then a call settles under all limits. */
  lemma SettlesUnderAllLimits(list: seq<Session>, cfg: Config)
    requires cfg.shortestUploadsFirst && StartsFit(StartedFrom(list, NeedsSort(list)))
    ensures !NeedsSort(DequeueAll(list, cfg, 0))
  {
    hide DequeueAll, StartedFrom, NeedsSort, Started, Live, SortKey, KeyIf, FailsIf;
    SettlesIff(list, cfg);
  }

  // ---------- Where the amounts come from ----------

  /** What a call of DoUpload leaves behind, whatever the file system does, is what some
      start says. */
  lemma UploadRunIsAStart(s: Session, u: Transfer.Upload, shared: Transfer.Files, ios: seq<Transfer.FileIO>)
    requires Transfer.UploadRun(u, shared, ios).Some? && Transfer.Steady(u)
    requires s.bytesLeft == Transfer.BytesLeft(u, shared)
    ensures var next := Transfer.UploadRun(u, shared, ios).value.next;
            && Transfer.BytesLeft(next, shared) <= s.bytesLeft
            && var start := Start(s.bytesLeft - Transfer.BytesLeft(next, shared), next.flags.aborted);
            && Uploaded(s, start).bytesLeft == Transfer.BytesLeft(next, shared)
            && (next.flags.aborted ==> Uploaded(s, start).flags.errorOccurred)
  {
    Transfer.RunNeverGrows(u, shared, ios);
  }

  // ---------- Two uploads and one slot ----------

  const ONE_SLOT := Config(Limits(1, 1), Limits(0, 0), true)

  lemma CountPair(s: Session, t: Session, upload: bool, user: User)
    ensures Count([s, t], upload, user) ==
      (if Counts(s, upload, user) then 1 else 0) + (if Counts(t, upload, user) then 1 else 0)
  {
    assert [s, t][..1] == [s] && [s][..0] == [];
  }

  predicate Waits(s: Session) {
    s.upload && s.flags.waitingOnLocal
  }

  /** The slot goes to the first upload that waits; none is left while one is active. */
  lemma PassesOfPair(s: Session, t: Session)
    requires Waits(t) && s.upload
    ensures Waits(s) ==> BothPasses([s, t], ONE_SLOT) == [Begin(s), t]
    ensures IsActive(s) ==> BothPasses([s, t], ONE_SLOT) == [s, t]
  {
    CountPair(s, t, true, Anyone);
    CountPair(s, t, true, UserOf(s));
    CountPair(s, t, false, Anyone);
    CountPair(Begin(s), t, false, Anyone);
    if Waits(s) {
      var list := [s, t];
      assert list[0 := Begin(s)] == [Begin(s), t] && list[0] == s;
      assert MayStart(list, list[0], true, 1);
      assert Scan([Begin(s), t], 1, true, 1, 0) == [Begin(s), t];
      assert Scan(list, 0, true, 1, 1) == [Begin(s), t];
      assert Pass([s, t], true, Limits(1, 1)) == [Begin(s), t];
      assert Pass([Begin(s), t], false, Limits(0, 0)) == [Begin(s), t];
    }
  }

  lemma LivePair(s: Session, t: Session)
    requires Live(s) && Live(t)
    ensures LiveUploads([s, t]) == [s, t]
    ensures NeedsSort([s, t]) <==> SortKey(s) > SortKey(t)
    ensures SortKey(s) > SortKey(t) ==> Resorted([s, t]) == [t, s]
  {
    hide Live, SortKey;
    assert [s, t][1..] == [t] && [t][1..] == [];
    assert LiveUploads([t]) == [t];
    assert LiveUploads([s, t]) == [s, t];
    if SortKey(s) > SortKey(t) {
      assert Sorted([t]) == [t];
      assert Insert(s, [t]) == [t] + Insert(s, []);
      assert Sorted([s, t]) == [t, s];
      assert [t, s][1..] == [s] && [s][1..] == [];
      assert Rewrite([t], [s]) == [s];
    }
  }

  /** A call that re-sorts two uploads puts the shorter one first and starts it. */
  lemma DequeuePair(s: Session, t: Session)
    requires Live(s) && Live(t) && SortKey(s) > SortKey(t)
    ensures var ready := t.(flags := t.flags.(waitingOnLocal := true, beginTransferEnabled := true));
            var waiting := s.(flags := s.flags.(waitingOnLocal := true, beginTransferEnabled := true));
            IsActive(Begin(ready)) ==> DequeueAll([s, t], ONE_SLOT, 0) == [Begin(ready), waiting]
  {
    hide BothPasses, NeedsSort, Resorted, Begin;
    var s1, t1 := PauseOne(s), PauseOne(t);
    var s2, t2 := ResumeOne(s1), ResumeOne(t1);
    LivePair(s, t);
    LivePair(s1, t1);
    assert PauseEach([s, t]) == [s1, t1] && ResumeEach([t1, s1]) == [t2, s2];
    DisabledStays(s1);
    PassesOfPair(s1, t1);
    PassesOfPair(t2, s2);
    assert Begin(t2).upload by {
      BeginKeepsDirection(t2);
    }
    PassesOfPair(Begin(t2), s2);
  }

  lemma DisabledStays(s: Session)
    requires !s.flags.beginTransferEnabled
    ensures Begin(s) == s
  {
  }

  /** The calls need not settle: the shorter upload gets the one slot, sends its last bytes
      at once, ranks last from then on, and the next call takes the slot away from it
      before the peer has got them. */
  lemma DequeueMayNotSettle(s: Session, t: Session)
    requires Live(s) && Live(t) && 0 < t.bytesLeft < s.bytesLeft < 0xFFFF_FFFF_FFFF_FFFF
    requires t.connected && t.numFiles > 0 && t.starts == [Start(t.bytesLeft, false)] && s.starts == []
    ensures var first := DequeueAll([s, t], ONE_SLOT, 0);
            var second := DequeueAll(first, ONE_SLOT, 0);
            && |first| == 2 && first[0].id == t.id && IsActive(first[0]) && NeedsSort(first)
            && |second| == 2 && second[1].id == t.id && !IsActive(second[1]) && IsActive(second[0])
  {
    hide DequeueAll, NeedsSort;
    var first := DequeueAll([s, t], ONE_SLOT, 0);
    DequeuePair(s, t);
    LivePair(first[0], first[1]);
    DequeuePair(first[0], first[1]);
  }

  lemma {:induction false} LiveUploadExists(list: seq<Session>) returns (i: nat)
    requires LiveUploads(list) != []
    ensures i < |list| && list[i].upload
  {
    if Live(list[0]) {
      i := 0;
    } else {
      i := LiveUploadExists(list[1..]);
      i := i + 1;
    }
  }

  lemma {:induction false} PauseKeepsKeys(list: seq<Session>)
    ensures |LiveUploads(PauseEach(list))| == |LiveUploads(list)|
    ensures forall i :: 0 <= i < |LiveUploads(list)| ==>
      LiveUploads(PauseEach(list))[i] == PauseOne(LiveUploads(list)[i])
  {
    if list != [] {
      assert PauseEach(list)[1..] == PauseEach(list[1..]);
      PauseKeepsKeys(list[1..]);
    }
  }

  lemma PauseKeepsOrder(list: seq<Session>)
    ensures NeedsSort(PauseEach(list)) == NeedsSort(list)
  {
    hide LiveUploads;
    PauseKeepsKeys(list);
  }

  /** A re-sort that has an upload to sort ends with some upload enabled. */
  lemma ResortEnables(list: seq<Session>, cfg: Config)
    requires cfg.shortestUploadsFirst && NeedsSort(list)
    ensures !Halted(DequeueAll(list, cfg, 0))
  {
    hide BothPasses, Resorted, Live, Ordered;
    assert LiveUploads(list) != [] by {
      EmptyIsOrdered();
    }
    var i := LiveUploadExists(list);
    var paused := BothPasses(PauseEach(list), cfg);
    HaltedPassesKeepUploads(PauseEach(list), cfg);
    var resorted := Resorted(paused);
    ResortedIsShortestFirst(paused);
    ResortedStaysHalted(paused);
    assert paused[i] in multiset(resorted);
    var k :| 0 <= k < |resorted| && resorted[k] == paused[i];
    var resumed := ResumeEach(resorted);
    var first := BothPasses(resumed, cfg);
    BothPassesTouch(resumed, cfg);
    BothPassesTouch(first, cfg);
    assert resumed[k].upload && resumed[k].flags.beginTransferEnabled;
    assert Successor(resumed[k], first[k]);
    assert Successor(first[k], BothPasses(first, cfg)[k]);
  }

  lemma EmptyIsOrdered()
    ensures Ordered([])
  {
  }

  /** PauseAllUploads, as the user calls it, leaves the uploads halted if and only if no
      re-sort is due; a re-sort enables them again. */
  lemma PauseHaltsIff(list: seq<Session>, cfg: Config)
    ensures Halted(PauseAll(list, cfg, 0)) <==> !(cfg.shortestUploadsFirst && NeedsSort(list))
  {
    hide BothPasses, Resorted, NeedsSort, ResumeAll, DequeueAll;
    var halted := PauseEach(list);
    PauseKeepsOrder(list);
    HaltedPassesKeepUploads(halted, cfg);
    if cfg.shortestUploadsFirst && NeedsSort(list) {
      ResortEnables(halted, cfg);
    }
    DequeueWithoutSort(halted, cfg);
  }

  lemma DequeueWithoutSort(list: seq<Session>, cfg: Config)
    ensures !(cfg.shortestUploadsFirst && NeedsSort(list)) ==> DequeueAll(list, cfg, 0) == BothPasses(list, cfg)
  {
  }
}

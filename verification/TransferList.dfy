/** The window's transfer list: the session objects and the methods that start,
    requeue and reorder them in place. */
module TransferList {
  import opened Scheduler
  import opened Resort
  import opened Dequeue

  class ShareFileTransfer {
    const id: nat
    const upload: bool
    const remoteSessionID: string
    const connected: bool
    const numFiles: nat
    var bytesLeft: nat
    var starts: seq<Start>
    var flags: Flags

    function View(): Session
      reads this
    {
      Session(id, upload, remoteSessionID, bytesLeft, connected, numFiles, starts, flags)
    }

    /** DoUpload, of which only what it leaves behind matters here. */
    method DoUpload()
      modifies this
      ensures var s := old(View());
              View() == if s.starts == [] then s else Uploaded(s.(starts := s.starts[1..]), s.starts[0])
    {
      if starts != [] {
        bytesLeft := if starts[0].bytesOff < bytesLeft then bytesLeft - starts[0].bytesOff else 0;
        if starts[0].aborts {
          flags := flags.(finished := true, errorOccurred := true);
        }
        starts := starts[1..];
      }
    }

    method BeginTransfer()
      modifies this
      ensures View() == Begin(old(View()))
    {
      if flags.beginTransferEnabled && flags.waitingOnLocal {
        flags := flags.(waitingOnLocal := false);
        if upload {
          if connected && numFiles > 0 {
            DoUpload();
          }
        }
      }
    }

    method RequeueTransfer()
      modifies this
      ensures View() == old(View()).(flags := old(flags).(waitingOnLocal := true))
    {
      flags := flags.(waitingOnLocal := true);
    }

    method SetBeginTransferEnabled(enabled: bool)
      modifies this
      ensures View() == old(View()).(flags := old(flags).(beginTransferEnabled := enabled))
    {
      flags := flags.(beginTransferEnabled := enabled);
    }
  }

  function Views(list: seq<ShareFileTransfer>): (views: seq<Session>)
    reads list
    ensures |views| == |list|
    ensures forall i :: 0 <= i < |list| ==> views[i] == list[i].View()
  {
    if list == [] then [] else Views(list[..|list| - 1]) + [list[|list| - 1].View()]
  }

  /** No two list entries are the same session. */
  predicate Distinct(list: seq<ShareFileTransfer>) {
    forall i, j :: 0 <= i < j < |list| ==> list[i].id != list[j].id
  }

  /** A rearrangement: as long, without repetition, and of the same objects. */
  predicate Rearranged(list: seq<ShareFileTransfer>, original: seq<ShareFileTransfer>) {
    |list| == |original| && Distinct(list) && forall i :: 0 <= i < |list| ==> list[i] in original
  }

  // ---------- The sorted copy of the live uploads ----------

  function LiveObjects(list: seq<ShareFileTransfer>): (r: seq<ShareFileTransfer>)
    reads list
    ensures |r| <= |list|
  {
    if list == [] then []
    else (if Live(list[0].View()) then [list[0]] else []) + LiveObjects(list[1..])
  }

  /** What the comparison function reads of each session when the list is sorted. */
  type Keys = map<ShareFileTransfer, nat>

  function KeysOf(s: seq<ShareFileTransfer>): Keys
    reads s
  {
    map x | x in s :: SortKey(x.View())
  }

  function KeyOf(keys: Keys, x: ShareFileTransfer): nat {
    if x in keys then keys[x] else 0
  }

  function InsertObject(e: ShareFileTransfer, s: seq<ShareFileTransfer>, keys: Keys): seq<ShareFileTransfer> {
    if s == [] || KeyOf(keys, e) <= KeyOf(keys, s[0]) then [e] + s
    else [s[0]] + InsertObject(e, s[1..], keys)
  }

  function SortBy(s: seq<ShareFileTransfer>, keys: Keys): seq<ShareFileTransfer> {
    if s == [] then [] else InsertObject(s[0], SortBy(s[1..], keys), keys)
  }

  function SortObjects(s: seq<ShareFileTransfer>): seq<ShareFileTransfer>
    reads s
  {
    SortBy(s, KeysOf(s))
  }

  lemma {:induction false} InInserted(e: ShareFileTransfer, s: seq<ShareFileTransfer>, keys: Keys, x: ShareFileTransfer)
    ensures x in InsertObject(e, s, keys) <==> x == e || x in s
  {
    if s != [] && KeyOf(keys, e) > KeyOf(keys, s[0]) {
      InInserted(e, s[1..], keys, x);
      assert s == [s[0]] + s[1..];
    }
  }

  lemma {:induction false} InSortedObjects(s: seq<ShareFileTransfer>, keys: Keys, x: ShareFileTransfer)
    ensures x in SortBy(s, keys) <==> x in s
  {
    if s != [] {
      InSortedObjects(s[1..], keys, x);
      InInserted(s[0], SortBy(s[1..], keys), keys, x);
      assert s == [s[0]] + s[1..];
    }
  }

  lemma {:induction false} InLiveObjects(list: seq<ShareFileTransfer>, x: ShareFileTransfer)
    ensures x in LiveObjects(list) <==> x in list && Live(x.View())
  {
    hide Live;
    if list != [] {
      assert list == [list[0]] + list[1..];
      InLiveObjects(list[1..], x);
    }
  }

  lemma InSorted(list: seq<ShareFileTransfer>, x: ShareFileTransfer)
    ensures x in SortObjects(LiveObjects(list)) <==> x in list && Live(x.View())
  {
    InLiveObjects(list, x);
    InSortedObjects(LiveObjects(list), KeysOf(LiveObjects(list)), x);
  }

  // ---------- A rearranged list has no repetitions ----------

  predicate DistinctIds(list: seq<Session>) {
    forall i, j :: 0 <= i < j < |list| ==> list[i].id != list[j].id
  }

  lemma {:induction false} OccursOnce(list: seq<Session>, e: Session)
    requires DistinctIds(list)
    ensures multiset(list)[e] <= 1
  {
    if list != [] {
      assert list == [list[0]] + list[1..];
      OccursOnce(list[1..], e);
      if list[0] == e {
        assert e !in list[1..];
      }
    }
  }

  lemma OccursTwice(list: seq<Session>, i: nat, j: nat)
    requires i < j < |list| && list[i] == list[j]
    ensures multiset(list)[list[i]] >= 2
  {
    assert list == list[..i] + [list[i]] + list[i + 1..j] + [list[j]] + list[j + 1..];
  }

  lemma PermutationStaysDistinct(list: seq<Session>, permuted: seq<Session>)
    requires multiset(list) == multiset(permuted) && DistinctIds(list)
    ensures DistinctIds(permuted)
  {
    forall i, j | 0 <= i < j < |permuted| ensures permuted[i].id != permuted[j].id {
      assert permuted[i] in multiset(permuted) && permuted[j] in multiset(permuted);
      assert permuted[i] in list && permuted[j] in list;
      if permuted[i] == permuted[j] {
        OccursOnce(list, permuted[i]);
        OccursTwice(permuted, i, j);
      }
    }
  }

  lemma ViewsCons(x: ShareFileTransfer, s: seq<ShareFileTransfer>)
    ensures Views([x] + s) == [x.View()] + Views(s)
  {
  }

  lemma {:induction false} ViewsOfLive(list: seq<ShareFileTransfer>)
    ensures Views(LiveObjects(list)) == LiveUploads(Views(list))
  {
    hide Live;
    if list != [] {
      assert list == [list[0]] + list[1..];
      ViewsCons(list[0], list[1..]);
      ViewsOfLive(list[1..]);
      if Live(list[0].View()) {
        ViewsCons(list[0], LiveObjects(list[1..]));
      }
    }
  }

  predicate RightKeys(keys: Keys, s: seq<ShareFileTransfer>)
    reads s
  {
    forall i :: 0 <= i < |s| ==> KeyOf(keys, s[i]) == SortKey(s[i].View())
  }

  lemma {:induction false} ViewsOfInsert(e: ShareFileTransfer, s: seq<ShareFileTransfer>, keys: Keys)
    requires RightKeys(keys, [e] + s)
    ensures Views(InsertObject(e, s, keys)) == Insert(e.View(), Views(s))
    ensures RightKeys(keys, InsertObject(e, s, keys))
  {
    hide Views, SortKey;
    assert ([e] + s)[0] == e && forall i :: 0 <= i < |s| ==> ([e] + s)[i + 1] == s[i];
    if s == [] || KeyOf(keys, e) <= KeyOf(keys, s[0]) {
      ViewsCons(e, s);
    } else {
      assert s == [s[0]] + s[1..];
      ViewsCons(s[0], s[1..]);
      ViewsCons(s[0], InsertObject(e, s[1..], keys));
      ViewsOfInsert(e, s[1..], keys);
    }
  }

  lemma {:induction false} ViewsOfSortBy(s: seq<ShareFileTransfer>, keys: Keys)
    requires RightKeys(keys, s)
    ensures Views(SortBy(s, keys)) == Sorted(Views(s)) && RightKeys(keys, SortBy(s, keys))
  {
    hide Views, SortKey;
    if s != [] {
      assert s == [s[0]] + s[1..];
      ViewsCons(s[0], s[1..]);
      ViewsOfSortBy(s[1..], keys);
      ViewsOfInsert(s[0], SortBy(s[1..], keys), keys);
    }
  }

  lemma ViewsOfSorted(s: seq<ShareFileTransfer>)
    ensures Views(SortObjects(s)) == Sorted(Views(s))
  {
    ViewsOfSortBy(s, KeysOf(s));
  }

  lemma {:induction false} RewriteNothing(list: seq<Session>)
    ensures Rewrite(list, []) == list
  {
    if list != [] {
      RewriteNothing(list[1..]);
    }
  }

  /** What is done so far, followed by the rewrite of the rest, is the result. */
  predicate Rewriting(views: seq<Session>, list: seq<Session>, sorted: seq<Session>, j: nat, next: nat,
                      result: seq<Session>)
  {
    && j <= |list| == |views| && next <= |sorted| && views[j..] == list[j..]
    && views[..j] + Rewrite(list[j..], sorted[next..]) == result
  }

  lemma RewritingStarts(list: seq<Session>, sorted: seq<Session>)
    ensures Rewriting(list, list, sorted, 0, 0, Rewrite(list, sorted))
  {
    assert list[0..] == list && sorted[0..] == sorted;
  }

  lemma RewritingEnds(views: seq<Session>, list: seq<Session>, sorted: seq<Session>, next: nat, result: seq<Session>)
    requires Rewriting(views, list, sorted, |list|, next, result)
    ensures views == result
  {
    assert list[|list|..] == [] && views[..|list|] == views;
  }

  /** One step of the rewriting loop. */
  lemma RewriteStep(views: seq<Session>, list: seq<Session>, sorted: seq<Session>, j: nat, next: nat,
                    result: seq<Session>)
    requires Rewriting(views, list, sorted, j, next, result) && j < |list|
    ensures !Live(list[j]) ==> Rewriting(views, list, sorted, j + 1, next, result)
    ensures Live(list[j]) && next < |sorted| ==>
      Rewriting(views[j := sorted[next]], list, sorted, j + 1, next + 1, result)
    ensures Live(list[j]) && next == |sorted| ==> views == result
  {
    hide Live, Rewrite;
    assert views[j..][1..] == views[j + 1..] && views[..j + 1] == views[..j] + [views[j..][0]];
    assert views[j..][0] == list[j..][0] == list[j];
    RewriteFirst(list, sorted, j, next);
    if Live(list[j]) {
      if next < |sorted| {
        var updated := views[j := sorted[next]];
        assert updated[..j + 1] == views[..j] + [sorted[next]] && updated[j + 1..] == views[j + 1..];
      } else {
        assert sorted[next..] == [];
        RewriteNothing(list[j..]);
        assert views[..j] + views[j..] == views;
      }
    }
  }

  lemma RewriteFirst(list: seq<Session>, sorted: seq<Session>, j: nat, next: nat)
    requires j < |list| && next <= |sorted|
    ensures Rewrite(list[j..], sorted[next..]) ==
      if Live(list[j]) && next < |sorted| then [sorted[next]] + Rewrite(list[j + 1..], sorted[next + 1..])
      else [list[j]] + Rewrite(list[j + 1..], sorted[next..])
  {
    assert list[j..][1..] == list[j + 1..] && next < |sorted| ==> sorted[next..][1..] == sorted[next + 1..];
    assert list[j..][1..] == list[j + 1..];
  }

  /** The list when its first j entries have been rewritten. */
  predicate Scanned(list: seq<ShareFileTransfer>, before: seq<ShareFileTransfer>, j: nat) {
    j <= |list| == |before| && list[j..] == before[j..] && forall k :: 0 <= k < j ==> list[k] in before
  }

  lemma NothingScanned(list: seq<ShareFileTransfer>)
    ensures Scanned(list, list, 0)
  {
  }

  lemma ScannedOneMore(list: seq<ShareFileTransfer>, before: seq<ShareFileTransfer>, j: nat)
    requires j < |list| && Scanned(list, before, j)
    ensures list[j] == before[j] && Scanned(list, before, j + 1)
    ensures forall x :: x in before ==> Scanned(list[j := x], before, j + 1)
  {
    assert list[j] == list[j..][0] == before[j..][0];
    forall x | x in before ensures Scanned(list[j := x], before, j + 1) {
      assert list[j := x][j + 1..] == list[j..][1..];
    }
  }

  lemma ScannedMembers(list: seq<ShareFileTransfer>, before: seq<ShareFileTransfer>, j: nat)
    requires Scanned(list, before, j)
    ensures |list| == |before| && forall k :: 0 <= k < |list| ==> list[k] in before
  {
    forall k | j <= k < |list| ensures list[k] in before {
      assert list[k] == list[j..][k - j];
    }
  }

  /** The sorted list holds exactly the entries that are live. */
  predicate HoldsLive(sorted: seq<ShareFileTransfer>, list: seq<ShareFileTransfer>, views: seq<Session>) {
    && |views| == |list|
    && (forall k :: 0 <= k < |list| ==> (list[k] in sorted <==> Live(views[k])))
    && (forall k :: 0 <= k < |sorted| ==> sorted[k] in list)
  }

  lemma HoldsLiveAt(sorted: seq<ShareFileTransfer>, list: seq<ShareFileTransfer>, views: seq<Session>, j: nat,
                    next: nat)
    requires HoldsLive(sorted, list, views) && j < |list|
    ensures list[j] in sorted <==> Live(views[j])
    ensures next < |sorted| ==> sorted[next] in list
  {
  }

  lemma SortedMembers(list: seq<ShareFileTransfer>)
    ensures var sorted := SortObjects(LiveObjects(list));
            HoldsLive(sorted, list, Views(list)) && Views(sorted) == Sorted(LiveUploads(Views(list)))
  {
    hide Live, SortObjects, LiveObjects, Sorted, LiveUploads, Views;
    var sorted := SortObjects(LiveObjects(list));
    forall k | 0 <= k < |list| ensures list[k] in sorted <==> Live(Views(list)[k]) {
      InSorted(list, list[k]);
    }
    forall k | 0 <= k < |sorted| ensures sorted[k] in list {
      InSorted(list, sorted[k]);
    }
    ViewsOfLive(list);
    ViewsOfSorted(LiveObjects(list));
  }

  lemma ResortedStaysDistinct(views: seq<Session>)
    requires DistinctIds(views)
    ensures DistinctIds(Resorted(views))
  {
    hide Resorted, DistinctIds;
    ResortedIsShortestFirst(views);
    PermutationStaysDistinct(views, Resorted(views));
  }

  lemma DistinctViews(list: seq<ShareFileTransfer>)
    ensures Distinct(list) <==> DistinctIds(Views(list))
  {
    hide Views;
    var views := Views(list);
    if DistinctIds(views) {
      forall i, j | 0 <= i < j < |list| ensures list[i].id != list[j].id {
        assert views[i].id != views[j].id;
      }
    }
  }

  /** The comparison of the two object lists decides whether a re-sort is due. */
  lemma SortChangesIff(list: seq<ShareFileTransfer>)
    requires Distinct(list)
    ensures SortObjects(LiveObjects(list)) != LiveObjects(list) <==> NeedsSort(Views(list))
    ensures LiveObjects(list) == [] ==> !NeedsSort(Views(list))
  {
    hide Live, SortObjects, LiveObjects, Sorted, LiveUploads, Views, Ordered;
    var live := LiveObjects(list);
    var sorted := SortObjects(live);
    ViewsOfLive(list);
    ViewsOfSorted(live);
    SortedFixpoint(LiveUploads(Views(list)));
    if Views(sorted) == Views(live) {
      forall k | 0 <= k < |live| ensures sorted[k] == live[k] {
        assert sorted[k].View() == Views(sorted)[k] == Views(live)[k] == live[k].View();
        InSorted(list, sorted[k]);
        InLiveObjects(list, live[k]);
      }
    }
    if live == [] {
      EmptyIsOrdered();
    }
  }

  twostate lemma {:induction false} LiveObjectsKept(list: seq<ShareFileTransfer>)
    requires forall k :: 0 <= k < |list| ==> Live(list[k].View()) == old(Live(list[k].View()))
    ensures LiveObjects(list) == old(LiveObjects(list))
  {
    hide Live;
    if list != [] {
      assert forall k :: 0 <= k < |list| - 1 ==> list[1..][k] == list[k + 1];
      LiveObjectsKept(list[1..]);
    }
  }

  twostate lemma KeysKept(s: seq<ShareFileTransfer>)
    requires forall k :: 0 <= k < |s| ==> s[k].bytesLeft == old(s[k].bytesLeft)
    ensures KeysOf(s) == old(KeysOf(s))
  {
  }

  twostate lemma LiveBytesKept(list: seq<ShareFileTransfer>)
    requires forall k :: 0 <= k < |list| && list[k].upload ==> list[k].bytesLeft == old(list[k].bytesLeft)
    ensures var live := LiveObjects(list);
            forall k :: 0 <= k < |live| ==> live[k] in list && live[k].bytesLeft == old(live[k].bytesLeft)
  {
    var live := LiveObjects(list);
    forall k | 0 <= k < |live| ensures live[k] in list && live[k].bytesLeft == old(live[k].bytesLeft) {
      InLiveObjects(list, live[k]);
    }
  }

  /** Pausing changes neither which uploads are alive nor how much they have left. */
  lemma PauseKeepsLive(views: seq<Session>, cfg: Config, k: nat)
    requires k < |views|
    ensures Live(PauseAll(views, cfg, 1)[k]) == Live(views[k])
    ensures views[k].upload ==> PauseAll(views, cfg, 1)[k].bytesLeft == views[k].bytesLeft
  {
    hide BothPasses;
    HaltedPassesKeepUploads(PauseEach(views), cfg);
    BothPassesTouch(PauseEach(views), cfg);
  }

  class ShareWindow {
    var transferList: seq<ShareFileTransfer>
    var cfg: Config
    var dequeueCount: nat

    constructor (transfers: seq<ShareFileTransfer>, cfg: Config)
      ensures transferList == transfers && this.cfg == cfg && dequeueCount == 0
    {
      transferList, this.cfg, dequeueCount := transfers, cfg, 0;
    }

    method CountActiveSessions(upload: bool, user: User) returns (numActive: nat)
      ensures numActive == Count(Views(transferList), upload, user)
    {
      hide Views;
      ghost var views := Views(transferList);
      numActive := 0;
      var i := |transferList| - 1;
      assert views[..i + 1] == views;
      while i >= 0
        invariant -1 <= i < |transferList|
        invariant numActive + Count(views[..i + 1], upload, user) == Count(views, upload, user)
      {
        assert views[..i + 1][..i] == views[..i];
        var next := transferList[i];
        if next.upload == upload && !next.flags.waitingOnLocal && !next.flags.finished
          && (user.Anyone? || user.id == next.remoteSessionID) {
          numActive := numActive + 1;
        }
        i := i - 1;
      }
    }

    /** One object changes, so one view does. */
    twostate lemma OneViewChanged(j: nat)
      requires j < |transferList| && Distinct(transferList)
      requires transferList == old(transferList)
      requires forall k :: 0 <= k < |transferList| && k != j ==> transferList[k].View() == old(transferList[k].View())
      ensures Views(transferList) == old(Views(transferList))[j := transferList[j].View()]
    {
    }

    method BeginAt(j: nat)
      requires j < |transferList| && Distinct(transferList)
      modifies transferList[j]
      ensures Views(transferList) == old(Views(transferList))[j := Begin(old(Views(transferList))[j])]
    {
      hide Begin;
      transferList[j].BeginTransfer();
      OneViewChanged(j);
    }

    method PauseAt(j: nat)
      requires j < |transferList| && Distinct(transferList)
      modifies transferList[j]
      ensures Views(transferList) == old(Views(transferList))[j := PauseOne(old(Views(transferList))[j])]
    {
      var xfr := transferList[j];
      if xfr.upload {
        if !xfr.flags.waitingOnLocal {
          xfr.RequeueTransfer();
        }
        xfr.SetBeginTransferEnabled(false);
      }
      OneViewChanged(j);
    }

    method ResumeAt(j: nat)
      requires j < |transferList| && Distinct(transferList)
      modifies transferList[j]
      ensures Views(transferList) == old(Views(transferList))[j := ResumeOne(old(Views(transferList))[j])]
    {
      hide Begin;
      var xfr := transferList[j];
      if xfr.upload && xfr.flags.waitingOnLocal {
        if xfr.flags.beginTransferEnabled {
          xfr.BeginTransfer();
        } else {
          xfr.SetBeginTransferEnabled(true);
        }
      }
      OneViewChanged(j);
    }

    /** Starts the session at index j if it waits and its user has a slot left. */
    method TryBegin(j: nat, upload: bool, perUser: nat) returns (started: bool)
      requires j < |transferList| && Distinct(transferList)
      modifies transferList
      ensures var before := old(Views(transferList));
              && started == MayStart(before, before[j], upload, perUser)
              && Views(transferList) == if started then before[j := Begin(before[j])] else before
    {
      hide Count, Begin, Views;
      var next := transferList[j];
      assert Views(transferList)[j] == next.View();
      var user := if next.remoteSessionID == "" then Anyone else Only(next.remoteSessionID);
      var count := CountActiveSessions(upload, user);
      started := next.upload == upload && next.flags.waitingOnLocal && count < perUser;
      if started {
        BeginAt(j);
      }
    }

    /** DequeueTransferSessions(upload) */
    method DequeueDirection(upload: bool)
      requires Distinct(transferList)
      modifies transferList
      ensures Views(transferList) ==
        Pass(old(Views(transferList)), upload, if upload then cfg.uploads else cfg.downloads)
    {
      hide Count, Begin, Views, ToInt32, MayStart;
      var limits := if upload then cfg.uploads else cfg.downloads;
      ghost var before := Views(transferList);
      ghost var views := before;
      var active := CountActiveSessions(upload, Anyone);
      var numToStart := ToInt32(limits.total - active);
      if numToStart > 0 {
        ghost var result := Scan(views, 0, upload, limits.perUser, numToStart);
        assert result == Pass(before, upload, limits);
        var j := 0;
        while j < |transferList| && numToStart > 0
          invariant 0 <= j <= |transferList| == |views| && numToStart >= 0
          invariant Views(transferList) == views
          invariant Scan(views, j, upload, limits.perUser, numToStart) == result
        {
          var started := TryBegin(j, upload, limits.perUser);
          if started {
            views := views[j := Begin(views[j])];
            numToStart := numToStart - 1;
          }
          j := j + 1;
        }
      }
    }

    method PauseAllUploads()
      requires Distinct(transferList)
      modifies this, transferList
      ensures Rearranged(transferList, old(transferList))
      ensures cfg == old(cfg) && dequeueCount == old(dequeueCount)
      ensures Views(transferList) == PauseAll(old(Views(transferList)), cfg, dequeueCount)
      ensures dequeueCount > 0 ==> transferList == old(transferList)
      decreases if dequeueCount == 0 then 3 else 1, 0
    {
      hide PauseOne, DequeueAll, Views;
      ghost var before := Views(transferList);
      var i := |transferList| - 1;
      while i >= 0
        invariant -1 <= i < |transferList|
        invariant forall k :: 0 <= k <= i ==> Views(transferList)[k] == before[k]
        invariant forall k :: i < k < |transferList| ==> Views(transferList)[k] == PauseOne(before[k])
        modifies transferList
      {
        PauseAt(i);
        i := i - 1;
      }
      assert Views(transferList) == PauseEach(before);
      DequeueTransferSessions();
    }

    method ResumeAllUploads()
      requires Distinct(transferList)
      modifies this, transferList
      ensures Rearranged(transferList, old(transferList))
      ensures cfg == old(cfg) && dequeueCount == old(dequeueCount)
      ensures Views(transferList) == ResumeAll(old(Views(transferList)), cfg, dequeueCount)
      ensures dequeueCount > 0 ==> transferList == old(transferList)
      decreases if dequeueCount == 0 then 3 else 1, 0
    {
      hide ResumeOne, DequeueAll, Views;
      ghost var before := Views(transferList);
      var num := |transferList|;
      for i := 0 to num
        invariant forall k :: 0 <= k < i ==> Views(transferList)[k] == ResumeOne(before[k])
        invariant forall k :: i <= k < num ==> Views(transferList)[k] == before[k]
        modifies transferList
      {
        ResumeAt(i);
      }
      assert Views(transferList) == ResumeEach(before);
      DequeueTransferSessions();
    }

    method ReplaceItem(j: nat, x: ShareFileTransfer)
      requires j < |transferList|
      modifies this`transferList
      ensures transferList == old(transferList)[j := x]
      ensures Views(transferList) == old(Views(transferList))[j := old(x.View())]
    {
      transferList := transferList[j := x];
    }

    /** The loop that replaces live uploads by the sorted ones while it scans the same list. */
    method RewriteList(sorted: seq<ShareFileTransfer>)
      requires Distinct(transferList)
      requires sorted == SortObjects(LiveObjects(transferList))
      modifies this`transferList
      ensures Rearranged(transferList, old(transferList))
      ensures Views(transferList) == Resorted(old(Views(transferList)))
    {
      hide Live, LiveObjects, SortObjects, Sorted, LiveUploads, Views, Rewrite, Distinct, DistinctIds;
      hide Scanned, HoldsLive, Rewriting;
      ghost var before, original, sortedViews := transferList, Views(transferList), Views(sorted);
      ghost var views, result := original, Rewrite(original, sortedViews);
      SortedMembers(transferList);
      DistinctViews(transferList);
      assert result == Resorted(original);
      ResortedStaysDistinct(original);
      hide Resorted;
      RewritingStarts(original, sortedViews);
      NothingScanned(before);
      var numXfers := |transferList|;
      var next := 0;
      var j := 0;
      while j < numXfers
        invariant 0 <= j <= numXfers == |transferList| == |views| && 0 <= next <= |sorted| == |sortedViews|
        invariant Scanned(transferList, before, j)
        invariant Views(transferList) == views && Views(sorted) == sortedViews
        invariant Rewriting(views, original, sortedViews, j, next, result)
      {
        var item := transferList[j];
        ScannedOneMore(transferList, before, j);
        HoldsLiveAt(sorted, before, original, j, next);
        RewriteStep(views, original, sortedViews, j, next, result);
        if item in sorted {
          if next < |sorted| {
            ReplaceItem(j, sorted[next]);
            views := views[j := sortedViews[next]];
            next := next + 1;
          } else {
            break;
          }
        }
        j := j + 1;
      }
      if j == numXfers {
        RewritingEnds(views, original, sortedViews, next, result);
      }
      ScannedMembers(transferList, before, j);
      DistinctViews(transferList);
    }

    /** Pauses the uploads, puts them in order and resumes them. */
    method Resort(sorted: seq<ShareFileTransfer>)
      requires Distinct(transferList) && dequeueCount == 0
      requires sorted == SortObjects(LiveObjects(transferList))
      modifies this, transferList
      ensures Rearranged(transferList, old(transferList))
      ensures cfg == old(cfg) && dequeueCount == 0
      ensures Views(transferList) == ResumeAll(Resorted(PauseAll(old(Views(transferList)), cfg, 1)), cfg, 1)
      decreases 1, 1
    {
      hide Live, Views, LiveObjects, KeysOf, SortBy, Resorted, DequeueAll, PauseAll, ResumeAll;
      ghost var before := transferList;
      dequeueCount := dequeueCount + 1;
      PauseAllUploads();
      forall k | 0 <= k < |before|
        ensures Live(before[k].View()) == old(Live(before[k].View()))
        ensures before[k].upload ==> before[k].bytesLeft == old(before[k].bytesLeft)
      {
        PauseKeepsLive(old(Views(transferList)), cfg, k);
      }
      LiveObjectsKept(before);
      LiveBytesKept(before);
      KeysKept(LiveObjects(before));
      RewriteList(sorted);
      ResumeAllUploads();
      dequeueCount := dequeueCount - 1;
    }

    method DequeueTransferSessions()
      requires Distinct(transferList)
      modifies this, transferList
      ensures Rearranged(transferList, old(transferList))
      ensures cfg == old(cfg) && dequeueCount == old(dequeueCount)
      ensures Views(transferList) == DequeueAll(old(Views(transferList)), cfg, dequeueCount)
      ensures dequeueCount > 0 ==> transferList == old(transferList)
      decreases if dequeueCount == 0 then 2 else 0, 0
    {
      hide Live, Views, LiveObjects, SortObjects, Resorted, NeedsSort, Pass, PauseAll, ResumeAll;
      if dequeueCount == 0 && cfg.shortestUploadsFirst {
        var origList := LiveObjects(transferList);
        SortChangesIff(transferList);
        if |origList| > 0 {
          var sortList := SortObjects(origList);
          if sortList != origList {
            Resort(sortList);
          }
        }
      }
      DequeueDirection(true);
      DequeueDirection(false);
    }
  }
}

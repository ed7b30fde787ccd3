/** Shortest uploads first: the rewrite of the transfer list's upload positions, and
    the guarded mutual recursion of dequeueing, pausing and resuming. */
module Resort {
  import opened Scheduler

  // ---------- Sorting ----------

  /** SortShareFileTransfersBySize's key: nothing left ranks last. */
  function SortKey(s: Session): nat {
    if s.bytesLeft > 0 then s.bytesLeft else 0xFFFF_FFFF_FFFF_FFFF
  }

  predicate Live(s: Session) {
    s.upload && !s.flags.finished && !s.flags.errorOccurred
  }

  function LiveUploads(list: seq<Session>): (r: seq<Session>)
    ensures |r| <= |list|
    ensures forall i :: 0 <= i < |r| ==> Live(r[i])
  {
    if list == [] then []
    else (if Live(list[0]) then [list[0]] else []) + LiveUploads(list[1..])
  }

  predicate Ordered(s: seq<Session>) {
    forall i, j :: 0 <= i < j < |s| ==> SortKey(s[i]) <= SortKey(s[j])
  }

  function Insert(e: Session, s: seq<Session>): (r: seq<Session>)
    ensures |r| == |s| + 1
  {
    if s == [] || SortKey(e) <= SortKey(s[0]) then [e] + s
    else [s[0]] + Insert(e, s[1..])
  }

  /** The stable sort of Hashtable::SortByKey. */
  function Sorted(s: seq<Session>): (r: seq<Session>)
    ensures |r| == |s|
  {
    if s == [] then [] else Insert(s[0], Sorted(s[1..]))
  }

  lemma {:induction false} InsertIsOrdered(e: Session, s: seq<Session>)
    requires Ordered(s)
    ensures Ordered(Insert(e, s)) && multiset(Insert(e, s)) == multiset{e} + multiset(s)
  {
    if s == [] {
    } else if SortKey(e) <= SortKey(s[0]) {
    } else {
      InsertIsOrdered(e, s[1..]);
      var t := Insert(e, s[1..]);
      assert s == [s[0]] + s[1..];
      forall j | 0 <= j < |t| ensures SortKey(s[0]) <= SortKey(t[j]) {
        assert t[j] in multiset(t);
        assert t[j] in s[1..] || t[j] == e;
      }
    }
  }

  lemma {:induction false} SortedIsOrdered(s: seq<Session>)
    ensures Ordered(Sorted(s)) && multiset(Sorted(s)) == multiset(s)
  {
    hide Insert, SortKey;
    if s != [] {
      SortedIsOrdered(s[1..]);
      InsertIsOrdered(s[0], Sorted(s[1..]));
      assert s == [s[0]] + s[1..];
    }
  }

  lemma {:induction false} SortedFixpoint(s: seq<Session>)
    ensures Sorted(s) == s <==> Ordered(s)
  {
    SortedIsOrdered(s);
    if Ordered(s) && s != [] {
      SortedFixpoint(s[1..]);
    }
  }

  // ---------- Rewriting the list ----------

  /** The loop that puts the sorted uploads into the live upload positions. */
  function Rewrite(list: seq<Session>, sorted: seq<Session>): (r: seq<Session>)
    ensures |r| == |list|
  {
    if list == [] then []
    else if Live(list[0]) && sorted != [] then [sorted[0]] + Rewrite(list[1..], sorted[1..])
    else [list[0]] + Rewrite(list[1..], sorted)
  }

  function Resorted(list: seq<Session>): (r: seq<Session>)
    ensures |r| == |list|
  {
    Rewrite(list, Sorted(LiveUploads(list)))
  }

  predicate AllLive(s: seq<Session>) {
    forall i :: 0 <= i < |s| ==> Live(s[i])
  }

  lemma {:induction false} RewriteFills(list: seq<Session>, sorted: seq<Session>)
    requires |sorted| == |LiveUploads(list)| && AllLive(sorted)
    ensures LiveUploads(Rewrite(list, sorted)) == sorted
  {
    if list != [] {
      var r := Rewrite(list, sorted);
      if Live(list[0]) {
        RewriteFills(list[1..], sorted[1..]);
        assert r[1..] == Rewrite(list[1..], sorted[1..]);
        assert sorted == [sorted[0]] + sorted[1..];
      } else {
        RewriteFills(list[1..], sorted);
        assert r[1..] == Rewrite(list[1..], sorted);
      }
    }
  }

  lemma {:induction false} RewriteAt(list: seq<Session>, sorted: seq<Session>, j: nat)
    requires |sorted| == |LiveUploads(list)| && AllLive(sorted) && j < |list|
    ensures var r := Rewrite(list, sorted);
            Live(r[j]) == Live(list[j]) && (!Live(list[j]) ==> r[j] == list[j])
  {
    if j > 0 {
      RewriteAt(list[1..], if Live(list[0]) then sorted[1..] else sorted, j - 1);
    }
  }

  lemma Occurrences(s: seq<Session>, e: Session)
    requires s != []
    ensures multiset(s)[e] == (if s[0] == e then 1 else 0) + multiset(s[1..])[e]
  {
    assert s == [s[0]] + s[1..];
  }

  lemma {:induction false} RewritePermutes(list: seq<Session>, sorted: seq<Session>, e: Session)
    requires |sorted| == |LiveUploads(list)|
    ensures multiset(Rewrite(list, sorted))[e] + multiset(LiveUploads(list))[e] ==
      multiset(list)[e] + multiset(sorted)[e]
  {
    hide Live;
    if list != [] {
      var r, live := Rewrite(list, sorted), LiveUploads(list);
      Occurrences(list, e);
      Occurrences(r, e);
      if Live(list[0]) {
        Occurrences(sorted, e);
        Occurrences(live, e);
        assert live[1..] == LiveUploads(list[1..]) && r[1..] == Rewrite(list[1..], sorted[1..]);
        RewritePermutes(list[1..], sorted[1..], e);
      } else {
        assert live == LiveUploads(list[1..]) && r[1..] == Rewrite(list[1..], sorted);
        RewritePermutes(list[1..], sorted, e);
      }
    }
  }

  /** Positions of live uploads translate to positions among the live uploads. */
  lemma {:induction false} LiveOrderIsListOrder(list: seq<Session>, i: nat, j: nat)
    requires i < j < |list| && Live(list[i]) && Live(list[j]) && Ordered(LiveUploads(list))
    ensures SortKey(list[i]) <= SortKey(list[j])
  {
    var live := LiveUploads(list);
    if i == 0 {
      LiveIsMember(list[1..], j - 1);
      assert live == [list[0]] + LiveUploads(list[1..]);
      assert list[j] in live[1..];
      var k :| 0 <= k < |live| - 1 && live[k + 1] == list[j];
      assert live[0] == list[0];
    } else {
      assert Ordered(LiveUploads(list[1..])) by {
        if Live(list[0]) {
          assert live[1..] == LiveUploads(list[1..]);
        } else {
          assert live == LiveUploads(list[1..]);
        }
      }
      LiveOrderIsListOrder(list[1..], i - 1, j - 1);
    }
  }

  lemma {:induction false} LiveIsMember(list: seq<Session>, j: nat)
    requires j < |list| && Live(list[j])
    ensures list[j] in LiveUploads(list)
  {
    if j > 0 {
      LiveIsMember(list[1..], j - 1);
    }
  }

  lemma SameElementsLive(s: seq<Session>, t: seq<Session>)
    requires AllLive(s) && multiset(s) == multiset(t)
    ensures AllLive(t)
  {
    forall i | 0 <= i < |t| ensures Live(t[i]) {
      assert t[i] in multiset(t);
      assert t[i] in s;
    }
  }

  /** The rewrite permutes the list, keeps everything that is not a live upload at its
      index, and leaves the live uploads shortest first. */
  lemma ResortedIsShortestFirst(list: seq<Session>)
    ensures var r := Resorted(list);
            && multiset(r) == multiset(list)
            && (forall j :: 0 <= j < |list| && !Live(list[j]) ==> r[j] == list[j])
            && (forall j :: 0 <= j < |list| && Live(list[j]) ==> Live(r[j]))
            && (forall i, j :: 0 <= i < j < |list| && Live(list[i]) && Live(list[j]) ==> SortKey(r[i]) <= SortKey(r[j]))
            && Ordered(LiveUploads(r))
  {
    hide Live, SortKey, Sorted, LiveUploads, Rewrite;
    var live := LiveUploads(list);
    var sorted := Sorted(live);
    SortedIsOrdered(live);
    SameElementsLive(live, sorted);
    RewriteFills(list, sorted);
    assert multiset(Resorted(list)) == multiset(list) by {
      forall e ensures multiset(Resorted(list))[e] == multiset(list)[e] {
        RewritePermutes(list, sorted, e);
      }
    }
    forall j | 0 <= j < |list|
      ensures Live(Resorted(list)[j]) == Live(list[j]) && (!Live(list[j]) ==> Resorted(list)[j] == list[j])
    {
      RewriteAt(list, sorted, j);
    }
    forall i, j | 0 <= i < j < |list| && Live(list[i]) && Live(list[j])
      ensures SortKey(Resorted(list)[i]) <= SortKey(Resorted(list)[j])
    {
      LiveOrderIsListOrder(Resorted(list), i, j);
    }
  }

  /** The same in the list's own terms: downloads, finished and failed sessions keep their
      places, and of two other uploads the later one has as much left or more, or nothing. */
  lemma ShortestFirstMeans(list: seq<Session>)
    requires forall j :: 0 <= j < |list| ==> list[j].bytesLeft < 0xFFFF_FFFF_FFFF_FFFF
    ensures var r := Resorted(list);
            && (forall j :: 0 <= j < |list| ==>
                  (Live(r[j]) <==> r[j].upload && !r[j].flags.finished && !r[j].flags.errorOccurred)
                  && (!list[j].upload || list[j].flags.finished || list[j].flags.errorOccurred ==> r[j] == list[j]))
            && (forall i, j :: 0 <= i < j < |list| && Live(r[i]) && Live(r[j]) ==>
                  r[j].bytesLeft == 0 || 0 < r[i].bytesLeft <= r[j].bytesLeft)
  {
    hide Resorted, LiveUploads, Ordered;
    ResortedIsShortestFirst(list);
    var r := Resorted(list);
    forall j | 0 <= j < |list| ensures r[j].bytesLeft < 0xFFFF_FFFF_FFFF_FFFF {
      assert r[j] in multiset(r);
      assert r[j] in list;
    }
  }
}

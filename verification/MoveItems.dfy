/** MoveSelectedItems: one pass of adjacent swaps moves the selected items of a list up
    or down by one place. */
module MoveItems {
  // ---------- The effect on the list ----------

  /** Selected items moved up: each swaps with an unselected item just before it. */
  function MovedUp<T(==)>(s: seq<T>, movers: set<T>): (r: seq<T>)
    ensures |r| == |s|
  {
    if s == [] then []
    else
      var n := |s| - 1;
      var front := MovedUp(s[..n], movers);
      if s[n] in movers && n > 0 && front[n - 1] !in movers then front[..n - 1] + [s[n], front[n - 1]]
      else front + [s[n]]
  }

  function Reverse<T>(s: seq<T>): (r: seq<T>)
    ensures |r| == |s|
    ensures forall i :: 0 <= i < |s| ==> r[i] == s[|s| - 1 - i]
  {
    seq(|s|, i requires 0 <= i < |s| => s[|s| - 1 - i])
  }

  /** The list as seen from the end that the movers move to. */
  function View<T>(s: seq<T>, delta: int): (r: seq<T>)
    ensures |r| == |s|
  {
    if delta < 0 then s else Reverse(s)
  }

  function Moved<T(==)>(s: seq<T>, movers: set<T>, delta: int): (r: seq<T>)
    ensures |r| == |s|
  {
    View(MovedUp(View(s, delta), movers), delta)
  }

  /** The list without the movers, or only the movers. */
  function Keep<T(==)>(s: seq<T>, movers: set<T>, moving: bool): seq<T> {
    if s == [] then []
    else Keep(s[..|s| - 1], movers, moving) + if (s[|s| - 1] in movers) == moving then [s[|s| - 1]] else []
  }

  lemma {:induction false} KeepAppend<T>(a: seq<T>, b: seq<T>, movers: set<T>, moving: bool)
    ensures Keep(a + b, movers, moving) == Keep(a, movers, moving) + Keep(b, movers, moving)
  {
    if b == [] {
      assert a + b == a;
    } else {
      KeepAppend(a, b[..|b| - 1], movers, moving);
      assert (a + b)[..|a + b| - 1] == a + b[..|b| - 1];
    }
  }

  lemma {:induction false} KeepReverse<T>(s: seq<T>, movers: set<T>, moving: bool)
    ensures Keep(Reverse(s), movers, moving) == Reverse(Keep(s, movers, moving))
  {
    if s != [] {
      var n := |s| - 1;
      KeepReverse(s[..n], movers, moving);
      assert Reverse(s) == [s[n]] + Reverse(s[..n]);
      KeepAppend([s[n]], Reverse(s[..n]), movers, moving);
      assert [s[n]][..0] == [];
    }
  }

  lemma {:induction false} InKeep<T>(s: seq<T>, movers: set<T>, moving: bool, x: T)
    ensures x in Keep(s, movers, moving) <==> x in s && (x in movers) == moving
  {
    if s != [] {
      InKeep(s[..|s| - 1], movers, moving, x);
      assert s == s[..|s| - 1] + [s[|s| - 1]];
    }
  }

  lemma KeepPair<T>(front: seq<T>, x: T, y: T, movers: set<T>, moving: bool)
    requires x in movers && y !in movers
    ensures Keep(front + [x, y], movers, moving) == Keep(front + [y, x], movers, moving)
  {
    assert (front + [x, y])[..|front| + 1] == front + [x] && (front + [y, x])[..|front| + 1] == front + [y];
    assert (front + [x])[..|front|] == front && (front + [y])[..|front|] == front;
  }

  lemma {:induction false} MovedUpKeeps<T>(s: seq<T>, movers: set<T>, moving: bool)
    ensures Keep(MovedUp(s, movers), movers, moving) == Keep(s, movers, moving)
  {
    if s != [] {
      var n := |s| - 1;
      var front := MovedUp(s[..n], movers);
      MovedUpKeeps(s[..n], movers, moving);
      assert (front + [s[n]])[..n] == front;
      if s[n] in movers && n > 0 && front[n - 1] !in movers {
        KeepPair(front[..n - 1], s[n], front[n - 1], movers, moving);
        assert front[..n - 1] + [front[n - 1], s[n]] == front + [s[n]];
      }
    }
  }

  /** Someone before index k may be passed. */
  predicate RoomBefore<T(==)>(s: seq<T>, movers: set<T>, k: nat) {
    exists i :: 0 <= i < k && i < |s| && s[i] !in movers
  }

  lemma {:induction false} LastMovedUp<T>(s: seq<T>, movers: set<T>)
    requires s != []
    ensures MovedUp(s, movers)[|s| - 1] !in movers <==> RoomBefore(s, movers, |s|)
  {
    var n := |s| - 1;
    if n > 0 {
      LastMovedUp(s[..n], movers);
    }
  }

  lemma {:induction false} MovedUpShifts<T>(s: seq<T>, movers: set<T>, k: nat)
    requires k < |s| && s[k] in movers
    ensures MovedUp(s, movers)[if RoomBefore(s, movers, k) then k - 1 else k] == s[k]
  {
    var n := |s| - 1;
    if k == n {
      if n > 0 {
        LastMovedUp(s[..n], movers);
      }
    } else {
      MovedUpShifts(s[..n], movers, k);
      assert RoomBefore(s[..n], movers, k) == RoomBefore(s, movers, k);
    }
  }

  /** The movers keep their order, and so do the others. */
  lemma MovedKeepsOrder<T>(s: seq<T>, movers: set<T>, delta: int, moving: bool)
    ensures Keep(Moved(s, movers, delta), movers, moving) == Keep(s, movers, moving)
  {
    hide MovedUp, Keep;
    var v := View(s, delta);
    MovedUpKeeps(v, movers, moving);
    if delta >= 0 {
      KeepReverse(s, movers, moving);
      KeepReverse(MovedUp(v, movers), movers, moving);
      var kept := Keep(s, movers, moving);
      assert Reverse(Reverse(kept)) == kept;
    }
  }

  /** Each mover shifts by exactly one place if some item that does not move lies on the
      side it moves to, and stays where it is otherwise. */
  lemma MovesByOneIff<T>(s: seq<T>, movers: set<T>, delta: int, k: nat)
    requires (delta == 1 || delta == -1) && k < |s| && s[k] in movers
    ensures var room := exists i :: 0 <= i < |s| && s[i] !in movers && (if delta < 0 then i < k else i > k);
            var target := if room then k + delta else k;
            0 <= target < |s| && Moved(s, movers, delta)[target] == s[k]
  {
    hide MovedUp;
    var v := View(s, delta);
    var n := |s|;
    if delta < 0 {
      MovedUpShifts(s, movers, k);
    } else {
      MovedUpShifts(v, movers, n - 1 - k);
      if i :| 0 <= i < n && s[i] !in movers && i > k {
        assert v[n - 1 - i] !in movers;
      }
      if i :| 0 <= i < n - 1 - k && v[i] !in movers {
        assert s[n - 1 - i] !in movers;
      }
    }
  }

  // ---------- The pass of swaps ----------

  predicate Distinct<T(==)>(s: seq<T>) {
    forall i, j :: 0 <= i < j < |s| ==> s[i] != s[j]
  }

  function Members<T(==)>(s: seq<T>): set<T> {
    set i | 0 <= i < |s| :: s[i]
  }

  /** IndexOf of the list classes. */
  function IndexOf<T(==)>(s: seq<T>, x: T): (i: int)
    ensures -1 <= i < |s|
    ensures i >= 0 ==> s[i] == x && forall k :: 0 <= k < i ==> s[k] != x
    ensures i < 0 <==> x !in s
  {
    if s == [] then -1
    else if s[0] == x then 0
    else
      var i := IndexOf(s[1..], x);
      assert s == [s[0]] + s[1..];
      if i < 0 then -1 else i + 1
  }

  function Swapped<T>(s: seq<T>, i: nat, j: nat): (r: seq<T>)
    requires i < |s| && j < |s|
    ensures |r| == |s|
  {
    s[i := s[j]][j := s[i]]
  }

  lemma {:induction false} MovedUpMembers<T>(s: seq<T>, movers: set<T>, x: T)
    ensures x in MovedUp(s, movers) <==> x in s
  {
    InKeep(MovedUp(s, movers), movers, x in movers, x);
    InKeep(s, movers, x in movers, x);
    MovedUpKeeps(s, movers, x in movers);
  }

  lemma MovedUpNext<T>(s: seq<T>, movers: set<T>, p: nat)
    requires p < |s|
    ensures var front := MovedUp(s[..p], movers);
            MovedUp(s[..p + 1], movers) ==
              if s[p] in movers && p > 0 && front[p - 1] !in movers then front[..p - 1] + [s[p], front[p - 1]]
              else front + [s[p]]
  {
    assert s[..p + 1][..p] == s[..p] && s[..p + 1][p] == s[p];
  }

  lemma KeepFirst<T>(s: seq<T>, movers: set<T>, p: nat)
    requires p < |s|
    ensures Keep(s[p..], movers, true) == (if s[p] in movers then [s[p]] else []) + Keep(s[p + 1..], movers, true)
  {
    assert s[p..] == [s[p]] + s[p + 1..] && [s[p]][..0] == [];
    KeepAppend([s[p]], s[p + 1..], movers, true);
  }

  lemma KeepSome<T>(s: seq<T>, movers: set<T>)
    requires Keep(s, movers, true) != []
    ensures s != []
  {
  }

  /** The next mover from index lim on. */
  lemma {:induction false} NextMover<T>(s: seq<T>, movers: set<T>, lim: nat) returns (p: nat)
    requires lim <= |s| && Keep(s[lim..], movers, true) != []
    ensures lim <= p < |s| && s[p] in movers
    ensures Keep(s[lim..], movers, true) == [s[p]] + Keep(s[p + 1..], movers, true)
    ensures MovedUp(s[..p], movers) + s[p..] == MovedUp(s[..lim], movers) + s[lim..]
    decreases |s| - lim
  {
    hide MovedUp, Keep;
    KeepSome(s[lim..], movers);
    KeepFirst(s, movers, lim);
    if s[lim] in movers {
      p := lim;
    } else {
      p := NextMover(s, movers, lim + 1);
      MovedUpNext(s, movers, lim);
      assert s[lim..] == [s[lim]] + s[lim + 1..];
    }
  }

  lemma ExchangeLast<T>(front: seq<T>, x: T, rest: seq<T>)
    requires front != []
    ensures var n := |front| - 1;
            Swapped(front + ([x] + rest), n, n + 1) == (front[..n] + [x, front[n]]) + rest
  {
  }

  lemma OnlyThere<T>(front: seq<T>, x: T, rest: seq<T>)
    requires x !in front && x !in rest
    ensures var list := front + ([x] + rest);
            list[|front|] == x && forall k :: 0 <= k < |list| && k != |front| ==> list[k] != x
  {
  }

  /** What one step of the pass does, seen from the end that the movers move to. */
  lemma StepUp<T>(s: seq<T>, movers: set<T>, p: nat)
    requires p < |s| && s[p] in movers && Distinct(s)
    ensures var list := MovedUp(s[..p], movers) + s[p..];
            var next := MovedUp(s[..p + 1], movers) + s[p + 1..];
            && list[p] == s[p] && (forall k :: 0 <= k < |s| && k != p ==> list[k] != s[p])
            && next == if p > 0 && list[p - 1] !in movers then Swapped(list, p - 1, p) else list
  {
    hide MovedUp, Keep, Swapped;
    var front := MovedUp(s[..p], movers);
    MovedUpNext(s, movers, p);
    MovedUpMembers(s[..p], movers, s[p]);
    assert s[p..] == [s[p]] + s[p + 1..];
    OnlyThere(front, s[p], s[p + 1..]);
    if p > 0 {
      ExchangeLast(front, s[p], s[p + 1..]);
      assert (front + s[p..])[p - 1] == front[p - 1];
    }
    assert (front + [s[p]]) + s[p + 1..] == front + s[p..];
  }

  lemma SwapInReverse<T>(s: seq<T>, i: nat)
    requires i + 1 < |s|
    ensures Reverse(Swapped(s, i, i + 1)) == Swapped(Reverse(s), |s| - 2 - i, |s| - 1 - i)
  {
  }

  lemma IndexIs<T>(s: seq<T>, i: nat)
    requires i < |s| && forall k :: 0 <= k < i ==> s[k] != s[i]
    ensures IndexOf(s, s[i]) == i
  {
  }

  /** Where an item of the view is in the list itself, and what swapping it there does. */
  lemma SwapInView<T>(items: seq<T>, delta: int, p: nat)
    requires (delta == 1 || delta == -1) && p < |items|
    requires var list := View(items, delta); forall k :: 0 <= k < |list| && k != p ==> list[k] != list[p]
    ensures var list, i := View(items, delta), IndexOf(items, View(items, delta)[p]);
            && i == (if delta < 0 then p else |items| - 1 - p)
            && (p > 0 ==>
                  && items[i + delta] == list[p - 1]
                  && View(Swapped(items, i, i + delta), delta) == Swapped(list, p - 1, p))
  {
    hide Swapped, IndexOf;
    var list := View(items, delta);
    if delta < 0 {
      IndexIs(items, p);
      if p > 0 {
        SwapEitherWay(items, p - 1, p);
      }
    } else {
      var i := |items| - 1 - p;
      assert forall k :: 0 <= k <= i ==> items[k] == list[|items| - 1 - k];
      IndexIs(items, i);
      if p > 0 {
        SwapInReverse(items, i);
      }
    }
  }

  /** The same step in the list itself. */
  lemma StepIn<T>(s: seq<T>, movers: set<T>, p: nat, items: seq<T>, delta: int)
    requires (delta == 1 || delta == -1) && p < |s| == |items| && s[p] in movers && Distinct(s)
    requires View(items, delta) == MovedUp(s[..p], movers) + s[p..]
    ensures var i := IndexOf(items, s[p]);
            var next := MovedUp(s[..p + 1], movers) + s[p + 1..];
            && i == (if delta < 0 then p else |s| - 1 - p)
            && if p > 0 && items[i + delta] !in movers then View(Swapped(items, i, i + delta), delta) == next
               else View(items, delta) == next
  {
    hide MovedUp, Distinct, Swapped, IndexOf, View;
    StepUp(s, movers, p);
    SwapInView(items, delta, p);
  }

  lemma SwapEitherWay<T>(s: seq<T>, i: nat, j: nat)
    requires i < |s| && j < |s|
    ensures Swapped(s, i, j) == Swapped(s, j, i)
  {
  }

  lemma {:induction false} NoMoreMovers<T>(s: seq<T>, movers: set<T>, lim: nat)
    requires lim <= |s| && Keep(s[lim..], movers, true) == []
    ensures MovedUp(s[..lim], movers) + s[lim..] == MovedUp(s, movers)
    decreases |s| - lim
  {
    hide MovedUp, Keep;
    if lim < |s| {
      KeepFirst(s, movers, lim);
      MovedUpNext(s, movers, lim);
      NoMoreMovers(s, movers, lim + 1);
      assert s[lim..] == [s[lim]] + s[lim + 1..];
    } else {
      assert s[..lim] == s;
    }
  }

  /** How many movers the loop has dealt with when its counter is j. */
  function Done(j: int, numMovers: int, delta: int): int {
    if delta < 0 then j else numMovers - 1 - j
  }

  lemma NextInQueue<T>(movers: seq<T>, delta: int, j: nat)
    requires j < |movers|
    ensures var queue, t := View(movers, delta), Done(j, |movers|, delta);
            queue[t] == movers[j] && queue[t..] == [movers[j]] + queue[t + 1..]
  {
  }

  lemma ViewTwice<T>(s: seq<T>, delta: int)
    ensures View(View(s, delta), delta) == s
  {
  }

  lemma {:induction false} MovedUpStaysDistinct<T>(s: seq<T>, movers: set<T>)
    requires Distinct(s)
    ensures Distinct(MovedUp(s, movers))
  {
    if s != [] {
      var n := |s| - 1;
      var front := MovedUp(s[..n], movers);
      MovedUpStaysDistinct(s[..n], movers);
      MovedUpMembers(s[..n], movers, s[n]);
      assert s[n] !in front;
    }
  }

  lemma MovedMembers<T>(s: seq<T>, movers: set<T>, delta: int, x: T)
    ensures x in Moved(s, movers, delta) <==> x in s
  {
    hide MovedUp;
    ViewMembers(s, delta, x);
    MovedUpMembers(View(s, delta), movers, x);
    ViewMembers(MovedUp(View(s, delta), movers), delta, x);
  }

  lemma MovedStaysDistinct<T>(s: seq<T>, movers: set<T>, delta: int)
    requires Distinct(s)
    ensures Distinct(Moved(s, movers, delta))
    ensures Members(Moved(s, movers, delta)) == Members(s)
  {
    hide MovedUp;
    var v := View(s, delta);
    MovedUpStaysDistinct(v, movers);
    forall x | x in Members(Moved(s, movers, delta)) ensures x in Members(s) {
      MovedMembers(s, movers, delta, x);
    }
    forall x | x in Members(s) ensures x in Members(Moved(s, movers, delta)) {
      MovedMembers(s, movers, delta, x);
    }
  }

  lemma SelectedAreKept<T>(items: seq<T>, selected: set<T>)
    requires selected <= Members(items)
    ensures selected == Members(Keep(items, selected, true))
  {
    var kept := Keep(items, selected, true);
    forall x | x in selected ensures x in Members(kept) {
      InKeep(items, selected, true, x);
      assert x in Members(items);
    }
    forall x | x in Members(kept) ensures x in selected {
      InKeep(items, selected, true, x);
    }
  }

  lemma OneMore<T>(s: seq<T>, k: nat)
    requires k < |s|
    ensures Members(s[..k + 1]) == Members(s[..k]) + {s[k]}
  {
    assert s[..k + 1] == s[..k] + [s[k]];
    forall x ensures x in Members(s[..k + 1]) <==> x in Members(s[..k]) + {s[k]} {
      if x == s[k] {
        assert s[..k + 1][k] == x;
      }
      if x in Members(s[..k]) {
        var i :| 0 <= i < k && s[..k][i] == x;
        assert s[..k + 1][i] == x;
      }
    }
  }

  lemma ViewMembers<T>(s: seq<T>, delta: int, x: T)
    ensures x in View(s, delta) <==> x in s
  {
    if i :| 0 <= i < |s| && s[i] == x {
      assert Reverse(s)[|s| - 1 - i] == x;
    }
  }

  /** The list after one mover had its turn. */
  function Turn<T(==)>(items: seq<T>, movers: set<T>, mover: T, delta: int): (r: seq<T>)
    requires mover in items
    ensures |r| == |items|
  {
    var i := IndexOf(items, mover);
    if 0 <= i + delta < |items| && items[i + delta] !in movers then Swapped(items, i, i + delta) else items
  }

  /** What the loop has done when lim items, seen from the goal, are behind it. */
  ghost predicate Progress<T>(s: seq<T>, movers: set<T>, lim: nat, items: seq<T>, left: seq<T>, delta: int) {
    && lim <= |s| && |items| == |s|
    && Keep(s[lim..], movers, true) == left
    && View(items, delta) == MovedUp(s[..lim], movers) + s[lim..]
  }

  lemma NothingMoved<T>(movers: set<T>)
    ensures MovedUp([], movers) == []
  {
  }

  lemma StartLoop<T>(items: seq<T>, movers: set<T>, delta: int)
    requires Distinct(items)
    ensures Progress(View(items, delta), movers, 0, items, View(Keep(items, movers, true), delta), delta)
    ensures Distinct(View(items, delta))
  {
    hide MovedUp, Keep;
    var s := View(items, delta);
    assert s[0..] == s && s[..0] == [];
    KeepReverse(items, movers, true);
    NothingMoved(movers);
  }

  lemma EndLoop<T>(s: seq<T>, movers: set<T>, lim: nat, items: seq<T>, delta: int)
    requires Progress(s, movers, lim, items, [], delta)
    ensures items == View(MovedUp(s, movers), delta)
  {
    NoMoreMovers(s, movers, lim);
    ViewTwice(items, delta);
  }

  lemma LoopStep<T>(s: seq<T>, movers: set<T>, lim: nat, items: seq<T>, left: seq<T>, delta: int) returns (next: nat)
    requires (delta == 1 || delta == -1) && Distinct(s) && left != []
    requires Progress(s, movers, lim, items, left, delta)
    ensures left[0] in items && Progress(s, movers, next, Turn(items, movers, left[0], delta), left[1..], delta)
  {
    hide MovedUp, Keep, Distinct, Swapped, View, IndexOf;
    var p := NextMover(s, movers, lim);
    StepIn(s, movers, p, items, delta);
    next := p + 1;
  }

  /** The list control: its items, and which of them are selected. */
  class ListView<T(==)> {
    var items: seq<T>
    var selected: set<T>

    predicate Valid()
      reads this
    {
      Distinct(items) && selected <= Members(items)
    }

    constructor (items: seq<T>)
      requires Distinct(items)
      ensures Valid() && this.items == items && selected == {}
    {
      this.items, selected := items, {};
    }

    method SwapItems(i: nat, j: nat)
      requires i < |items| && j < |items|
      modifies `items
      ensures items == Swapped(old(items), i, j)
    {
      var x := items[i];
      items := items[i := items[j]];
      items := items[j := x];
    }

    /** Swaps one mover with the item next to it, unless that is a mover too. */
    method MoveOne(movers: seq<T>, mover: T, delta: int)
      requires (delta == 1 || delta == -1) && mover in items
      modifies `items
      ensures items == old(Turn(items, Members(movers), mover, delta))
    {
      hide Swapped;
      var numItems := |items|;
      var oldIdx := IndexOf(items, mover);
      var newIdx := oldIdx + delta;
      if newIdx >= numItems {
        newIdx := numItems - 1;
      }
      if newIdx < 0 {
        newIdx := 0;
      }
      assert items[newIdx] in Members(movers) <==> items[newIdx] in movers;
      if newIdx != oldIdx && oldIdx >= 0 && IndexOf(movers, items[newIdx]) == -1 {
        SwapItems(oldIdx, newIdx);
      }
    }

    /** The swaps: each mover in turn, the one next to the goal first. */
    method MoveEach(movers: seq<T>, delta: int, ghost moving: set<T>)
      requires Distinct(items) && (delta == 1 || delta == -1)
      requires movers == Keep(items, moving, true) && moving == Members(movers)
      modifies `items
      ensures items == Moved(old(items), moving, delta)
    {
      hide MovedUp, Keep, Distinct, View, Members, Turn, Progress;
      var numMovers := |movers|;
      ghost var s := View(items, delta);
      StartLoop(items, moving, delta);
      ghost var lim := 0;
      ghost var left := View(movers, delta);
      var j := if delta < 0 then 0 else numMovers - 1;
      while if delta < 0 then j < numMovers else j >= 0
        invariant -1 <= j <= numMovers && 0 <= Done(j, numMovers, delta) <= numMovers
        invariant left == View(movers, delta)[Done(j, numMovers, delta)..]
        invariant Progress(s, moving, lim, items, left, delta)
        decreases |left|
      {
        NextInQueue(movers, delta, j);
        lim := LoopStep(s, moving, lim, items, left, delta);
        MoveOne(movers, movers[j], delta);
        left := left[1..];
        j := j - delta;
      }
      EndLoop(s, moving, lim, items, delta);
    }

    method MoveSelectedItems(delta: int)
      requires Valid() && (delta == 1 || delta == -1)
      modifies this
      ensures items == Moved(old(items), old(selected), delta)
      ensures selected == old(selected)
      ensures Valid()
    {
      hide MovedUp, Keep, Distinct, Moved;
      ghost var moving := selected;
      MovedStaysDistinct(items, selected, delta);
      // The movers are remembered as items, since their indices change.
      var movers := Keep(items, selected, true);
      SelectedAreKept(items, selected);
      selected := {};
      MoveEach(movers, delta, moving);
      // The selection follows the items.
      for k := 0 to |movers|
        invariant selected == Members(movers[..k])
        modifies `selected
      {
        assert movers[k] in moving && movers[k] in Members(items);
        var idx := IndexOf(items, movers[k]);
        if idx >= 0 {
          selected := selected + {items[idx]};
        }
        OneMore(movers, k);
      }
      assert movers[..|movers|] == movers;
    }
  }
}

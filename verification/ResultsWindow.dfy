/** The window and the remote users, whose methods change the paged results in place. */
module ResultsWindow {
  import opened Wrappers
  import opened Paging

  class RemoteUserItem {
    const owner: ShareWindow
    var files: map<string, RemoteFileItem>

    constructor (owner: ShareWindow)
      ensures this.owner == owner && files == map[]
    {
      this.owner, files := owner, map[];
    }

    /** The user's files are known, each under its own name. */
    ghost predicate Valid()
      reads this, owner`live
    {
      forall name :: name in files ==> files[name].fileName == name && files[name] in owner.live
    }

    /** Replaces the file of that name. The window stays valid if and only if the old one
        was not added in the batch that is still going on. */
    method PutFile(fileName: string, fileSize: Option<int>)
      requires Valid()
      modifies this, owner
      ensures Valid() && fileName in files && files == old(files)[fileName := files[fileName]]
      ensures fresh(files[fileName]) && files[fileName].fileSize == fileSize
      ensures owner.live == old(owner.live - Named(files, fileName)) + {files[fileName]}
      ensures old(owner.Valid()) ==> (owner.Valid() <==> old(Named(files, fileName) !! Pending(owner)))
      ensures owner.tempAddList == old(owner.tempAddList) + [files[fileName]]
    {
      hide Inv;
      ghost var replaced := Named(files, fileName);
      RemoveFile(fileName);
      var item := new RemoteFileItem(fileName, fileSize);
      files := files[item.fileName := item];
      owner.AddFileItem(item);
      forall x | x in replaced && x in owner.tempAddList ensures !owner.Valid() {
        PendingAreKnown(owner, x);
      }
    }

    method RemoveFile(fileName: string)
      requires Valid()
      modifies this, owner
      ensures Valid() && files == old(files) - {fileName}
      ensures owner.live == old(owner.live - Named(files, fileName))
      ensures old(owner.Valid()) ==> (owner.Valid() <==> old(Named(files, fileName) !! Pending(owner)))
      ensures owner.tempAddList == old(owner.tempAddList)
    {
      hide Inv;
      if fileName in files {
        var item := files[fileName];
        files := files - {fileName};
        owner.RemoveFileItem(item);
      }
    }

    method ClearFiles()
      requires Valid()
      modifies this, owner
      ensures files == map[]
      ensures owner.live == old(owner.live - files.Values)
      ensures old(owner.Valid()) && old(files.Values !! Pending(owner)) ==> owner.Valid()
      ensures old(owner.resultsPages) == [] ==> owner.State() == old(owner.State()).(bytes := owner.bytesShown)
      ensures owner.tempAddList == old(owner.tempAddList)
    {
      hide Inv;
      var rest := files.Keys;
      while rest != {}
        invariant rest <= files.Keys && files == old(files)
        invariant owner.live == old(owner.live) - set name | name in files.Keys - rest :: files[name]
        invariant old(owner.Valid()) && old(files.Values !! Pending(owner)) ==> owner.Valid()
        invariant old(owner.resultsPages) == [] ==> owner.State() == old(owner.State()).(bytes := owner.bytesShown)
        invariant owner.tempAddList == old(owner.tempAddList)
      {
        var name :| name in rest;
        assert files[name] in files.Values && files[name].fileName == name;
        owner.RemoveFileItem(files[name]);
        rest := rest - {name};
      }
      files := map[];
    }
  }

  function Pending(w: ShareWindow): set<RemoteFileItem>
    reads w
  {
    set x | x in w.tempAddList
  }

  lemma PendingAreKnown(w: ShareWindow, x: RemoteFileItem)
    requires x in w.tempAddList && x !in w.live
    ensures !w.Valid()
  {
    if w.Valid() {
      assert x in multiset(w.tempAddList);
      OnceInSum(PageItems(w.resultsPages), multiset(w.tempAddList), w.live, x);
      assert false;
    }
  }

  function Named(files: map<string, RemoteFileItem>, fileName: string): set<RemoteFileItem> {
    if fileName in files then {files[fileName]} else {}
  }

  function KnownFiles(users: seq<RemoteUserItem>): set<RemoteFileItem>
    reads users
  {
    if users == [] then {} else KnownFiles(users[..|users| - 1]) + users[|users| - 1].files.Values
  }

  lemma FillStep(pages: seq<Page>, addPage: nat, items: seq<RemoteFileItem>, i: nat, current: nat, pageSize: nat)
    requires addPage <= |pages| && pageSize > 0 && i < |items|
    ensures var f := FillPages(pages, addPage, items[i..], current, pageSize);
            if addPage < |pages| && |pages[addPage]| >= pageSize then
              f == FillPages(pages, addPage + 1, items[i..], current, pageSize)
            else
              var rest := FillPages(Place(pages, addPage, items[i]), addPage, items[i + 1..], current, pageSize);
              f == Fill(rest.pages, (if addPage == current then [items[i]] else []) + rest.display)
  {
    assert items[i..][0] == items[i] && items[i..][1..] == items[i + 1..];
  }

  lemma PlaceIs(pages: seq<Page>, addPage: nat, item: RemoteFileItem)
    requires addPage <= |pages|
    ensures var grown := if addPage < |pages| then pages else pages + [{}];
            Place(pages, addPage, item) == grown[addPage := grown[addPage] + {item}]
  {
  }

  lemma NothingToFill(pages: seq<Page>, addPage: nat, current: nat, pageSize: nat)
    requires addPage <= |pages| && pageSize > 0
    ensures FillPages(pages, addPage, [], current, pageSize) == Fill(pages, [])
  {
  }

  lemma NothingToShow(r: Results, page: int)
    requires r.pages == []
    ensures Switch(r, page) == r.(current := 0, view := multiset{})
  {
  }

  lemma KnownByUser(users: seq<RemoteUserItem>)
    ensures KnownFiles(users[..0]) == {} && users[..|users|] == users
    ensures forall k: nat :: k < |users| ==>
      KnownFiles(users[..k + 1]) == KnownFiles(users[..k]) + users[k].files.Values
  {
    forall k: nat | k < |users| ensures KnownFiles(users[..k + 1]) == KnownFiles(users[..k]) + users[k].files.Values {
      assert users[..k + 1][..k] == users[..k];
    }
  }

  class ShareWindow {
    const pageSize: nat
    var resultsPages: seq<Page>
    var currentPage: nat
    var resultsView: multiset<RemoteFileItem>
    var tempAddList: seq<RemoteFileItem>
    var bytesShown: int
    ghost var live: set<RemoteFileItem>

    function State(): Results
      reads this
    {
      Results(resultsPages, currentPage, resultsView, tempAddList, bytesShown)
    }

    ghost predicate Valid()
      reads this
    {
      pageSize > 0 && Inv(State(), live, pageSize)
    }

    /** Its own users, each once, none sharing a file with another. */
    ghost predicate OwnsUsers(users: seq<RemoteUserItem>)
      reads `live, users
    {
      && (forall i :: 0 <= i < |users| ==> users[i].owner == this && users[i].Valid())
      && (forall i, j :: 0 <= i < j < |users| ==> users[i] != users[j])
      && (forall i, j :: 0 <= i < j < |users| ==> users[i].files.Values !! users[j].files.Values)
    }

    constructor (pageSize: nat)
      requires pageSize > 0
      ensures Valid() && live == {} && this.pageSize == pageSize
    {
      this.pageSize := pageSize;
      resultsPages, currentPage, resultsView, tempAddList, bytesShown := [], 0, multiset{}, [], 0;
      live := {};
    }

    method AddFileItem(item: RemoteFileItem)
      modifies this
      ensures State() == Add(old(State()), item) && live == old(live) + {item}
      ensures old(Valid()) && item !in old(live) ==> Valid()
    {
      if old(Valid()) && item !in live {
        AddKeepsInv(State(), live, pageSize, item);
      }
      tempAddList := tempAddList + [item];
      if item.fileSize.Some? {
        bytesShown := bytesShown + item.fileSize.value;
      }
      live := live + {item};
    }

    /** Puts the pending items on pages; returns those that went to the current page. */
    method FillFromPending() returns (addToDisplay: seq<RemoteFileItem>)
      requires pageSize > 0
      modifies `resultsPages
      ensures Fill(resultsPages, addToDisplay) == old(FillPages(resultsPages, 0, tempAddList, currentPage, pageSize))
    {
      hide FillPages, Place, PageOrNothing;
      ghost var result := FillPages(resultsPages, 0, tempAddList, currentPage, pageSize);
      var tempSize := |tempAddList|;
      addToDisplay := [];
      var addPage := 0;
      var i := 0;
      assert tempAddList[0..] == tempAddList;
      while i < tempSize
        invariant 0 <= i <= tempSize && addPage <= |resultsPages|
        invariant var rest := FillPages(resultsPages, addPage, tempAddList[i..], currentPage, pageSize);
                  rest.pages == result.pages && addToDisplay + rest.display == result.display
        decreases tempSize - i, |resultsPages| - addPage
      {
        ghost var pages := resultsPages;
        FillStep(pages, addPage, tempAddList, i, currentPage, pageSize);
        PlaceIs(pages, addPage, tempAddList[i]);
        if addPage >= |resultsPages| {
          resultsPages := resultsPages + [{}];
        }
        var table := resultsPages[addPage];
        if |table| >= pageSize {
          addPage := addPage + 1;  // full: the next turn looks at the next page
          i := i - 1;  // and takes up this item once more
        } else {
          var nextItem := tempAddList[i];
          resultsPages := resultsPages[addPage := table + {nextItem}];
          if addPage == currentPage {
            addToDisplay := addToDisplay + [nextItem];
          }
        }
        i := i + 1;
      }
      assert tempAddList[i..] == [];
      NothingToFill(resultsPages, addPage, currentPage, pageSize);
    }

    method EndBatchFileResultUpdate()
      requires pageSize > 0
      modifies this
      ensures State() == EndBatch(old(State()), pageSize) && live == old(live)
      ensures old(Valid()) ==> Valid()
    {
      hide Inv, FillPages;
      if old(Valid()) {
        EndBatchKeepsInv(State(), live, pageSize);
      }
      if |tempAddList| > 0 {
        var addToDisplay := FillFromPending();
        resultsView := resultsView + multiset(addToDisplay);
        tempAddList := [];
      }
    }

    method SwitchToPage(page: int)
      modifies this
      ensures State() == Switch(old(State()), page) && live == old(live)
      ensures old(Valid()) ==> Valid()
    {
      var low := page;
      if low >= |resultsPages| {
        low := |resultsPages| - 1;
      }
      if low < 0 {
        low := 0;
      }
      currentPage := low;
      resultsView := multiset{};
      if |resultsPages| > 0 {
        resultsView := multiset(resultsPages[low]);
      }
    }

    method RemoveFileItem(item: RemoteFileItem)
      modifies this
      ensures State() == Remove(old(State()), item) && live == old(live) - {item}
      ensures old(Valid()) && item in old(live) ==> (Valid() <==> item !in old(tempAddList))
    {
      hide Inv, RemoveFrom;
      if old(Valid()) && item in live {
        RemoveKeepsInvIff(State(), live, pageSize, item);
      }
      live := live - {item};
      if item.fileSize.Some? {
        bytesShown := bytesShown - item.fileSize.value;
      }
      ghost var less := State();
      var i := |resultsPages| - 1;
      while i >= 0
        invariant -1 <= i < |resultsPages|
        invariant State() == less && live == old(live) - {item}
        invariant FindPage(resultsPages, item, |resultsPages|) == FindPage(resultsPages, item, i + 1)
      {
        if item in resultsPages[i] {
          RemoveFromPageAt(i, item);
          return;
        }
        i := i - 1;
      }
    }

    method RemoveFromPageAt(i: nat, item: RemoteFileItem)
      requires i < |resultsPages| && item in resultsPages[i]
      modifies this
      ensures State() == RemoveFrom(old(State()), i, item) && live == old(live)
    {
      hide Inv;
      var nextTable := resultsPages[i] - {item};
      resultsPages := resultsPages[i := nextTable];
      if i == currentPage {
        resultsView := resultsView - multiset{item};
      }
      if |nextTable| == 0 {
        resultsPages := resultsPages[..i] + resultsPages[i + 1..];
        if i < currentPage {
          currentPage := currentPage - 1;
        } else if i == currentPage {
          SwitchToPage(currentPage - 1);
        }
      }
    }

    /** Takes every user's files away, from pages that are already gone. */
    method ClearUsers(users: seq<RemoteUserItem>)
      requires OwnsUsers(users)
      requires resultsPages == []
      modifies this, users
      ensures State() == old(State()).(bytes := bytesShown)
      ensures live == old(live - KnownFiles(users))
      ensures forall i :: 0 <= i < |users| ==> users[i].files == map[]
    {
      hide Inv, KnownFiles;
      ghost var known: seq<set<RemoteFileItem>> :=
        seq(|users| + 1, k requires 0 <= k <= |users| => old(KnownFiles(users[..k])));
      KnownByUser(users);
      for k := 0 to |users|
        invariant State() == old(State()).(bytes := bytesShown)
        invariant live == old(live) - known[k]
        invariant forall i :: 0 <= i < k ==> users[i].files == map[]
        invariant forall i :: k <= i < |users| ==> users[i].files == old(users[i].files)
        invariant forall i :: k <= i < |users| ==> users[i].Valid()
      {
        users[k].ClearFiles();
      }
      assert users[..|users|] == users;
    }

    method ClearResults(users: seq<RemoteUserItem>)
      requires OwnsUsers(users)
      modifies this, users
      ensures State() == Clear(old(State()))
      ensures live == old(live - KnownFiles(users))
      ensures forall i :: 0 <= i < |users| ==> users[i].files == map[]
      ensures old(Valid()) && old(live <= KnownFiles(users)) ==> (Valid() <==> old(tempAddList) == [])
    {
      hide Inv, KnownFiles, OwnsUsers, Switch;
      if old(Valid()) {
        ClearKeepsInvIff(State(), live, pageSize);
      }
      resultsView := multiset{};
      resultsPages := [];
      NothingToShow(State(), 0);
      NothingToShow(old(State()).(pages := []), 0);
      SwitchToPage(0);
      ClearUsers(users);
      bytesShown := 0;
      if old(Valid()) && old(live <= KnownFiles(users)) {
        assert live == {};
      }
    }
  }
}

/** The index of the shared files: how often each name is counted, which node has which
    name, and the batches in which removed names are reported to the server. */
module ShareIndex {
  import opened Wrappers

  /** A device and a node number. */
  datatype NodeRef = NodeRef(device: int, node: int)

  const MAX_KEYS := 50

  /** `message` holds the keys of the removal message under construction; `flushed` the
      messages handed over for sending, each as its list of keys. */
  datatype Index = Index(
    nameToEntry: map<string, int>,
    nodeToEntry: map<NodeRef, string>,
    watchedDirs: set<NodeRef>,
    connected: bool,
    message: seq<string>,
    batchCount: nat,
    flushed: seq<seq<string>>)

  /** A directory is watched because a scan, which runs only while there is a connection,
      starts from it, or because it is in a watched one. */
  datatype Event =
    | NodeCreated(created: NodeRef, name: string, parent: NodeRef)
    | NodeRemoved(removed: NodeRef)
    | DirectoryAdded(directory: NodeRef, within: Option<NodeRef>)
    | DirectoryRemoved(directory: NodeRef)
    | BeginBatch
    | EndBatch
    | UnwatchAllDirs
    | Disconnect
    | Connect(succeeded: bool)

  /** RefFilename */
  function Ref(names: map<string, int>, name: string): map<string, int> {
    names[name := if name in names then names[name] + 1 else 1]
  }

  /** UnrefFilename */
  function Unref(names: map<string, int>, name: string): map<string, int> {
    if name in names then
      if names[name] - 1 <= 0 then names - {name} else names[name := names[name] - 1]
    else names
  }

  function Flush(s: Index): Index {
    s.(message := [], flushed := s.flushed + [s.message])
  }

  /** A file counts only in a watched directory. */
  function Created(s: Index, node: NodeRef, name: string, parent: NodeRef): Index {
    if parent in s.watchedDirs then
      s.(nameToEntry := Ref(s.nameToEntry, name), nodeToEntry := s.nodeToEntry[node := name])
    else s
  }

  /** The node leaves the table whether or not there is a connection. */
  function Removed(s: Index, node: NodeRef): Index {
    if node !in s.nodeToEntry then s
    else
      var name := s.nodeToEntry[node];
      var less := s.(nodeToEntry := s.nodeToEntry - {node});
      if !s.connected then less
      else
        var added := less.(nameToEntry := Unref(s.nameToEntry, name), message := s.message + [name]);
        if s.batchCount == 0 || |added.message| > MAX_KEYS then Flush(added) else added
  }

  function Unwatched(s: Index): Index {
    s.(nameToEntry := map[], nodeToEntry := map[], watchedDirs := {})
  }

  /** DisconnectFromServer, which waits for the scan to stop before anything else. */
  function Disconnected(s: Index): Index {
    if s.connected then Unwatched(s.(connected := false)) else s
  }

  /** NodeRemoved of a watched directory is DirectoryRemoved, followed by a batch for its entries. */
  function Step(s: Index, e: Event): Index {
    match e
    case NodeCreated(node, name, parent) => Created(s, node, name, parent)
    case NodeRemoved(node) => Removed(s, node)
    case DirectoryAdded(directory, within) =>
      if (if within.Some? then within.value in s.watchedDirs else s.connected) then
        s.(watchedDirs := s.watchedDirs + {directory})
      else s
    case DirectoryRemoved(directory) => s.(watchedDirs := s.watchedDirs - {directory})
    case BeginBatch => s.(batchCount := s.batchCount + 1)
    case EndBatch =>
      if s.batchCount == 0 then s
      else
        var ended := s.(batchCount := s.batchCount - 1);
        if ended.batchCount == 0 && ended.message != [] then Flush(ended) else ended
    case UnwatchAllDirs => Unwatched(s)
    case Disconnect => Disconnected(s)
    case Connect(succeeded) => Disconnected(s).(connected := succeeded)
  }

  /** Batches are well nested. */
  predicate Nested(s: Index, e: Event) {
    e.EndBatch? ==> s.batchCount > 0
  }

  // ---------- What is kept ----------

  function Count(names: map<string, int>, name: string): int {
    if name in names then names[name] else 0
  }

  function NodesNamed(nodes: map<NodeRef, string>, name: string): set<NodeRef> {
    set node | node in nodes && nodes[node] == name
  }

  function Tracked(nodes: map<NodeRef, string>, name: string): nat {
    |NodesNamed(nodes, name)|
  }

  /** Without a connection nothing is watched, so nothing is tracked. */
  predicate IdleUnconnected(s: Index) {
    !s.connected ==> s.watchedDirs == {} && s.nodeToEntry == map[] && s.nameToEntry == map[]
  }

  /** The event enters a node that is tracked already. */
  predicate Recreates(s: Index, e: Event) {
    e.NodeCreated? && e.parent in s.watchedDirs && e.created in s.nodeToEntry
  }

  predicate Clears(e: Event) {
    e.UnwatchAllDirs? || e.Disconnect? || e.Connect?
  }

  /** The names that are left counted without a node: the old names of such nodes. */
  function Leaked(s: Index, e: Event, leaked: multiset<string>): multiset<string> {
    if Clears(e) then multiset{}
    else if Recreates(s, e) then leaked + multiset{s.nodeToEntry[e.created]}
    else leaked
  }

  /** The keys to report: the names of the nodes removed while connected. */
  function Reported(s: Index, e: Event, keys: seq<string>): seq<string> {
    if e.NodeRemoved? && e.removed in s.nodeToEntry && s.connected then keys + [s.nodeToEntry[e.removed]] else keys
  }

  /** Each name's count is the number of tracked nodes that bear it plus what was leaked. */
  ghost predicate Conserved(s: Index, leaked: multiset<string>) {
    && (forall name: string {:trigger Count(s.nameToEntry, name)} ::
          Count(s.nameToEntry, name) == Tracked(s.nodeToEntry, name) + leaked[name])
    && forall name :: name in s.nameToEntry ==> s.nameToEntry[name] >= 1
  }

  function Flatten(messages: seq<seq<string>>): seq<string> {
    if messages == [] then [] else Flatten(messages[..|messages| - 1]) + messages[|messages| - 1]
  }

  /** Every key is flushed exactly once and in order, 1 to 51 to a message, and none is
      kept back outside a batch. */
  predicate Batched(s: Index, keys: seq<string>) {
    && Flatten(s.flushed) + s.message == keys
    && (forall i :: 0 <= i < |s.flushed| ==> 1 <= |s.flushed[i]| <= MAX_KEYS + 1)
    && |s.message| <= MAX_KEYS
    && (s.batchCount == 0 ==> s.message == [])
  }

  lemma NamedAfterPut(nodes: map<NodeRef, string>, node: NodeRef, name: string, other: string)
    ensures Tracked(nodes[node := name], other) ==
      Tracked(nodes, other)
      - (if node in nodes && nodes[node] == other then 1 else 0) + (if name == other then 1 else 0)
  {
    var before, after := NodesNamed(nodes, other), NodesNamed(nodes[node := name], other);
    if name == other {
      assert after == before + {node};
    } else {
      assert after == before - {node};
    }
  }

  lemma NamedAfterRemove(nodes: map<NodeRef, string>, node: NodeRef, other: string)
    requires node in nodes
    ensures Tracked(nodes - {node}, other) == Tracked(nodes, other) - (if nodes[node] == other then 1 else 0)
  {
    assert NodesNamed(nodes - {node}, other) == NodesNamed(nodes, other) - {node};
  }

  lemma CreatedConserves(s: Index, node: NodeRef, name: string, parent: NodeRef, leaked: multiset<string>)
    requires Conserved(s, leaked)
    ensures Conserved(Created(s, node, name, parent), Leaked(s, NodeCreated(node, name, parent), leaked))
  {
    hide Tracked;
    var t, after := Created(s, node, name, parent), Leaked(s, NodeCreated(node, name, parent), leaked);
    forall other: string ensures Count(t.nameToEntry, other) == Tracked(t.nodeToEntry, other) + after[other] {
      assert Count(s.nameToEntry, other) == Tracked(s.nodeToEntry, other) + leaked[other];
      NamedAfterPut(s.nodeToEntry, node, name, other);
    }
  }

  /** One name is counted once less, and one node less bears it. */
  lemma UnrefConserves(s: Index, node: NodeRef, leaked: multiset<string>, other: string)
    requires Conserved(s, leaked) && node in s.nodeToEntry
    ensures Count(Unref(s.nameToEntry, s.nodeToEntry[node]), other) ==
      Tracked(s.nodeToEntry - {node}, other) + leaked[other]
  {
    hide Tracked;
    assert Count(s.nameToEntry, other) == Tracked(s.nodeToEntry, other) + leaked[other];
    NamedAfterRemove(s.nodeToEntry, node, other);
    TrackedIsCounted(s, leaked, node);
  }

  lemma RemovedConserves(s: Index, node: NodeRef, leaked: multiset<string>)
    requires Conserved(s, leaked) && IdleUnconnected(s)
    ensures Conserved(Removed(s, node), leaked)
  {
    hide Tracked;
    var t := Removed(s, node);
    if node in s.nodeToEntry {
      forall other: string ensures Count(t.nameToEntry, other) == Tracked(t.nodeToEntry, other) + leaked[other] {
        UnrefConserves(s, node, leaked, other);
      }
    }
  }

  lemma StepConserves(s: Index, e: Event, leaked: multiset<string>)
    requires Conserved(s, leaked) && IdleUnconnected(s)
    ensures Conserved(Step(s, e), Leaked(s, e, leaked)) && IdleUnconnected(Step(s, e))
  {
    hide Tracked, Count;
    match e
    case NodeCreated(node, name, parent) => CreatedConserves(s, node, name, parent, leaked);
    case NodeRemoved(node) => RemovedConserves(s, node, leaked);
    case UnwatchAllDirs => ClearedIsConserved(Step(s, e));
    case Disconnect => ClearedIsConserved(Step(s, e));
    case Connect(_) => ClearedIsConserved(Step(s, e));
    case _ =>
  }

  lemma ClearedIsConserved(s: Index)
    requires s.nameToEntry == map[] && s.nodeToEntry == map[]
    ensures Conserved(s, multiset{})
  {
    forall name: string ensures Tracked(map[], name) == 0 {
      NothingTracked(name);
    }
  }

  lemma NothingTracked(name: string)
    ensures Tracked(map[], name) == 0
  {
    assert NodesNamed(map[], name) == {};
  }

  /** No tracked file's name disappears from the index. */
  lemma TrackedIsCounted(s: Index, leaked: multiset<string>, node: NodeRef)
    requires Conserved(s, leaked) && node in s.nodeToEntry
    ensures s.nodeToEntry[node] in s.nameToEntry
  {
    var name := s.nodeToEntry[node];
    assert node in NodesNamed(s.nodeToEntry, name);
    assert Count(s.nameToEntry, name) == Tracked(s.nodeToEntry, name) + leaked[name];
  }

  /** The counts are exact if and only if nothing has leaked. */
  lemma ExactIff(s: Index, leaked: multiset<string>)
    requires Conserved(s, leaked)
    ensures (forall name: string :: Count(s.nameToEntry, name) == Tracked(s.nodeToEntry, name)) <==>
      leaked == multiset{}
  {
    hide Tracked, Count;
    if forall name: string :: Count(s.nameToEntry, name) == Tracked(s.nodeToEntry, name) {
      forall name: string ensures leaked[name] == 0 {
        assert Count(s.nameToEntry, name) == Tracked(s.nodeToEntry, name) + leaked[name];
      }
    }
  }

  /** An event keeps exact counts exact if and only if it does not enter a node that is
      tracked already. */
  lemma StaysExactIff(s: Index, e: Event)
    requires Conserved(s, multiset{}) && IdleUnconnected(s)
    ensures (forall name: string :: Count(Step(s, e).nameToEntry, name) == Tracked(Step(s, e).nodeToEntry, name)) <==>
      !Recreates(s, e)
  {
    hide Tracked, Count, Step;
    StepConserves(s, e, multiset{});
    ExactIff(Step(s, e), Leaked(s, e, multiset{}));
  }

  /** The test for a connection when a node is removed never fails for a tracked one. */
  lemma TrackedMeansConnected(s: Index, node: NodeRef)
    requires IdleUnconnected(s) && node in s.nodeToEntry
    ensures s.connected
  {
  }

  lemma FlushBatches(s: Index, keys: seq<string>)
    requires Flatten(s.flushed) + s.message == keys && 1 <= |s.message| <= MAX_KEYS + 1
    requires forall i :: 0 <= i < |s.flushed| ==> 1 <= |s.flushed[i]| <= MAX_KEYS + 1
    ensures Batched(Flush(s), keys)
  {
    assert Flush(s).flushed[..|s.flushed|] == s.flushed;
  }

  lemma RemovedBatches(s: Index, node: NodeRef, keys: seq<string>)
    requires Batched(s, keys)
    ensures Batched(Removed(s, node), Reported(s, NodeRemoved(node), keys))
  {
    hide Flatten, Flush, Unref;
    if node in s.nodeToEntry && s.connected {
      var name := s.nodeToEntry[node];
      var added := s.(nodeToEntry := s.nodeToEntry - {node}, nameToEntry := Unref(s.nameToEntry, name),
                      message := s.message + [name]);
      assert Flatten(s.flushed) + (s.message + [name]) == (Flatten(s.flushed) + s.message) + [name];
      if s.batchCount == 0 || |added.message| > MAX_KEYS {
        FlushBatches(added, keys + [name]);
      }
    }
  }

  lemma StepBatches(s: Index, e: Event, keys: seq<string>)
    requires Batched(s, keys) && Nested(s, e)
    ensures Batched(Step(s, e), Reported(s, e, keys))
  {
    hide Flatten, Flush, Removed;
    match e
    case NodeRemoved(node) => RemovedBatches(s, node, keys);
    case EndBatch =>
      if s.message != [] {
        FlushBatches(s.(batchCount := s.batchCount - 1), keys);
      }
    case _ =>
  }

  // ---------- Whole runs ----------

  datatype Run = Run(index: Index, leaked: multiset<string>, keys: seq<string>)

  const START := Run(Index(map[], map[], {}, false, [], 0, []), multiset{}, [])

  function After(events: seq<Event>): Run {
    if events == [] then START
    else
      var run := After(events[..|events| - 1]);
      var e := events[|events| - 1];
      Run(Step(run.index, e), Leaked(run.index, e, run.leaked), Reported(run.index, e, run.keys))
  }

  predicate AllNested(events: seq<Event>) {
    forall i :: 0 <= i < |events| ==> Nested(After(events[..i]).index, events[i])
  }

  lemma {:induction false} RunConserves(events: seq<Event>)
    ensures Conserved(After(events).index, After(events).leaked)
    ensures IdleUnconnected(After(events).index)
  {
    hide Step, Leaked, Conserved, IdleUnconnected;
    if events == [] {
      StartConserved();
    } else {
      RunConserves(events[..|events| - 1]);
      var run := After(events[..|events| - 1]);
      StepConserves(run.index, events[|events| - 1], run.leaked);
    }
  }

  lemma StartConserved()
    ensures Conserved(START.index, START.leaked) && Batched(START.index, START.keys) && IdleUnconnected(START.index)
  {
    forall name: string ensures Tracked(map[], name) == 0 {
      NothingTracked(name);
    }
  }

  lemma {:induction false} RunBatches(events: seq<Event>)
    requires AllNested(events)
    ensures Batched(After(events).index, After(events).keys)
  {
    hide Step, Reported, Batched, Nested;
    if events == [] {
      StartConserved();
    } else {
      var n := |events| - 1;
      forall i | 0 <= i < n ensures Nested(After(events[..n][..i]).index, events[..n][i]) {
        assert events[..n][..i] == events[..i];
      }
      RunBatches(events[..n]);
      var run := After(events[..n]);
      StepBatches(run.index, events[n], run.keys);
    }
  }

  /** None of the events from index `clear` on enters a node that is tracked already. */
  predicate NothingRecreated(events: seq<Event>, clear: nat) {
    forall i :: clear <= i < |events| ==> !Recreates(After(events[..i]).index, events[i])
  }

  lemma NothingRecreatedNext(events: seq<Event>, clear: nat)
    requires clear < |events|
    ensures var n := |events| - 1;
            NothingRecreated(events, clear) <==>
              NothingRecreated(events[..n], clear) && !Recreates(After(events[..n]).index, events[n])
  {
    hide After, Recreates;
    var n := |events| - 1;
    assert forall i :: 0 <= i < n ==> events[..n][..i] == events[..i] && events[..n][i] == events[i];
  }

  /** In every reachable state the counts are exact if and only if no event since the last
      clear entered a node that was tracked already; no count is ever too low. */
  lemma CountsAreExactIff(events: seq<Event>, clear: nat)
    requires clear <= |events| && (clear == 0 || Clears(events[clear - 1]))
    requires forall i :: clear <= i < |events| ==> !Clears(events[i])
    ensures var s := After(events).index;
            (forall name: string :: Count(s.nameToEntry, name) == Tracked(s.nodeToEntry, name)) <==>
              NothingRecreated(events, clear)
    ensures var s := After(events).index;
            forall name: string :: Count(s.nameToEntry, name) >= Tracked(s.nodeToEntry, name)
  {
    hide Count, Tracked, After, NothingRecreated;
    LeakedIff(events, clear);
    RunConserves(events);
    ExactIff(After(events).index, After(events).leaked);
  }

  lemma {:induction false} LeakedIff(events: seq<Event>, clear: nat)
    requires clear <= |events| && (clear == 0 || Clears(events[clear - 1]))
    requires forall i :: clear <= i < |events| ==> !Clears(events[i])
    ensures After(events).leaked == multiset{} <==> NothingRecreated(events, clear)
  {
    hide Step, Reported, Recreates, Clears, NothingRecreated;
    var n := |events| - 1;
    if clear < |events| {
      LeakedIff(events[..n], clear);
      NothingRecreatedNext(events, clear);
    } else {
      NothingYet(events, clear);
    }
  }

  lemma NothingYet(events: seq<Event>, clear: nat)
    requires clear == |events|
    ensures NothingRecreated(events, clear)
  {
  }

  // ---------- What a history tracks ----------

  /** Event i enters the node under the name. */
  predicate Enters(events: seq<Event>, i: nat, node: NodeRef, name: string)
    requires i < |events|
  {
    && events[i].NodeCreated? && events[i].created == node && events[i].name == name
    && events[i].parent in After(events[..i]).index.watchedDirs
  }

  /** Event i takes the node out, or enters it anew. */
  predicate Ousts(events: seq<Event>, i: nat, node: NodeRef)
    requires i < |events|
  {
    || (events[i].NodeRemoved? && events[i].removed == node)
    || Clears(events[i])
    || (events[i].NodeCreated? && Enters(events, i, node, events[i].name))
  }

  predicate LastEnters(events: seq<Event>, i: int, node: NodeRef, name: string) {
    && 0 <= i < |events| && Enters(events, i, node, name)
    && forall j :: i < j < |events| ==> !Ousts(events, j, node)
  }

  lemma SameEarlier(events: seq<Event>, n: nat, i: nat, node: NodeRef, name: string)
    requires i < n <= |events|
    ensures Enters(events[..n], i, node, name) == Enters(events, i, node, name)
    ensures Ousts(events[..n], i, node) == Ousts(events, i, node)
  {
    hide After;
    assert events[..n][..i] == events[..i];
  }

  lemma LastEntersNext(events: seq<Event>, i: nat, node: NodeRef, name: string)
    requires i < |events| - 1
    ensures var n := |events| - 1;
            LastEnters(events, i, node, name) <==> LastEnters(events[..n], i, node, name) && !Ousts(events, n, node)
  {
    hide Enters, Ousts;
    var n := |events| - 1;
    SameEarlier(events, n, i, node, name);
    forall j | i < j < n ensures Ousts(events[..n], j, node) == Ousts(events, j, node) {
      SameEarlier(events, n, j, node, name);
    }
    if LastEnters(events, i, node, name) {
      assert forall j :: i < j < n ==> !Ousts(events, j, node);
    }
  }

  lemma TrackedStep(s: Index, e: Event, node: NodeRef)
    requires IdleUnconnected(s)
    ensures var t := Step(s, e);
            if e.NodeCreated? && e.created == node && e.parent in s.watchedDirs then
              node in t.nodeToEntry && t.nodeToEntry[node] == e.name
            else if (e.NodeRemoved? && e.removed == node) || Clears(e) then node !in t.nodeToEntry
            else
              && (node in t.nodeToEntry <==> node in s.nodeToEntry)
              && (node in t.nodeToEntry ==> t.nodeToEntry[node] == s.nodeToEntry[node])
  {
    hide Unref, Ref;
  }

  /** In every reachable state a node is tracked under a name if and only if some event
      entered it under that name from a directory watched then, and none has taken it out,
      cleared the tables or entered it anew since. */
  lemma {:induction false} TrackedIff(events: seq<Event>, node: NodeRef, name: string)
    ensures var nodes := After(events).index.nodeToEntry;
            node in nodes && nodes[node] == name <==> exists i :: LastEnters(events, i, node, name)
  {
    hide Step, Leaked, Reported, IdleUnconnected, LastEnters;
    if events == [] {
      assert forall i :: !LastEnters(events, i, node, name) by {
        NothingEntered(node, name);
      }
    } else {
      var n := |events| - 1;
      var s := After(events[..n]).index;
      TrackedIff(events[..n], node, name);
      RunConserves(events[..n]);
      TrackedStep(s, events[n], node);
      forall i | LastEnters(events, i, node, name)
        ensures 0 <= i <= n && (i < n ==> LastEnters(events[..n], i, node, name) && !Ousts(events, n, node))
        ensures i == n ==> Enters(events, n, node, name)
      {
        LastInRange(events, i, node, name);
        if i < n {
          LastEntersNext(events, i, node, name);
        }
      }
      if Enters(events, n, node, name) {
        NewestEnters(events, node, name);
      } else if !Ousts(events, n, node) {
        forall i | LastEnters(events[..n], i, node, name) ensures LastEnters(events, i, node, name) {
          LastInRange(events[..n], i, node, name);
          LastEntersNext(events, i, node, name);
        }
      }
    }
  }

  lemma NothingEntered(node: NodeRef, name: string)
    ensures forall i :: !LastEnters([], i, node, name)
  {
  }

  lemma LastInRange(events: seq<Event>, i: int, node: NodeRef, name: string)
    requires LastEnters(events, i, node, name)
    ensures 0 <= i < |events| && Enters(events, i, node, name)
  {
  }

  lemma NewestEnters(events: seq<Event>, node: NodeRef, name: string)
    requires events != [] && Enters(events, |events| - 1, node, name)
    ensures LastEnters(events, |events| - 1, node, name)
  {
  }

  /** A directory is watched after an event if and only if the event adds it, during a
      connection or below a watched one, or it was watched before and the event neither
      removes it nor clears the tables. */
  lemma WatchedIff(s: Index, e: Event, directory: NodeRef)
    requires IdleUnconnected(s)
    ensures directory in Step(s, e).watchedDirs <==>
      || (e.DirectoryAdded? && e.directory == directory
          && if e.within.Some? then e.within.value in s.watchedDirs else s.connected)
      || (directory in s.watchedDirs && !(e.DirectoryRemoved? && e.directory == directory) && !Clears(e))
    ensures Step(s, e).connected <==>
      (e.Connect? && e.succeeded) || (s.connected && !e.Connect? && !e.Disconnect?)
  {
    hide Unref, Ref;
  }

  /** A removal message is sent when it has 51 keys, or when it has any and no batch is
      going on; not earlier. */
  lemma SendsIff(s: Index, e: Event, keys: seq<string>)
    requires Batched(s, keys) && Nested(s, e)
    ensures var more := s.message + Reported(s, e, []);
            var t := Step(s, e);
            && (|more| == 51 || (more != [] && t.batchCount == 0) ==> t.flushed == s.flushed + [more])
            && (|more| != 51 && (more == [] || t.batchCount > 0) ==> t.flushed == s.flushed)
            && t.message == (if |more| == 51 || t.batchCount == 0 then [] else more)
            && t.batchCount == s.batchCount + (if e.BeginBatch? then 1 else if e.EndBatch? then -1 else 0)
  {
    hide Flatten, Unref, Ref;
    assert s.message + [] == s.message;
    if e.NodeRemoved? && e.removed in s.nodeToEntry && s.connected {
      assert s.message + Reported(s, e, []) == s.message + [s.nodeToEntry[e.removed]];
    }
  }

  // ---------- The client ----------

  function RemovedEach(s: Index, nodes: seq<NodeRef>): Index {
    if nodes == [] then s else Removed(RemovedEach(s, nodes[..|nodes| - 1]), nodes[|nodes| - 1])
  }

  /** A batch of removals: begun, one node after the other, ended. */
  function RemovedBatch(s: Index, nodes: seq<NodeRef>): Index {
    Step(RemovedEach(Step(s, BeginBatch), nodes), EndBatch)
  }

  /** The names of the listed nodes that are tracked, each node once. */
  function TrackedNames(nodeToEntry: map<NodeRef, string>, nodes: seq<NodeRef>): seq<string> {
    if nodes == [] then []
    else
      var n := |nodes| - 1;
      TrackedNames(nodeToEntry, nodes[..n])
      + if nodes[n] in nodeToEntry && nodes[n] !in nodes[..n] then [nodeToEntry[nodes[n]]] else []
  }

  lemma {:induction false} RemovedEachBatches(s: Index, nodes: seq<NodeRef>, keys: seq<string>)
    requires Batched(s, keys) && IdleUnconnected(s)
    ensures var t := RemovedEach(s, nodes);
            && Batched(t, keys + TrackedNames(s.nodeToEntry, nodes))
            && IdleUnconnected(t) && t.batchCount == s.batchCount
            && t.nodeToEntry == s.nodeToEntry - (set k | 0 <= k < |nodes| :: nodes[k])
  {
    hide Batched, Removed;
    if nodes == [] {
      assert keys + [] == keys;
    } else {
      var n := |nodes| - 1;
      RemovedEachBatches(s, nodes[..n], keys);
      var t := RemovedEach(s, nodes[..n]);
      var names := TrackedNames(s.nodeToEntry, nodes[..n]);
      StepBatches(t, NodeRemoved(nodes[n]), keys + names);
      RemovedKeepsBatch(t, nodes[n]);
      assert nodes[n] in t.nodeToEntry <==> nodes[n] in s.nodeToEntry && nodes[n] !in nodes[..n];
      var more := if nodes[n] in t.nodeToEntry then [t.nodeToEntry[nodes[n]]] else [];
      assert (keys + names) + more == keys + (names + more);
      assert Reported(t, NodeRemoved(nodes[n]), keys + names) == (keys + names) + more;
    }
  }

  lemma BatchedOutside(s: Index, keys: seq<string>)
    requires Batched(s, keys)
    ensures s.batchCount == 0 ==> s.message == []
  {
  }

  /** A batch reports the name of every listed node that was tracked, once, and leaves no
      key pending unless another batch is still going on. */
  lemma RemovedBatchReports(s: Index, nodes: seq<NodeRef>, keys: seq<string>)
    requires Batched(s, keys) && IdleUnconnected(s)
    ensures var t := RemovedBatch(s, nodes);
            && Batched(t, keys + TrackedNames(s.nodeToEntry, nodes))
            && t.nodeToEntry == s.nodeToEntry - (set k | 0 <= k < |nodes| :: nodes[k])
            && t.batchCount == s.batchCount && (t.batchCount == 0 ==> t.message == [])
  {
    hide Batched, RemovedEach, TrackedNames;
    StepBatches(s, BeginBatch, keys);
    var begun := Step(s, BeginBatch);
    RemovedEachBatches(begun, nodes, keys);
    StepBatches(RemovedEach(begun, nodes), EndBatch, keys + TrackedNames(s.nodeToEntry, nodes));
    BatchedOutside(RemovedBatch(s, nodes), keys + TrackedNames(s.nodeToEntry, nodes));
  }

  lemma RemovedKeepsBatch(s: Index, node: NodeRef)
    ensures var t := Removed(s, node);
            && t.batchCount == s.batchCount && t.connected == s.connected && t.nodeToEntry == s.nodeToEntry - {node}
            && (IdleUnconnected(s) ==> IdleUnconnected(t))
  {
  }

  class ShareNetClient {
    var nameToEntry: map<string, int>
    var nodeToEntry: map<NodeRef, string>
    var watchedDirs: set<NodeRef>
    var connected: bool
    var nodeRemoveMessage: Option<seq<string>>
    var nodeRemoveBatchCount: nat
    ghost var flushed: seq<seq<string>>

    ghost function State(): Index
      reads this
    {
      var message := if nodeRemoveMessage.Some? then nodeRemoveMessage.value else [];
      Index(nameToEntry, nodeToEntry, watchedDirs, connected, message, nodeRemoveBatchCount, flushed)
    }

    /** A message under construction has keys. */
    predicate Valid()
      reads this
    {
      nodeRemoveMessage.Some? ==> nodeRemoveMessage.value != []
    }

    constructor ()
      ensures Valid() && State() == START.index
    {
      nameToEntry, nodeToEntry, watchedDirs, connected := map[], map[], {}, false;
      nodeRemoveMessage, nodeRemoveBatchCount := None, 0;
      flushed := [];
    }

    method RefFilename(fileName: string)
      modifies `nameToEntry
      ensures nameToEntry == Ref(old(nameToEntry), fileName)
    {
      if fileName in nameToEntry {
        nameToEntry := nameToEntry[fileName := nameToEntry[fileName] + 1];
      } else {
        nameToEntry := nameToEntry[fileName := 1];
      }
    }

    method UnrefFilename(fileName: string)
      modifies `nameToEntry
      ensures nameToEntry == Unref(old(nameToEntry), fileName)
    {
      if fileName in nameToEntry {
        nameToEntry := nameToEntry[fileName := nameToEntry[fileName] - 1];
        if nameToEntry[fileName] <= 0 {
          nameToEntry := nameToEntry - {fileName};
        }
      }
    }

    /** The part of NodeCreated, and of AddWatchedDirectory, that enters a file. */
    method NodeCreated(node: NodeRef, name: string, parent: NodeRef)
      requires Valid()
      modifies this
      ensures Valid() && State() == Step(old(State()), Event.NodeCreated(node, name, parent))
    {
      if parent in watchedDirs {
        RefFilename(name);
        nodeToEntry := nodeToEntry[node := name];
      }
    }

    /** Hands the message over for sending. */
    method SendNodeRemoveMessage()
      requires Valid() && nodeRemoveMessage.Some?
      modifies this
      ensures Valid() && State() == Flush(old(State()))
    {
      flushed := flushed + [nodeRemoveMessage.value];
      nodeRemoveMessage := None;
    }

    method NodeRemoved(node: NodeRef)
      requires Valid()
      modifies this
      ensures Valid() && State() == Step(old(State()), Event.NodeRemoved(node))
    {
      if node in nodeToEntry {
        var name := nodeToEntry[node];
        nodeToEntry := nodeToEntry - {node};
        if connected {
          UnrefFilename(name);
          if nodeRemoveMessage.None? {
            nodeRemoveMessage := Some([]);
          }
          nodeRemoveMessage := Some(nodeRemoveMessage.value + [name]);
          if nodeRemoveBatchCount == 0 || |nodeRemoveMessage.value| > MAX_KEYS {
            SendNodeRemoveMessage();
          }
        }
      }
    }

    method NodeRemoveBatch(start: bool)
      requires Valid() && (!start ==> nodeRemoveBatchCount > 0)
      modifies this
      ensures Valid() && State() == Step(old(State()), if start then BeginBatch else EndBatch)
    {
      if start {
        nodeRemoveBatchCount := nodeRemoveBatchCount + 1;
      } else {
        nodeRemoveBatchCount := nodeRemoveBatchCount - 1;
        if nodeRemoveBatchCount == 0 && nodeRemoveMessage.Some? {
          SendNodeRemoveMessage();
        }
      }
    }

    method UnwatchAllDirs()
      requires Valid()
      modifies this
      ensures Valid() && State() == Step(old(State()), Event.UnwatchAllDirs)
    {
      watchedDirs := {};
      nodeToEntry := map[];
      nameToEntry := map[];
    }

    method DisconnectFromServer()
      requires Valid()
      modifies this
      ensures Valid() && State() == Step(old(State()), Event.Disconnect)
    {
      if connected {
        connected := false;
        UnwatchAllDirs();
      }
    }

    method ConnectToServer(succeeded: bool)
      requires Valid()
      modifies this
      ensures Valid() && State() == Step(old(State()), Event.Connect(succeeded))
    {
      DisconnectFromServer();
      connected := succeeded;
    }

    /** The removals of RemoveWatchedDirectory, and of a scan for vanished files. */
    method RemoveNodes(nodes: seq<NodeRef>)
      requires Valid()
      modifies this
      ensures Valid() && State() == RemovedBatch(old(State()), nodes)
    {
      hide Removed;
      NodeRemoveBatch(true);
      ghost var begun := State();
      for i := 0 to |nodes|
        invariant Valid() && State() == RemovedEach(begun, nodes[..i])
        invariant nodeRemoveBatchCount == begun.batchCount
      {
        assert nodes[..i + 1][..i] == nodes[..i];
        RemovedKeepsBatch(State(), nodes[i]);
        NodeRemoved(nodes[i]);
      }
      assert nodes[..|nodes|] == nodes;
      NodeRemoveBatch(false);
    }
  }
}

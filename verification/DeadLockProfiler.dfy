/**
 The lock-order profiler: a graph "held lock -> requested lock", searched for a cycle every time it
 grows. LockBook below is the specification of one call; LockOrderRuns states what all calls together keep.
 */
module LockBook {
  import opened LockGraph

  /** A `const char*` used as a map key: two names are the same only when the pointers are. */
  type LockName = nat
  type ThreadId = nat

  datatype CrashCause = DeadlockDetected | MultipleUnlock | InvalidUnlock

  /** ids is `_nameToId`, names is `_idToName`, history is `_lockHistory`, stacks is every thread's `LLockStack`. */
  datatype Book = Book(ids: map<LockName, nat>, names: map<nat, LockName>, history: Graph,
                       stacks: map<ThreadId, seq<nat>>)

  const EMPTY := Book(map[], map[], map[], map[])

  datatype Outcome = Ok(book: Book) | Crash(cause: CrashCause)

  function StackOf(b: Book, t: ThreadId): seq<nat> {
    if t in b.stacks then b.stacks[t] else []
  }

  function Top(s: seq<nat>): nat
    requires s != []
  {
    s[|s| - 1]
  }

  function IdFor(ids: map<LockName, nat>, name: LockName): nat {
    if name in ids then ids[name] else |ids|
  }

  /** An id is given its printable name when it is handed out, and keeps it. */
  function NamesWith(b: Book, name: LockName): map<nat, LockName> {
    if name in b.ids then b.names else b.names[|b.ids| := name]
  }

  predicate AddsEdge(g: Graph, held: seq<nat>, id: nat) {
    held != [] && Top(held) != id && !Edge(g, Top(held), id)
  }

  function HistoryWith(g: Graph, held: seq<nat>, id: nat): Graph {
    if held != [] && Top(held) != id then WithEdge(g, Top(held), id) else g
  }

  ghost predicate ClosesCycle(g: Graph, held: seq<nat>, id: nat) {
    AddsEdge(g, held, id) && HasCycle(HistoryWith(g, held, id))
  }

  ghost function Push(b: Book, t: ThreadId, name: LockName): Outcome {
    var id, held := IdFor(b.ids, name), StackOf(b, t);
    if ClosesCycle(b.history, held, id) then Crash(DeadlockDetected)
    else Ok(Book(b.ids[name := id], NamesWith(b, name), HistoryWith(b.history, held, id),
                 b.stacks[t := held + [id]]))
  }

  /** `_nameToId[name]` inserts id 0 for a name that was never pushed. */
  function IdForPop(b: Book, name: LockName): nat {
    if name in b.ids then b.ids[name] else 0
  }

  function Pop(b: Book, t: ThreadId, name: LockName): Outcome {
    var held := StackOf(b, t);
    if held == [] then Crash(MultipleUnlock)
    else if Top(held) != IdForPop(b, name) then Crash(InvalidUnlock)
    else Ok(b.(ids := b.ids[name := IdForPop(b, name)], stacks := b.stacks[t := held[..|held| - 1]]))
  }

  /** Ids are below `_nameToId.size()`, and each prints as a name that maps back to it. */
  predicate NamesAgree(ids: map<LockName, nat>, names: map<nat, LockName>) {
    && (forall id <- names :: id < |ids| && names[id] in ids && ids[names[id]] == id)
    && (forall name <- ids :: ids[name] in names)
  }

  predicate HistoryNamed(g: Graph, known: set<nat>) {
    forall u <- g :: u in known && g[u] <= known
  }

  predicate StacksNamed(stacks: map<ThreadId, seq<nat>>, known: set<nat>) {
    forall t <- stacks, i :: 0 <= i < |stacks[t]| ==> stacks[t][i] in known
  }

  /** Every id in use can be printed, and no lock follows itself. */
  predicate WellFormed(b: Book) {
    && NamesAgree(b.ids, b.names)
    && HistoryNamed(b.history, b.names.Keys)
    && Loopless(b.history)
    && StacksNamed(b.stacks, b.names.Keys)
  }

  lemma NamedIsBounded(b: Book)
    requires NamesAgree(b.ids, b.names) && HistoryNamed(b.history, b.names.Keys)
    ensures Bounded(b.history, |b.ids|)
  {
    forall u | u in b.history ensures u < |b.ids| {
      assert u in b.names;
      forall v | v in b.history[u] ensures v < |b.ids| {
        assert v in b.names;
      }
    }
  }

  lemma RegisterKeepsNames(b: Book, name: LockName)
    requires NamesAgree(b.ids, b.names)
    ensures
      var ids := b.ids[name := IdFor(b.ids, name)];
      && |b.ids| <= |ids| && IdFor(b.ids, name) < |ids|
      && IdFor(b.ids, name) in NamesWith(b, name)
      && NamesAgree(ids, NamesWith(b, name))
      && b.names.Keys <= NamesWith(b, name).Keys
  {
    if name in b.ids {
      assert b.ids[name := b.ids[name]] == b.ids;
      assert b.ids[name] in b.names;
    }
  }

  lemma PushKeepsWellFormed(b: Book, t: ThreadId, name: LockName)
    requires WellFormed(b)
    ensures var r := Push(b, t, name); r.Ok? ==> WellFormed(r.book)
  {
    RegisterKeepsNames(b, name);
    var id, held, known := IdFor(b.ids, name), StackOf(b, t), NamesWith(b, name).Keys;
    assert StacksNamed(b.stacks[t := held + [id]], known) by {
      forall i | 0 <= i < |held + [id]| ensures (held + [id])[i] in known {
        assert i < |held| ==> (held + [id])[i] == held[i];
      }
    }
    assert held != [] ==> Top(held) in b.names.Keys;
    assert HistoryNamed(HistoryWith(b.history, held, id), known);
  }

  lemma PopKeepsWellFormed(b: Book, t: ThreadId, name: LockName)
    requires WellFormed(b)
    ensures var r := Pop(b, t, name); r.Ok? ==> WellFormed(r.book)
  {
    if name in b.ids {
      assert b.ids[name := IdForPop(b, name)] == b.ids;
    } else {
      assert |b.ids[name := 0]| == |b.ids| + 1;
    }
  }
}

module DeadLockProfiler {
  import opened LockGraph
  import opened LockBook

  /** The edges printed before the crash, each leading to the source of the one before, around to the first. */
  ghost predicate PrintedCycle(g: Graph, report: seq<(nat, nat)>) {
    && |report| >= 2
    && (forall i :: 0 <= i < |report| ==> Edge(g, report[i].0, report[i].1))
    && (forall i :: 0 <= i < |report| - 1 ==> report[i].0 == report[i + 1].1)
    && report[|report| - 1].0 == report[0].1
  }

  lemma PrintedCycleIsACycle(g: Graph, report: seq<(nat, nat)>)
    requires PrintedCycle(g, report)
    ensures HasCycle(g)
  {
    var k := |report|;
    var start := report[k - 1].0;
    var p := seq(k + 1, i requires 0 <= i <= k => if i < k then report[k - 1 - i].0 else start);
    forall i | 0 <= i < |p| - 1 ensures Edge(g, p[i], p[i + 1]) {
      assert Edge(g, report[k - 1 - i].0, report[k - 1 - i].1);
      if i < k - 1 {
        assert report[k - 2 - i].0 == report[k - 2 - i + 1].1;
      }
    }
    assert WalkBetween(g, p, start, start);
    assert Reaches(g, start, start);
  }

  /**
   State of the depth-first search. `path` is the chain of unfinished vertices from the root of the
   current tree; `rank` numbers vertices in the order they finished.
   */
  ghost predicate SearchState(g: Graph, n: nat, discovered: seq<int>, count: int, finished: seq<bool>,
                              parent: seq<int>, rank: seq<int>, clock: int, path: seq<nat>) {
    && |discovered| == |finished| == |parent| == |rank| == n
    && 0 <= count
    && (forall v :: 0 <= v < n ==> -1 <= discovered[v] < count)
    && (forall v :: 0 <= v < n && finished[v] ==> discovered[v] >= 0 && rank[v] < clock)
    && (forall v :: 0 <= v < n && discovered[v] >= 0 && !finished[v] ==> v in path)
    && OnPath(g, n, discovered, finished, parent, path)
    && (forall u: nat, v: nat :: u < n && finished[u] && Edge(g, u, v) ==> v < n && finished[v] && rank[v] < rank[u])
  }

  ghost predicate OnPath(g: Graph, n: nat, discovered: seq<int>, finished: seq<bool>, parent: seq<int>, path: seq<nat>)
    requires |discovered| == |finished| == |parent| == n
  {
    && (forall i :: 0 <= i < |path| ==> path[i] < n && discovered[path[i]] >= 0 && !finished[path[i]])
    && (forall i, j :: 0 <= i < j < |path| ==> discovered[path[i]] < discovered[path[j]])
    && (forall i :: 0 < i < |path| ==> parent[path[i]] == path[i - 1] && Edge(g, path[i - 1], path[i]))
  }

  lemma PathGrows(g: Graph, n: nat, discovered: seq<int>, count: int, finished: seq<bool>, parent: seq<int>,
                  path: seq<nat>, here: nat)
    requires |discovered| == |finished| == |parent| == n && OnPath(g, n, discovered, finished, parent, path)
    requires forall v :: 0 <= v < n ==> discovered[v] < count
    requires here < n && discovered[here] == -1 && !finished[here] && 0 <= count
    requires path != [] ==> Edge(g, path[|path| - 1], here) && parent[here] == path[|path| - 1]
    ensures OnPath(g, n, discovered[here := count], finished, parent, path + [here])
  {
  }

  lemma Discover(g: Graph, n: nat, discovered: seq<int>, count: int, finished: seq<bool>, parent: seq<int>,
                 rank: seq<int>, clock: int, path: seq<nat>, here: nat)
    requires SearchState(g, n, discovered, count, finished, parent, rank, clock, path)
    requires here < n && discovered[here] == -1
    requires path != [] ==> Edge(g, path[|path| - 1], here) && parent[here] == path[|path| - 1]
    ensures SearchState(g, n, discovered[here := count], count + 1, finished, parent, rank, clock, path + [here])
  {
    PathGrows(g, n, discovered, count, finished, parent, path, here);
  }

  lemma SetParent(g: Graph, n: nat, discovered: seq<int>, count: int, finished: seq<bool>, parent: seq<int>,
                  rank: seq<int>, clock: int, path: seq<nat>, there: nat, p: int)
    requires SearchState(g, n, discovered, count, finished, parent, rank, clock, path)
    requires there < n && discovered[there] == -1
    ensures SearchState(g, n, discovered, count, finished, parent[there := p], rank, clock, path)
  {
  }

  /** The last vertex of the path was discovered latest, so anything discovered after it has finished. */
  lemma LaterIsFinished(g: Graph, n: nat, discovered: seq<int>, count: int, finished: seq<bool>, parent: seq<int>,
                        rank: seq<int>, clock: int, path: seq<nat>, there: nat)
    requires SearchState(g, n, discovered, count, finished, parent, rank, clock, path)
    requires path != [] && there < n && discovered[there] >= 0
    ensures discovered[path[|path| - 1]] < discovered[there] ==> finished[there]
    ensures !finished[there] ==> there in path
  {
  }

  ghost function Unseen(discovered: seq<int>): set<nat> {
    set v: nat | v < |discovered| && discovered[v] == -1
  }

  /** Nothing already discovered is touched again, apart from being finished. */
  ghost predicate Extends(discovered: seq<int>, finished: seq<bool>, discovered': seq<int>, finished': seq<bool>)
    requires |discovered| == |finished| == |discovered'| == |finished'|
  {
    forall v :: 0 <= v < |discovered| && discovered[v] >= 0 ==>
      discovered'[v] == discovered[v] && (finished[v] ==> finished'[v])
  }

  ghost predicate AllFinished(vertices: set<nat>, finished: seq<bool>) {
    forall v <- vertices :: v < |finished| && finished[v]
  }

  class DeadLockProfiler {
    var nameToId: map<LockName, nat>
    var idToName: map<nat, LockName>
    var lockHistory: Graph
    var lockStack: map<ThreadId, seq<nat>>

    var discoveredOrder: seq<int>
    var discoveredCount: int
    var finished: seq<bool>
    var parent: seq<int>

    // Proof only: the order in which vertices finished.
    ghost var rank: seq<int>
    ghost var clock: int

    ghost function View(): Book
      reads this
    {
      Book(nameToId, idToName, lockHistory, lockStack)
    }

    ghost predicate Valid()
      reads this
    {
      WellFormed(View())
    }

    ghost predicate Searching(path: seq<nat>)
      reads this
    {
      SearchState(lockHistory, |discoveredOrder|, discoveredOrder, discoveredCount, finished, parent, rank, clock, path)
    }

    constructor ()
      ensures Valid() && View() == EMPTY
    {
      nameToId, idToName, lockHistory, lockStack := map[], map[], map[], map[];
      discoveredOrder, discoveredCount, finished, parent := [], 0, [], [];
      rank, clock := [], 0;
    }

    /** The caller's edge here -> there leads back onto the current path: print the way around. */
    method ReportCycle(here: nat, there: nat, ghost path: seq<nat>) returns (report: seq<(nat, nat)>)
      requires Searching(path) && path != [] && path[|path| - 1] == here
      requires there in path && there != here && Edge(lockHistory, here, there)
      ensures PrintedCycle(lockHistory, report)
    {
      report := [(here, there)];
      var now := here;
      ghost var k := |path| - 1;
      ghost var m :| 0 <= m < |path| && path[m] == there;
      while true
        invariant m < k < |path| && now == path[k]
        invariant |report| >= 1 && report[0] == (here, there)
        invariant report[|report| - 1].0 == now
        invariant forall i :: 0 <= i < |report| ==> Edge(lockHistory, report[i].0, report[i].1)
        invariant forall i :: 0 <= i < |report| - 1 ==> report[i].0 == report[i + 1].1
        decreases k
      {
        assert parent[path[k]] == path[k - 1] && Edge(lockHistory, path[k - 1], path[k]);
        report := report + [(parent[now], now)];
        now := parent[now];
        k := k - 1;
        if now == there {
          break;
        }
      }
    }

    method Dfs(here: nat, ghost path: seq<nat>) returns (crashed: bool, report: seq<(nat, nat)>)
      requires Searching(path) && here < |discoveredOrder|
      requires Bounded(lockHistory, |discoveredOrder|) && Loopless(lockHistory)
      requires discoveredOrder[here] == -1 || path == []
      requires path != [] ==> Edge(lockHistory, path[|path| - 1], here) && parent[here] == path[|path| - 1]
      modifies `discoveredOrder, `discoveredCount, `finished, `parent, `rank, `clock
      ensures crashed ==> PrintedCycle(lockHistory, report)
      ensures |discoveredOrder| == old(|discoveredOrder|)
      ensures !crashed ==> Searching(path) && finished[here]
      ensures !crashed ==> Extends(old(discoveredOrder), old(finished), discoveredOrder, finished)
      decreases Unseen(discoveredOrder), 0
    {
      crashed, report := false, [];
      if discoveredOrder[here] != -1 {
        return;
      }
      ghost var unseen := Unseen(discoveredOrder);
      assert here in unseen;
      Discover(lockHistory, |discoveredOrder|, discoveredOrder, discoveredCount, finished, parent, rank, clock,
               path, here);
      discoveredOrder := discoveredOrder[here := discoveredCount];
      discoveredCount := discoveredCount + 1;
      ghost var deeper := path + [here];

      if here !in lockHistory {
        Finish(here, path);
        return;
      }

      crashed, report := ExploreAll(here, deeper);
      if !crashed {
        Finish(here, path);
      }
    }

    /** The neighbour loop. */
    method ExploreAll(here: nat, ghost path: seq<nat>) returns (crashed: bool, report: seq<(nat, nat)>)
      requires Searching(path) && path != [] && path[|path| - 1] == here
      requires Bounded(lockHistory, |discoveredOrder|) && Loopless(lockHistory)
      requires here in lockHistory
      modifies `discoveredOrder, `discoveredCount, `finished, `parent, `rank, `clock
      ensures crashed ==> PrintedCycle(lockHistory, report)
      ensures |discoveredOrder| == old(|discoveredOrder|)
      ensures !crashed ==> Searching(path) && AllFinished(lockHistory[here], finished)
      ensures !crashed ==> Extends(old(discoveredOrder), old(finished), discoveredOrder, finished)
      decreases Unseen(discoveredOrder), 2
    {
      crashed, report := false, [];
      var todo := lockHistory[here];
      ghost var done := {};
      while todo != {}
        invariant Searching(path) && |discoveredOrder| == old(|discoveredOrder|)
        invariant lockHistory[here] == done + todo
        invariant AllFinished(done, finished)
        invariant Unseen(discoveredOrder) <= old(Unseen(discoveredOrder))
        invariant Extends(old(discoveredOrder), old(finished), discoveredOrder, finished)
        decreases todo
      {
        var there :| there in todo;
        todo := todo - {there};
        crashed, report := Explore(here, there, path);
        if crashed {
          return;
        }
        done := done + {there};
      }
      assert done == lockHistory[here];
    }

    /** One round of the neighbour loop: afterwards there is finished, or a cycle has been printed. */
    method Explore(here: nat, there: nat, ghost path: seq<nat>) returns (crashed: bool, report: seq<(nat, nat)>)
      requires Searching(path) && path != [] && path[|path| - 1] == here
      requires Bounded(lockHistory, |discoveredOrder|) && Loopless(lockHistory)
      requires Edge(lockHistory, here, there)
      modifies `discoveredOrder, `discoveredCount, `finished, `parent, `rank, `clock
      ensures crashed ==> PrintedCycle(lockHistory, report)
      ensures |discoveredOrder| == old(|discoveredOrder|)
      ensures !crashed ==> Searching(path) && there < |finished| && finished[there]
      ensures !crashed ==> Extends(old(discoveredOrder), old(finished), discoveredOrder, finished)
      ensures !crashed ==> Unseen(discoveredOrder) <= old(Unseen(discoveredOrder))
      decreases Unseen(discoveredOrder), 1
    {
      crashed, report := false, [];
      if discoveredOrder[there] == -1 {
        SetParent(lockHistory, |discoveredOrder|, discoveredOrder, discoveredCount, finished, parent, rank, clock,
                  path, there, here);
        parent := parent[there := here];
        crashed, report := Dfs(there, path);
        return;
      }
      LaterIsFinished(lockHistory, |discoveredOrder|, discoveredOrder, discoveredCount, finished, parent, rank, clock,
                      path, there);
      if discoveredOrder[here] < discoveredOrder[there] {
        return;
      }
      if !finished[there] {
        report := ReportCycle(here, there, path);
        crashed := true;
      }
    }

    method Finish(here: nat, ghost path: seq<nat>)
      requires Searching(path + [here]) && here < |discoveredOrder|
      requires forall v: nat :: Edge(lockHistory, here, v) ==> v < |finished| && finished[v]
      modifies `finished, `rank, `clock
      ensures Searching(path) && finished == old(finished)[here := true]
    {
      assert !finished[(path + [here])[|path|]];
      finished := finished[here := true];
      rank := rank[here := clock];
      clock := clock + 1;
      assert OnPath(lockHistory, |discoveredOrder|, discoveredOrder, finished, parent, path) by {
        forall i | 0 <= i < |path| ensures path[i] == (path + [here])[i] && path[i] != here {
          assert discoveredOrder[(path + [here])[i]] < discoveredOrder[(path + [here])[|path|]];
        }
      }
    }

    /** Crashes exactly when the recorded graph has a cycle, and then prints one. */
    method CheckCycle() returns (crashed: bool, report: seq<(nat, nat)>)
      requires Bounded(lockHistory, |nameToId|) && Loopless(lockHistory)
      modifies `discoveredOrder, `discoveredCount, `finished, `parent, `rank, `clock
      ensures crashed <==> HasCycle(lockHistory)
      ensures crashed ==> PrintedCycle(lockHistory, report)
    {
      var lockCount := |nameToId|;
      discoveredOrder := seq(lockCount, _ => -1);
      discoveredCount := 0;
      finished := seq(lockCount, _ => false);
      parent := seq(lockCount, _ => -1);
      rank, clock := seq(lockCount, _ => 0), 0;
      for lockId := 0 to lockCount
        invariant |discoveredOrder| == lockCount && Searching([])
        invariant forall v :: 0 <= v < lockId ==> finished[v]
      {
        crashed, report := Dfs(lockId, []);
        if crashed {
          PrintedCycleIsACycle(lockHistory, report);
          return;
        }
      }
      RankedIsAcyclic(lockHistory, rank);
      discoveredOrder, finished, parent := [], [], [];
      crashed, report := false, [];
    }

    method PushLock(t: ThreadId, name: LockName) returns (crashed: bool, report: seq<(nat, nat)>)
      requires Valid()
      modifies this
      ensures crashed <==> Push(old(View()), t, name).Crash?
      ensures crashed ==> PrintedCycle(lockHistory, report)
      ensures !crashed ==> Valid() && Push(old(View()), t, name) == Ok(View())
    {
      ghost var before := View();
      PushKeepsWellFormed(before, t, name);
      var lockId := Register(name);
      var held := if t in lockStack then lockStack[t] else [];
      crashed, report := RecordOrder(held, lockId);
      if !crashed {
        lockStack := lockStack[t := held + [lockId]];
        assert View() == Push(before, t, name).book;
      }
    }

    /** The id of a name, handing out `_nameToId.size()` to a new one. */
    method Register(name: LockName) returns (lockId: nat)
      requires Valid()
      modifies `nameToId, `idToName
      ensures lockId == IdFor(old(nameToId), name) && nameToId == old(nameToId)[name := lockId]
      ensures idToName == NamesWith(old(View()), name)
      ensures Bounded(lockHistory, |nameToId|) && lockId < |nameToId|
    {
      RegisterKeepsNames(View(), name);
      NamedIsBounded(View());
      if name !in nameToId {
        lockId := |nameToId|;
        nameToId := nameToId[name := lockId];
        idToName := idToName[lockId := name];
      } else {
        lockId := nameToId[name];
        assert nameToId[name := lockId] == nameToId;
      }
    }

    /** Remember "last held -> curr"; a new edge is checked at once. */
    method RecordOrder(held: seq<nat>, lockId: nat) returns (crashed: bool, report: seq<(nat, nat)>)
      requires Bounded(lockHistory, |nameToId|) && Loopless(lockHistory)
      requires lockId < |nameToId| && (held != [] ==> Top(held) < |nameToId|)
      modifies `lockHistory, `discoveredOrder, `discoveredCount, `finished, `parent, `rank, `clock
      ensures crashed <==> ClosesCycle(old(lockHistory), held, lockId)
      ensures crashed ==> PrintedCycle(lockHistory, report)
      ensures lockHistory == HistoryWith(old(lockHistory), held, lockId)
    {
      crashed, report := false, [];
      if held != [] {
        var prevId := held[|held| - 1];
        if lockId != prevId {
          var next := if prevId in lockHistory then lockHistory[prevId] else {};
          if lockId !in next {
            lockHistory := lockHistory[prevId := next + {lockId}];
            crashed, report := CheckCycle();
          } else {
            assert next + {lockId} == next && WithEdge(lockHistory, prevId, lockId) == lockHistory;
          }
        }
      }
    }

    method PopLock(t: ThreadId, name: LockName) returns (crash: bool, cause: CrashCause)
      requires Valid()
      modifies `nameToId, `lockStack
      ensures crash <==> Pop(old(View()), t, name).Crash?
      ensures crash ==> cause == Pop(old(View()), t, name).cause
      ensures !crash ==> Valid() && Pop(old(View()), t, name) == Ok(View())
    {
      PopKeepsWellFormed(View(), t, name);
      crash, cause := true, MultipleUnlock;
      var held := if t in lockStack then lockStack[t] else [];
      if held == [] {
        return;
      }
      var lockId := if name in nameToId then nameToId[name] else 0;
      nameToId := nameToId[name := lockId];
      if held[|held| - 1] != lockId {
        cause := InvalidUnlock;
        return;
      }
      lockStack := lockStack[t := held[..|held| - 1]];
      crash := false;
    }
  }
}

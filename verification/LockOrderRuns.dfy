/** What every interleaving of PushLock and PopLock by any number of threads keeps, up to a crash. */
module LockOrderRuns {
  import opened LockGraph
  import opened LockBook
  import opened FreshIds

  /** Each call runs under the profiler's mutex, so a run is a sequence of whole calls. */
  datatype Call<L> = PushCall(t: ThreadId, lock: L) | PopCall(t: ThreadId, lock: L)

  /** The profiler is told names. */
  type Event = Call<LockName>

  ghost function Step(b: Book, e: Event): Outcome {
    match e
    case PushCall(t, name) => Push(b, t, name)
    case PopCall(t, name) => Pop(b, t, name)
  }

  ghost function Run(b: Book, events: seq<Event>): Outcome
    decreases |events|
  {
    if events == [] then Ok(b)
    else
      var r := Step(b, events[0]);
      if r.Crash? then r else Run(r.book, events[1..])
  }

  /** Neighbours on a thread's stack are the same lock pushed again, or a recorded order. */
  predicate StacksRecorded(b: Book) {
    forall t <- b.stacks, i :: 0 <= i < |b.stacks[t]| - 1 ==>
      b.stacks[t][i] == b.stacks[t][i + 1] || Edge(b.history, b.stacks[t][i], b.stacks[t][i + 1])
  }

  ghost predicate Safe(b: Book) {
    WellFormed(b) && !HasCycle(b.history) && StacksRecorded(b)
  }

  lemma PushKeepsSafe(b: Book, t: ThreadId, name: LockName)
    requires Safe(b) && Push(b, t, name).Ok?
    ensures Safe(Push(b, t, name).book)
  {
    PushKeepsWellFormed(b, t, name);
    var id, held := IdFor(b.ids, name), StackOf(b, t);
    OldOrderIsNotRecordedTwice(b.history, held, id);
    PushKeepsStacksRecorded(b, t, name);
  }

  lemma OldOrderIsNotRecordedTwice(g: Graph, held: seq<nat>, id: nat)
    ensures !AddsEdge(g, held, id) ==> HistoryWith(g, held, id) == g
  {
    if !AddsEdge(g, held, id) && held != [] && Top(held) != id {
      assert g[Top(held)] + {id} == g[Top(held)];
    }
  }

  lemma PushKeepsStacksRecorded(b: Book, t: ThreadId, name: LockName)
    requires StacksRecorded(b) && Push(b, t, name).Ok?
    ensures StacksRecorded(Push(b, t, name).book)
  {
    var id, held := IdFor(b.ids, name), StackOf(b, t);
    var history, held' := HistoryWith(b.history, held, id), held + [id];
    forall i | 0 <= i < |held'| - 1 ensures held'[i] == held'[i + 1] || Edge(history, held'[i], held'[i + 1]) {
      if i < |held| - 1 {
        assert held[i] == held[i + 1] || Edge(b.history, held[i], held[i + 1]);
      } else {
        assert held'[i] == Top(held);
      }
    }
  }

  lemma PopKeepsSafe(b: Book, t: ThreadId, name: LockName)
    requires Safe(b) && Pop(b, t, name).Ok?
    ensures Safe(Pop(b, t, name).book)
  {
    PopKeepsWellFormed(b, t, name);
  }

  /** In every reachable state the recorded order is acyclic and covers what every thread holds. */
  lemma {:induction false} RunsStaySafe(b: Book, events: seq<Event>)
    requires Safe(b)
    ensures Run(b, events).Ok? ==> Safe(Run(b, events).book)
    decreases |events|
  {
    if events != [] {
      var r := Step(b, events[0]);
      if r.Ok? {
        match events[0] {
          case PushCall(t, name) => PushKeepsSafe(b, t, name);
          case PopCall(t, name) => PopKeepsSafe(b, t, name);
        }
        RunsStaySafe(r.book, events[1..]);
      }
    }
  }

  /** Every lock on a stack reaches, along recorded orders, every different lock pushed after it. */
  lemma {:induction false} HeldReachesLater(b: Book, t: ThreadId, i: nat, j: nat)
    requires StacksRecorded(b) && t in b.stacks && i < j < |b.stacks[t]|
    ensures b.stacks[t][i] == b.stacks[t][j] || Reaches(b.history, b.stacks[t][i], b.stacks[t][j])
    decreases j - i
  {
    var s := b.stacks[t];
    assert s[i] == s[i + 1] || Edge(b.history, s[i], s[i + 1]);
    if s[i] != s[i + 1] {
      ReachesByEdge(b.history, s[i], s[i + 1]);
    }
    if i + 1 < j {
      HeldReachesLater(b, t, i + 1, j);
      if s[i] != s[i + 1] && s[i + 1] != s[j] {
        ReachesTransitive(b.history, s[i], s[i + 1], s[j]);
      }
    }
  }

  /** As far as ids tell: t has asked for a lock it does not hold yet, and u holds it. */
  predicate IdWaitsFor(b: Book, t: ThreadId, u: ThreadId) {
    var s, r := StackOf(b, t), StackOf(b, u);
    && s != [] && r != []
    && Top(s) !in s[..|s| - 1]
    && Top(s) in r[..|r| - 1]
  }

  predicate IdCircularWait(b: Book, ts: seq<ThreadId>) {
    && |ts| >= 2 && ts[0] == ts[|ts| - 1]
    && forall i :: 0 <= i < |ts| - 1 ==> IdWaitsFor(b, ts[i], ts[i + 1])
  }

  lemma WaitingReaches(b: Book, t: ThreadId, u: ThreadId, v: ThreadId)
    requires StacksRecorded(b) && IdWaitsFor(b, t, u) && IdWaitsFor(b, u, v)
    ensures Reaches(b.history, Top(StackOf(b, t)), Top(StackOf(b, u)))
  {
    var s, r := StackOf(b, t), StackOf(b, u);
    var k :| 0 <= k < |r| - 1 && r[..|r| - 1][k] == Top(s);
    HeldReachesLater(b, u, k, |r| - 1);
    assert Top(r) !in r[..|r| - 1];
  }

  lemma {:induction false} WaitChainReaches(b: Book, ts: seq<ThreadId>, k: nat)
    requires StacksRecorded(b) && IdCircularWait(b, ts) && 1 <= k < |ts|
    ensures StackOf(b, ts[0]) != [] && StackOf(b, ts[k]) != []
    ensures Reaches(b.history, Top(StackOf(b, ts[0])), Top(StackOf(b, ts[k])))
    decreases k
  {
    assert IdWaitsFor(b, ts[k - 1], ts[k]);
    var next := if k < |ts| - 1 then ts[k + 1] else ts[1];
    assert IdWaitsFor(b, ts[k], next) by {
      assert IdWaitsFor(b, ts[0], ts[1]);
    }
    WaitingReaches(b, ts[k - 1], ts[k], next);
    if k > 1 {
      WaitChainReaches(b, ts, k - 1);
      ReachesTransitive(b.history, Top(StackOf(b, ts[0])), Top(StackOf(b, ts[k - 1])), Top(StackOf(b, ts[k])));
    }
  }

  lemma SafeHasNoIdCircularWait(b: Book, ts: seq<ThreadId>)
    requires Safe(b)
    ensures !IdCircularWait(b, ts)
  {
    if IdCircularWait(b, ts) {
      WaitChainReaches(b, ts, |ts| - 1);
    }
  }

  lemma EmptyIsSafe()
    ensures Safe(EMPTY)
  {
    RankedIsAcyclic(EMPTY.history, []);
  }

  /** A push crashes exactly when the requested lock is already recorded as coming before the last held one. */
  lemma CrashesOnInversion(b: Book, t: ThreadId, name: LockName)
    requires Safe(b)
    ensures Push(b, t, name).Crash? <==>
            StackOf(b, t) != [] && Reaches(b.history, IdFor(b.ids, name), Top(StackOf(b, t)))
  {
    var id, held := IdFor(b.ids, name), StackOf(b, t);
    if held != [] && Top(held) != id {
      NewEdgeClosesCycle(b.history, Top(held), id);
      if Edge(b.history, Top(held), id) && Reaches(b.history, id, Top(held)) {
        ReachesByEdge(b.history, Top(held), id);
        ReachesTransitive(b.history, id, Top(held), id);
      }
    }
  }

  /** The orders a run exhibits: lock v requested by a thread whose last push was u. */
  ghost function Observed(b: Book, events: seq<Event>): set<(nat, nat)>
    decreases |events|
  {
    if events == [] then {}
    else
      var r := Step(b, events[0]);
      if r.Crash? then ObservedNow(b, events[0])
      else ObservedNow(b, events[0]) + Observed(r.book, events[1..])
  }

  function ObservedNow(b: Book, e: Event): set<(nat, nat)> {
    if e.PushCall? && StackOf(b, e.t) != [] && Top(StackOf(b, e.t)) != IdFor(b.ids, e.lock)
    then {(Top(StackOf(b, e.t)), IdFor(b.ids, e.lock))}
    else {}
  }

  lemma StepRecordsWhatIsObserved(b: Book, e: Event, u: nat, v: nat)
    requires Step(b, e).Ok?
    ensures Edge(Step(b, e).book.history, u, v) <==> Edge(b.history, u, v) || (u, v) in ObservedNow(b, e)
  {
    if e.PushCall? {
      assert Step(b, e).book.history == HistoryWith(b.history, StackOf(b, e.t), IdFor(b.ids, e.lock));
    }
  }

  /** The recorded graph is exactly the set of orders observed: nothing is invented and nothing forgotten. */
  lemma {:induction false} HistoryIsWhatWasObserved(b: Book, events: seq<Event>, u: nat, v: nat)
    requires Run(b, events).Ok?
    ensures Edge(Run(b, events).book.history, u, v) <==> Edge(b.history, u, v) || (u, v) in Observed(b, events)
    decreases |events|
  {
    if events != [] {
      StepRecordsWhatIsObserved(b, events[0], u, v);
      HistoryIsWhatWasObserved(Step(b, events[0]).book, events[1..], u, v);
    }
  }

  predicate NamesDistinct(b: Book) {
    forall m, n :: m in b.ids && n in b.ids && b.ids[m] == b.ids[n] ==> m == n
  }

  predicate IsTopsName(b: Book, t: ThreadId, name: LockName) {
    StackOf(b, t) != [] && name in b.ids && b.ids[name] == Top(StackOf(b, t))
  }

  /**
   PopLock promises to crash unless name is the lock on top. It does so except for a name that was never
   pushed, which stands for id 0 and so pops lock 0.
   */
  lemma PopChecksNameUnlessUnknown(b: Book, t: ThreadId, name: LockName)
    ensures (Pop(b, t, name).Ok? <==> IsTopsName(b, t, name)) <==>
            !(name !in b.ids && StackOf(b, t) != [] && Top(StackOf(b, t)) == 0)
  {
  }

  /** A successful pop keeps one id per name exactly when its name had been pushed. */
  lemma PopKeepsNamesDistinctIffKnown(b: Book, t: ThreadId, name: LockName)
    requires WellFormed(b) && NamesDistinct(b) && Pop(b, t, name).Ok?
    ensures NamesDistinct(Pop(b, t, name).book) <==> name in b.ids
  {
    var held := StackOf(b, t);
    var top := Top(held);
    assert b.stacks[t][|held| - 1] in b.names;
    var ids' := Pop(b, t, name).book.ids;
    if name in b.ids {
      assert ids' == b.ids;
    } else {
      assert b.names[0] in ids' && ids'[b.names[0]] == ids'[name] == 0;
    }
  }

  lemma PushKeepsNamesDistinct(b: Book, t: ThreadId, name: LockName)
    requires WellFormed(b) && NamesDistinct(b) && Push(b, t, name).Ok?
    ensures NamesDistinct(Push(b, t, name).book)
  {
    forall n | n in b.ids ensures b.ids[n] < |b.ids| {
      assert b.ids[n] in b.names;
    }
  }

  // ---------------------------------------------------------------- what threads hold

  /** What every thread holds, by whatever a lock is told apart by; the program itself remembers only ids. */
  type Locks<L> = map<ThreadId, seq<L>>

  function LocksOf<L>(locks: Locks<L>, t: ThreadId): seq<L> {
    if t in locks then locks[t] else []
  }

  /** Release is in the reverse order of acquisition, so a pop takes the last lock off. */
  function NextLocks<L>(locks: Locks<L>, e: Call<L>): Locks<L> {
    var held := LocksOf(locks, e.t);
    match e
    case PushCall(t, lock) => locks[t := held + [lock]]
    case PopCall(t, _) => if held == [] then locks else locks[t := held[..|held| - 1]]
  }

  function RunLocks<L>(locks: Locks<L>, calls: seq<Call<L>>): Locks<L>
    decreases |calls|
  {
    if calls == [] then locks else RunLocks(NextLocks(locks, calls[0]), calls[1..])
  }

  /**
   t has asked for a lock it does not hold yet, and u holds it. PushLock is called before the lock is
   taken, so the last entry of a waiting thread's stack is its request and the rest is what it holds.
   */
  predicate WaitsFor<L(==)>(locks: Locks<L>, t: ThreadId, u: ThreadId) {
    var s, r := LocksOf(locks, t), LocksOf(locks, u);
    && s != [] && r != []
    && s[|s| - 1] !in s[..|s| - 1]
    && s[|s| - 1] in r[..|r| - 1]
  }

  /** A closed list of threads, each waiting for the next; the first is repeated at the end. */
  predicate CircularWait<L(==)>(locks: Locks<L>, ts: seq<ThreadId>) {
    && |ts| >= 2 && ts[0] == ts[|ts| - 1]
    && forall i :: 0 <= i < |ts| - 1 ==> WaitsFor(locks, ts[i], ts[i + 1])
  }

  /** A stack holds the ids of these names. */
  predicate Names(ids: map<LockName, nat>, stack: seq<nat>, names: seq<LockName>) {
    |stack| == |names| && forall i :: 0 <= i < |names| ==> names[i] in ids && ids[names[i]] == stack[i]
  }

  /** Every thread's stack holds the ids of the names it has pushed. */
  ghost predicate Tracks(b: Book, names: Locks<LockName>) {
    forall t :: Names(b.ids, StackOf(b, t), LocksOf(names, t))
  }

  lemma StepTracks(b: Book, names: Locks<LockName>, e: Event)
    requires Tracks(b, names) && Step(b, e).Ok?
    ensures Tracks(Step(b, e).book, NextLocks(names, e))
  {
    var b', names' := Step(b, e).book, NextLocks(names, e);
    forall t ensures Names(b'.ids, StackOf(b', t), LocksOf(names', t)) {
      assert Names(b.ids, StackOf(b, t), LocksOf(names, t));
      assert t != e.t ==> StackOf(b', t) == StackOf(b, t) && LocksOf(names', t) == LocksOf(names, t);
    }
  }

  lemma {:induction false} RunTracks(b: Book, names: Locks<LockName>, events: seq<Event>)
    requires Tracks(b, names) && Run(b, events).Ok?
    ensures Tracks(Run(b, events).book, RunLocks(names, events))
    decreases |events|
  {
    if events != [] {
      StepTracks(b, names, events[0]);
      RunTracks(Step(b, events[0]).book, NextLocks(names, events[0]), events[1..]);
    }
  }

  lemma WaitShowsInIds(b: Book, names: Locks<LockName>, t: ThreadId, u: ThreadId)
    requires Tracks(b, names) && NamesDistinct(b) && WaitsFor(names, t, u)
    ensures IdWaitsFor(b, t, u)
  {
    var s, r := LocksOf(names, t), LocksOf(names, u);
    assert Names(b.ids, StackOf(b, t), s) && Names(b.ids, StackOf(b, u), r);
    var k :| 0 <= k < |r| - 1 && r[k] == s[|s| - 1];
    assert StackOf(b, u)[..|r| - 1][k] == Top(StackOf(b, t));
    forall i | 0 <= i < |s| - 1 ensures StackOf(b, t)[i] != Top(StackOf(b, t)) {
      assert s[..|s| - 1][i] == s[i];
    }
  }

  lemma DistinctHasNoCircularWait(b: Book, names: Locks<LockName>, ts: seq<ThreadId>)
    requires Safe(b) && NamesDistinct(b) && Tracks(b, names)
    ensures !CircularWait(names, ts)
  {
    if CircularWait(names, ts) {
      forall i | 0 <= i < |ts| - 1 ensures IdWaitsFor(b, ts[i], ts[i + 1]) {
        assert WaitsFor(names, ts[i], ts[i + 1]);
        WaitShowsInIds(b, names, ts[i], ts[i + 1]);
      }
      SafeHasNoIdCircularWait(b, ts);
    }
  }

  /** Every pop names a lock that some thread has pushed before. */
  ghost predicate PopsKnown(b: Book, events: seq<Event>)
    decreases |events|
  {
    events != [] ==>
      && (events[0].PopCall? ==> events[0].lock in b.ids)
      && (Step(b, events[0]).Ok? ==> PopsKnown(Step(b, events[0]).book, events[1..]))
  }

  lemma SharedIdStays(b: Book, e: Event)
    requires !NamesDistinct(b) && Step(b, e).Ok?
    ensures !NamesDistinct(Step(b, e).book)
  {
    var m, n :| m in b.ids && n in b.ids && b.ids[m] == b.ids[n] && m != n;
    var ids' := Step(b, e).book.ids;
    assert m in ids' && n in ids' && ids'[m] == ids'[n];
  }

  lemma {:induction false} SharedIdStaysInRuns(b: Book, events: seq<Event>)
    requires !NamesDistinct(b) && Run(b, events).Ok?
    ensures !NamesDistinct(Run(b, events).book)
    decreases |events|
  {
    if events != [] {
      SharedIdStays(b, events[0]);
      SharedIdStaysInRuns(Step(b, events[0]).book, events[1..]);
    }
  }

  /** Locks keep ids of their own through a run exactly when every pop names a lock pushed before. */
  lemma {:induction false} NamesStayDistinctIff(b: Book, events: seq<Event>)
    requires Safe(b) && NamesDistinct(b) && Run(b, events).Ok?
    ensures NamesDistinct(Run(b, events).book) <==> PopsKnown(b, events)
    decreases |events|
  {
    if events != [] {
      var e, next := events[0], Step(b, events[0]).book;
      match e {
        case PushCall(t, name) =>
          PushKeepsSafe(b, t, name);
          PushKeepsNamesDistinct(b, t, name);
        case PopCall(t, name) =>
          PopKeepsSafe(b, t, name);
          PopKeepsNamesDistinctIffKnown(b, t, name);
      }
      if NamesDistinct(next) {
        NamesStayDistinctIff(next, events[1..]);
      } else {
        SharedIdStaysInRuns(next, events[1..]);
      }
    }
  }

  /**
   How PopLock ends, said of the names the thread has pushed and not popped: without any it crashes for unlocking too
   often, and with another one on top for unlocking out of order.
   */
  lemma PopEndsHow(events: seq<Event>, t: ThreadId, name: LockName)
    requires Run(EMPTY, events).Ok? && PopsKnown(EMPTY, events) && name in Run(EMPTY, events).book.ids
    ensures
      var r, held := Pop(Run(EMPTY, events).book, t, name), LocksOf(RunLocks(map[], events), t);
      && (r == Crash(MultipleUnlock) <==> held == [])
      && (r == Crash(InvalidUnlock) <==> held != [] && held[|held| - 1] != name)
      && (r.Ok? <==> held != [] && held[|held| - 1] == name)
  {
    EmptyIsSafe();
    NamesStayDistinctIff(EMPTY, events);
    RunTracks(EMPTY, map[], events);
    var b := Run(EMPTY, events).book;
    assert Names(b.ids, StackOf(b, t), LocksOf(RunLocks(map[], events), t));
  }

  /** A push that crashes does so for a deadlock. */
  lemma PushEndsHow(b: Book, t: ThreadId, name: LockName)
    ensures Push(b, t, name).Crash? ==> Push(b, t, name) == Crash(DeadlockDetected)
  {
  }

  // ---------------------------------------------------------------- the lock objects

  /**
   A Lock object. The lock macros pass `typeid(this).name()`, so all objects of a class push one name; nameOf is
   that assignment of names.
   */
  type Lock = nat

  function CallOf(nameOf: Lock -> LockName, c: Call<Lock>): Event {
    match c
    case PushCall(t, lock) => PushCall(t, nameOf(lock))
    case PopCall(t, lock) => PopCall(t, nameOf(lock))
  }

  /** What the profiler hears of the calls for these objects. */
  function Heard(nameOf: Lock -> LockName, calls: seq<Call<Lock>>): seq<Event> {
    seq(|calls|, i requires 0 <= i < |calls| => CallOf(nameOf, calls[i]))
  }

  function NamesOf(nameOf: Lock -> LockName, locks: seq<Lock>): seq<LockName> {
    seq(|locks|, i requires 0 <= i < |locks| => nameOf(locks[i]))
  }

  ghost predicate Injective(nameOf: Lock -> LockName) {
    forall a, b :: nameOf(a) == nameOf(b) ==> a == b
  }

  /** names are the names of the locks every thread holds. */
  ghost predicate Named(nameOf: Lock -> LockName, locks: Locks<Lock>, names: Locks<LockName>) {
    forall t :: LocksOf(names, t) == NamesOf(nameOf, LocksOf(locks, t))
  }

  lemma StepNamed(nameOf: Lock -> LockName, locks: Locks<Lock>, names: Locks<LockName>, c: Call<Lock>)
    requires Named(nameOf, locks, names)
    ensures Named(nameOf, NextLocks(locks, c), NextLocks(names, CallOf(nameOf, c)))
  {
    var locks', names' := NextLocks(locks, c), NextLocks(names, CallOf(nameOf, c));
    forall t ensures LocksOf(names', t) == NamesOf(nameOf, LocksOf(locks', t)) {
      assert LocksOf(names, t) == NamesOf(nameOf, LocksOf(locks, t));
      assert t != c.t ==> LocksOf(names', t) == LocksOf(names, t) && LocksOf(locks', t) == LocksOf(locks, t);
    }
  }

  lemma {:induction false} RunNamed(
      nameOf: Lock -> LockName, locks: Locks<Lock>, names: Locks<LockName>, calls: seq<Call<Lock>>)
    requires Named(nameOf, locks, names)
    ensures Named(nameOf, RunLocks(locks, calls), RunLocks(names, Heard(nameOf, calls)))
    decreases |calls|
  {
    if calls != [] {
      assert Heard(nameOf, calls)[1..] == Heard(nameOf, calls[1..]);
      StepNamed(nameOf, locks, names, calls[0]);
      RunNamed(nameOf, NextLocks(locks, calls[0]), NextLocks(names, CallOf(nameOf, calls[0])), calls[1..]);
    }
  }

  /** t asks for a lock whose name one of the locks it holds has too. */
  predicate ReusesName(nameOf: Lock -> LockName, locks: Locks<Lock>, t: ThreadId) {
    var s := LocksOf(locks, t);
    s != [] && exists i :: 0 <= i < |s| - 1 && s[i] != s[|s| - 1] && nameOf(s[i]) == nameOf(s[|s| - 1])
  }

  lemma WaitShowsInNames(
      nameOf: Lock -> LockName, locks: Locks<Lock>, names: Locks<LockName>, t: ThreadId, u: ThreadId)
    requires Named(nameOf, locks, names) && WaitsFor(locks, t, u) && !ReusesName(nameOf, locks, t)
    ensures WaitsFor(names, t, u)
  {
    var s, r := LocksOf(locks, t), LocksOf(locks, u);
    var k :| 0 <= k < |r| - 1 && r[k] == s[|s| - 1];
    assert LocksOf(names, u)[..|r| - 1][k] == nameOf(s[|s| - 1]);
    forall i | 0 <= i < |s| - 1 ensures LocksOf(names, t)[i] != nameOf(s[|s| - 1]) {
      assert s[..|s| - 1][i] == s[i];
    }
  }

  lemma CircleReusesName(
      b: Book, nameOf: Lock -> LockName, locks: Locks<Lock>, names: Locks<LockName>, ts: seq<ThreadId>)
    requires Safe(b) && NamesDistinct(b) && Tracks(b, names) && Named(nameOf, locks, names)
    requires CircularWait(locks, ts)
    ensures exists i :: 0 <= i < |ts| - 1 && ReusesName(nameOf, locks, ts[i])
  {
    if forall i :: 0 <= i < |ts| - 1 ==> !ReusesName(nameOf, locks, ts[i]) {
      forall i | 0 <= i < |ts| - 1 ensures WaitsFor(names, ts[i], ts[i + 1]) {
        WaitShowsInNames(nameOf, locks, names, ts[i], ts[i + 1]);
      }
      DistinctHasNoCircularWait(b, names, ts);
    }
  }

  /** The profiler's state after the calls, given that it started with names of their own for all ids. */
  lemma AfterCalls(
      b: Book, nameOf: Lock -> LockName, locks: Locks<Lock>, names: Locks<LockName>, calls: seq<Call<Lock>>)
    requires Safe(b) && NamesDistinct(b) && Tracks(b, names) && Named(nameOf, locks, names)
    requires Run(b, Heard(nameOf, calls)).Ok? && PopsKnown(b, Heard(nameOf, calls))
    ensures var b', names' := Run(b, Heard(nameOf, calls)).book, RunLocks(names, Heard(nameOf, calls));
            Safe(b') && NamesDistinct(b') && Tracks(b', names') && Named(nameOf, RunLocks(locks, calls), names')
  {
    NamesStayDistinctIff(b, Heard(nameOf, calls));
    RunsStaySafe(b, Heard(nameOf, calls));
    RunTracks(b, names, Heard(nameOf, calls));
    RunNamed(nameOf, locks, names, calls);
  }

  /**
   While the profiler has not crashed and every pop named a lock pushed before, threads can wait for each other
   in a circle only if one of them asks for a lock while it holds another of the same name.
   */
  lemma NoCircularWait(nameOf: Lock -> LockName, calls: seq<Call<Lock>>, ts: seq<ThreadId>)
    requires Run(EMPTY, Heard(nameOf, calls)).Ok? && PopsKnown(EMPTY, Heard(nameOf, calls))
    ensures CircularWait(RunLocks(map[], calls), ts) ==>
              exists i :: 0 <= i < |ts| - 1 && ReusesName(nameOf, RunLocks(map[], calls), ts[i])
  {
    EmptyIsSafe();
    AfterCalls(EMPTY, nameOf, map[], map[], calls);
    if CircularWait(RunLocks(map[], calls), ts) {
      var names := RunLocks(map[], Heard(nameOf, calls));
      CircleReusesName(Run(EMPTY, Heard(nameOf, calls)).book, nameOf, RunLocks(map[], calls), names, ts);
    }
  }

  /** From here on no threads can get into a circle unnoticed, as long as pops name locks pushed before. */
  ghost predicate Guarded(b: Book, nameOf: Lock -> LockName, locks: Locks<Lock>) {
    forall more, ts :: PopsKnown(b, Heard(nameOf, more)) && Run(b, Heard(nameOf, more)).Ok? ==>
      !CircularWait(RunLocks(locks, more), ts)
  }

  lemma DistinctIsGuarded(b: Book, nameOf: Lock -> LockName, locks: Locks<Lock>, names: Locks<LockName>)
    requires Safe(b) && NamesDistinct(b) && Tracks(b, names) && Named(nameOf, locks, names) && Injective(nameOf)
    ensures Guarded(b, nameOf, locks)
  {
    forall more, ts | PopsKnown(b, Heard(nameOf, more)) && Run(b, Heard(nameOf, more)).Ok?
      ensures !CircularWait(RunLocks(locks, more), ts)
    {
      AfterCalls(b, nameOf, locks, names, more);
      if CircularWait(RunLocks(locks, more), ts) {
        var names' := RunLocks(names, Heard(nameOf, more));
        CircleReusesName(Run(b, Heard(nameOf, more)).book, nameOf, RunLocks(locks, more), names', ts);
      }
    }
  }

  // ---------------------------------------------------------------- a deadlock that goes unnoticed

  /** Two threads take two locks in opposite orders. */
  function Inversion<L>(t: ThreadId, u: ThreadId, m: L, n: L): seq<Call<L>> {
    [PushCall(t, m), PushCall(t, n), PushCall(u, n), PushCall(u, m)]
  }

  /** Two names with one id, or one name. */
  predicate ShareId(b: Book, m: LockName, n: LockName) {
    m == n || (m in b.ids && n in b.ids && b.ids[m] == b.ids[n])
  }

  /** The first push of a thread records no order. */
  lemma FirstPush(b: Book, t: ThreadId, name: LockName)
    requires StackOf(b, t) == []
    ensures
      var id := IdFor(b.ids, name);
      Push(b, t, name) == Ok(Book(b.ids[name := id], NamesWith(b, name), b.history, b.stacks[t := [id]]))
  {
    assert [] + [IdFor(b.ids, name)] == [IdFor(b.ids, name)];
  }

  lemma InversionRecordsNothing(b: Book, t: ThreadId, u: ThreadId, m: LockName, n: LockName)
    requires ShareId(b, m, n) && t != u && StackOf(b, t) == [] && StackOf(b, u) == []
    ensures Run(b, Inversion(t, u, m, n)).Ok? && PopsKnown(b, Inversion(t, u, m, n))
    ensures Run(b, Inversion(t, u, m, n)).book.history == b.history
  {
    var id := IdFor(b.ids, m);
    FirstPush(b, t, m);
    var b1 := Book(b.ids[m := id], NamesWith(b, m), b.history, b.stacks[t := [id]]);
    var b2 := b1.(stacks := b1.stacks[t := [id, id]]);
    var b3 := b2.(stacks := b2.stacks[u := [id]]);
    var b4 := b3.(stacks := b3.stacks[u := [id, id]]);
    assert b1.ids[m] == b1.ids[n] == id;
    KnownPush(b1, t, n, [id]);
    KnownPush(b2, u, n, []);
    KnownPush(b3, u, m, [id]);
    PushesRun(b, Inversion(t, u, m, n), [b, b1, b2, b3, b4]);
  }

  lemma KnownPush(b: Book, t: ThreadId, name: LockName, held: seq<nat>)
    requires name in b.ids && StackOf(b, t) == held && (held == [] || held == [b.ids[name]])
    ensures Push(b, t, name) == Ok(b.(stacks := b.stacks[t := held + [b.ids[name]]]))
    ensures held + [b.ids[name]] == if held == [] then [b.ids[name]] else [b.ids[name], b.ids[name]]
  {
    assert b.ids[name := b.ids[name]] == b.ids;
  }

  /** A run of pushes, given the books on the way. */
  lemma {:induction false} PushesRun(b: Book, es: seq<Event>, books: seq<Book>)
    requires |books| == |es| + 1 && books[0] == b
    requires forall i :: 0 <= i < |es| ==> es[i].PushCall? && Step(books[i], es[i]) == Ok(books[i + 1])
    ensures Run(b, es) == Ok(books[|es|]) && PopsKnown(b, es)
    decreases |es|
  {
    if es != [] {
      forall i | 0 <= i < |es[1..]| ensures Step(books[1..][i], es[1..][i]) == Ok(books[1..][i + 1]) {
        assert Step(books[i + 1], es[i + 1]) == Ok(books[i + 2]);
      }
      PushesRun(books[1], es[1..], books[1..]);
    }
  }

  lemma CrossedIsCircular<L>(end: Locks<L>, t: ThreadId, u: ThreadId, m: L, n: L)
    requires LocksOf(end, t) == [m, n] && LocksOf(end, u) == [n, m] && m != n
    ensures CircularWait(end, [t, u, t])
  {
    assert [m, n][..1] == [m] && [n, m][..1] == [n];
  }

  lemma RunLocksOfFour<L>(locks: Locks<L>, es: seq<Call<L>>)
    requires |es| == 4
    ensures RunLocks(locks, es) == NextLocks(NextLocks(NextLocks(NextLocks(locks, es[0]), es[1]), es[2]), es[3])
  {
    var l1 := NextLocks(locks, es[0]);
    var l2 := NextLocks(l1, es[1]);
    assert es[1..][1..] == es[2..] && es[2..][1..] == es[3..] && es[3..][1..] == [];
    var l3 := NextLocks(l2, es[2]);
    assert RunLocks(locks, es) == RunLocks(l1, es[1..]) == RunLocks(l2, es[2..]) == RunLocks(l3, es[3..]);
    assert RunLocks(l3, es[3..]) == RunLocks(NextLocks(l3, es[3..][0]), es[3..][1..]);
    assert RunLocks(NextLocks(l3, es[3]), []) == NextLocks(l3, es[3]);
  }

  lemma InversionIsCircular<L>(locks: Locks<L>, t: ThreadId, u: ThreadId, m: L, n: L)
    requires LocksOf(locks, t) == [] && LocksOf(locks, u) == [] && t != u && m != n
    ensures CircularWait(RunLocks(locks, Inversion(t, u, m, n)), [t, u, t])
  {
    var es := Inversion(t, u, m, n);
    RunLocksOfFour(locks, es);
    var end := RunLocks(locks, es);
    assert LocksOf(end, t) == [m, n] && LocksOf(end, u) == [n, m];
    CrossedIsCircular(end, t, u, m, n);
  }

  /** Locks with one id are never ordered: their inversion goes unnoticed and ends in a circle. */
  lemma SharedIdHidesInversion(
      b: Book, nameOf: Lock -> LockName, locks: Locks<Lock>, t: ThreadId, u: ThreadId, m: Lock, n: Lock)
    requires ShareId(b, nameOf(m), nameOf(n)) && m != n && t != u
    requires StackOf(b, t) == [] && StackOf(b, u) == [] && LocksOf(locks, t) == [] && LocksOf(locks, u) == []
    ensures
      var es := Heard(nameOf, Inversion(t, u, m, n));
      Run(b, es).Ok? && PopsKnown(b, es) && Run(b, es).book.history == b.history
    ensures CircularWait(RunLocks(locks, Inversion(t, u, m, n)), [t, u, t])
  {
    assert Heard(nameOf, Inversion(t, u, m, n)) == Inversion(t, u, nameOf(m), nameOf(n));
    InversionRecordsNothing(b, t, u, nameOf(m), nameOf(n));
    InversionIsCircular(locks, t, u, m, n);
  }

  /** Every known name is that of some lock. */
  ghost predicate NamesLocks(b: Book, nameOf: Lock -> LockName) {
    forall name <- b.ids :: exists lock :: nameOf(lock) == name
  }

  lemma {:induction false} HeardNamesLocks(b: Book, nameOf: Lock -> LockName, calls: seq<Call<Lock>>)
    requires NamesLocks(b, nameOf) && Run(b, Heard(nameOf, calls)).Ok?
    ensures NamesLocks(Run(b, Heard(nameOf, calls)).book, nameOf)
    decreases |calls|
  {
    if calls != [] {
      var next := Step(b, CallOf(nameOf, calls[0])).book;
      assert Heard(nameOf, calls)[1..] == Heard(nameOf, calls[1..]);
      forall name | name in next.ids ensures exists lock :: nameOf(lock) == name {
        assert name in b.ids || name == nameOf(calls[0].lock);
      }
      HeardNamesLocks(next, nameOf, calls[1..]);
    }
  }

  /** Two locks that share an id, if names are shared or ids are. */
  lemma SharedIdFound(b: Book, nameOf: Lock -> LockName) returns (m: Lock, n: Lock)
    requires NamesLocks(b, nameOf) && (!NamesDistinct(b) || !Injective(nameOf))
    ensures m != n && ShareId(b, nameOf(m), nameOf(n))
  {
    if !Injective(nameOf) {
      m, n :| nameOf(m) == nameOf(n) && m != n;
    } else {
      var a, c :| a in b.ids && c in b.ids && b.ids[a] == b.ids[c] && a != c;
      m :| nameOf(m) == a;
      n :| nameOf(n) == c;
    }
  }

  /**
   The profiler can be relied on from here on exactly when every pop so far named a lock pushed before and every
   lock has a name of its own: otherwise two locks share an id, and two idle threads can take them in opposite
   orders unnoticed.
   */
  lemma GuardedIff(nameOf: Lock -> LockName, calls: seq<Call<Lock>>)
    requires Run(EMPTY, Heard(nameOf, calls)).Ok?
    ensures Guarded(Run(EMPTY, Heard(nameOf, calls)).book, nameOf, RunLocks(map[], calls)) <==>
            PopsKnown(EMPTY, Heard(nameOf, calls)) && Injective(nameOf)
  {
    var events := Heard(nameOf, calls);
    var b, locks, names := Run(EMPTY, events).book, RunLocks(map[], calls), RunLocks(map[], events);
    EmptyIsSafe();
    NamesStayDistinctIff(EMPTY, events);
    if NamesDistinct(b) && Injective(nameOf) {
      AfterCalls(EMPTY, nameOf, map[], map[], calls);
      DistinctIsGuarded(b, nameOf, locks, names);
    } else {
      HeardNamesLocks(EMPTY, nameOf, calls);
      var m, n := SharedIdFound(b, nameOf);
      var t := FreshId(b.stacks.Keys + locks.Keys);
      var u := FreshId(b.stacks.Keys + locks.Keys + {t});
      SharedIdHidesInversion(b, nameOf, locks, t, u, m, n);
    }
  }

  /** No run with known pops hides a deadlock exactly when every lock has a name of its own. */
  lemma ReliableIffOneNameEach(nameOf: Lock -> LockName)
    ensures Guarded(EMPTY, nameOf, map[]) <==> Injective(nameOf)
  {
    assert Heard(nameOf, []) == [];
    GuardedIff(nameOf, []);
  }

  /** Two objects of one class: the threads wait for each other, nothing is recorded and nothing crashes. */
  lemma SharedNameHidesDeadlock(nameOf: Lock -> LockName)
    requires nameOf(1) == nameOf(2) == 7
    ensures
      var calls := [PushCall(1, 1), PushCall(1, 2), PushCall(2, 2), PushCall(2, 1)];
      var events := [PushCall(1, 7), PushCall(1, 7), PushCall(2, 7), PushCall(2, 7)];
      && Heard(nameOf, calls) == events
      && Run(EMPTY, events).Ok? && PopsKnown(EMPTY, events) && Run(EMPTY, events).book.history == map[]
      && CircularWait(RunLocks(map[], calls), [1, 2, 1])
  {
    SharedIdHidesInversion(EMPTY, nameOf, map[], 1, 2, 1, 2);
    assert Heard(nameOf, Inversion(1, 2, 1, 2)) == Inversion(1, 2, 7, 7);
  }

  /** An inversion of two locks that share an id after some events. */
  lemma InversionAfter(first: seq<Event>, t: ThreadId, u: ThreadId, m: LockName, n: LockName)
    requires Run(EMPTY, first).Ok? && ShareId(Run(EMPTY, first).book, m, n) && t != u && m != n
    requires StackOf(Run(EMPTY, first).book, t) == [] && StackOf(Run(EMPTY, first).book, u) == []
    requires LocksOf(RunLocks(map[], first), t) == [] && LocksOf(RunLocks(map[], first), u) == []
    ensures
      var events := first + Inversion(t, u, m, n);
      && Run(EMPTY, events).Ok? && Run(EMPTY, events).book.history == Run(EMPTY, first).book.history
      && CircularWait(RunLocks(map[], events), [t, u, t])
  {
    RunConcat(EMPTY, map[], first, Inversion(t, u, m, n));
    InversionRecordsNothing(Run(EMPTY, first).book, t, u, m, n);
    InversionIsCircular(RunLocks(map[], first), t, u, m, n);
  }

  /**
   Locks 10 and 99 have names of their own, but 99's is popped before anybody pushed it, so they share id 0;
   threads 1 and 2 take them in opposite orders, nothing is recorded, nothing crashes, and they wait for each other.
   */
  lemma UnknownNameHidesDeadlock()
    ensures
      var events := [PushCall(1, 10), PopCall(1, 99)] + Inversion(1, 2, 10, 99);
      && Run(EMPTY, events).Ok? && Run(EMPTY, events).book.history == map[]
      && CircularWait(RunLocks(map[], events), [1, 2, 1])
  {
    UnknownNamePopsFirstLock();
    LocksReleased();
    InversionAfter([PushCall(1, 10), PopCall(1, 99)], 1, 2, 10, 99);
  }

  lemma LocksReleased()
    ensures RunLocks<LockName>(map[], [PushCall(1, 10), PopCall(1, 99)]) == map[1 := []]
  {
    var calls: seq<Event> := [PushCall(1, 10), PopCall(1, 99)];
    assert calls[1..] == [calls[1]] && calls[1..][1..] == [];
    assert NextLocks(NextLocks<LockName>(map[], calls[0]), calls[1]) == map[1 := []];
  }

  lemma {:induction false} RunConcat(b: Book, locks: Locks<LockName>, es: seq<Event>, more: seq<Event>)
    requires Run(b, es).Ok?
    ensures Run(b, es + more) == Run(Run(b, es).book, more)
    ensures RunLocks(locks, es + more) == RunLocks(RunLocks(locks, es), more)
    decreases |es|
  {
    if es == [] {
      assert es + more == more;
    } else {
      assert (es + more)[1..] == es[1..] + more;
      RunConcat(Step(b, es[0]).book, NextLocks(locks, es[0]), es[1..], more);
    }
  }

  /** Lock 10 is pushed and the unknown name 99 popped: accepted, and 99 now stands for lock 10's id. */
  lemma UnknownNamePopsFirstLock()
    ensures var r := Run(EMPTY, [PushCall(1, 10), PopCall(1, 99)]);
            r.Ok? && r.book.stacks == map[1 := []] && r.book.ids == map[10 := 0, 99 := 0] && r.book.history == map[]
  {
    var e := [PushCall(1, 10), PopCall(1, 99)];
    var b := Push(EMPTY, 1, 10).book;
    assert StackOf(b, 1) == [0] && b.ids == map[10 := 0];
    assert e[1..] == [e[1]];
    var r := Pop(b, 1, 99);
    assert r.book.stacks == map[1 := []] && r.book.ids == map[10 := 0, 99 := 0];
    assert Run(b, [e[1]]) == Run(r.book, []);
  }
}

/**
 The room directory: double-checked get-or-create and the two-phase purge, as the read-locked and
 write-locked sections that threads interleave.
 */
module RoomDirectory {

  type ThreadId = nat
  type RoomId = nat

  datatype RoomKey = RoomKey(channelId: int, mapId: int, instanceId: int)

  /** DataManager: which maps exist, and the one to use instead of one that does not. */
  datatype Maps = Maps(isValid: int -> bool, defaultMapId: int)

  function KeyFor(maps: Maps, channelId: int, mapId: int, instanceId: int): RoomKey {
    RoomKey(channelId, if maps.isValid(mapId) then mapId else maps.defaultMapId, instanceId)
  }

  /** rooms is `_rooms`; made lists every room ever constructed, with the key it was initialised for. */
  datatype Directory = Directory(rooms: map<RoomKey, RoomId>, made: seq<RoomKey>)

  function GetOrInsert(d: Directory, key: RoomKey): Directory {
    if key in d.rooms then d else Directory(d.rooms[key := |d.made|], d.made + [key])
  }

  /** The rooms for which ShouldPurge answers yes, at one moment. */
  type Purgeable = set<RoomId>

  function Selected(d: Directory, purgeable: Purgeable): set<RoomKey> {
    set key | key in d.rooms && key.instanceId != 0 && d.rooms[key] in purgeable
  }

  function Erased(d: Directory, keys: set<RoomKey>, purgeable: Purgeable): set<RoomKey> {
    set key | key in keys && key in d.rooms && d.rooms[key] in purgeable
  }

  /** Between sections a thread holds no lock: it may have missed a key, or picked keys to purge. */
  datatype Pc = Outside | Missed(key: RoomKey) | Picked(keys: set<RoomKey>)

  /** What a thread's call did, written down in the section where it took effect. */
  datatype Entry =
    | Got(key: RoomKey, room: RoomId)
    | Purged(keys: set<RoomKey>, purgeable: Purgeable)

  datatype State = State(dir: Directory, pcs: map<ThreadId, Pc>, log: seq<Entry>)

  const START := State(Directory(map[], []), map[], [])

  datatype Event =
    | Lookup(t: ThreadId, key: RoomKey)              // GetOrCreateRoom: read-locked section
    | Create(t: ThreadId)                            // GetOrCreateRoom: write-locked section
    | Pick(t: ThreadId, purgeable: Purgeable)        // PurgeInstanceRooms: read-locked section
    | Erase(t: ThreadId, purgeable: Purgeable)       // PurgeInstanceRooms: write-locked section

  function PcOf(s: State, t: ThreadId): Pc {
    if t in s.pcs then s.pcs[t] else Outside
  }

  predicate Enabled(s: State, e: Event) {
    match e
    case Lookup(t, _) => PcOf(s, t).Outside?
    case Create(t) => PcOf(s, t).Missed?
    case Pick(t, _) => PcOf(s, t).Outside?
    case Erase(t, _) => PcOf(s, t).Picked?
  }

  function Step(s: State, e: Event): State
    requires Enabled(s, e)
  {
    match e
    case Lookup(t, key) =>
      if key in s.dir.rooms then s.(log := s.log + [Got(key, s.dir.rooms[key])])
      else s.(pcs := s.pcs[t := Missed(key)])
    case Create(t) =>
      var key := PcOf(s, t).key;
      var dir := GetOrInsert(s.dir, key);
      State(dir, s.pcs[t := Outside], s.log + [Got(key, dir.rooms[key])])
    case Pick(t, purgeable) =>
      var keys := Selected(s.dir, purgeable);
      if keys == {} then s else s.(pcs := s.pcs[t := Picked(keys)])
    case Erase(t, purgeable) =>
      var keys := Erased(s.dir, PcOf(s, t).keys, purgeable);
      State(s.dir.(rooms := s.dir.rooms - keys), s.pcs[t := Outside], s.log + [Purged(keys, purgeable)])
  }

  ghost predicate Runs(s: State, events: seq<Event>, s': State)
    decreases |events|
  {
    if events == [] then s' == s
    else Enabled(s, events[0]) && Runs(Step(s, events[0]), events[1..], s')
  }

  // ---------------------------------------------------------------- the atomic directory

  /** One entry as an indivisible operation on a directory. */
  function Apply(d: Directory, e: Entry): Directory {
    match e
    case Got(key, _) => GetOrInsert(d, key)
    case Purged(keys, _) => d.(rooms := d.rooms - keys)
  }

  /** The operation answers what the log says it did, and a purge only takes instance rooms that may go. */
  predicate Answers(d: Directory, e: Entry) {
    match e
    case Got(key, room) => GetOrInsert(d, key).rooms[key] == room
    case Purged(keys, purgeable) =>
      forall key <- keys :: key in d.rooms && key.instanceId != 0 && d.rooms[key] in purgeable
  }

  function Replay(log: seq<Entry>): Directory {
    if log == [] then Directory(map[], []) else Apply(Replay(log[..|log| - 1]), log[|log| - 1])
  }

  predicate Legal(log: seq<Entry>) {
    log != [] ==> Legal(log[..|log| - 1]) && Answers(Replay(log[..|log| - 1]), log[|log| - 1])
  }

  /** Every stored room was made for its key. */
  predicate Keyed(d: Directory) {
    forall key <- d.rooms :: d.rooms[key] < |d.made| && d.made[d.rooms[key]] == key
  }

  /** The log is a legal history of the atomic directory, and it leads to this one. */
  predicate Logged(dir: Directory, log: seq<Entry>) {
    Legal(log) && Replay(log) == dir
  }

  predicate PicksInstances(pc: Pc) {
    pc.Picked? ==> forall key <- pc.keys :: key.instanceId != 0
  }

  predicate Sound(s: State) {
    Logged(s.dir, s.log) && Keyed(s.dir) && forall t <- s.pcs :: PicksInstances(s.pcs[t])
  }

  lemma LogOneMore(log: seq<Entry>, e: Entry)
    ensures Replay(log + [e]) == Apply(Replay(log), e)
    ensures Legal(log + [e]) <==> Legal(log) && Answers(Replay(log), e)
  {
    assert (log + [e])[..|log|] == log;
  }

  lemma LoggedOneMore(dir: Directory, log: seq<Entry>, e: Entry)
    requires Logged(dir, log) && Keyed(dir) && Answers(dir, e)
    ensures Logged(Apply(dir, e), log + [e]) && Keyed(Apply(dir, e))
  {
    LogOneMore(log, e);
  }

  lemma StepKeepsSound(s: State, e: Event)
    requires Sound(s) && Enabled(s, e)
    ensures Sound(Step(s, e))
  {
    match e
    case Lookup(t, key) =>
      if key in s.dir.rooms {
        LoggedOneMore(s.dir, s.log, Got(key, s.dir.rooms[key]));
      }
    case Create(t) =>
      var key := PcOf(s, t).key;
      LoggedOneMore(s.dir, s.log, Got(key, GetOrInsert(s.dir, key).rooms[key]));
    case Pick(t, purgeable) =>
      assert PicksInstances(Picked(Selected(s.dir, purgeable)));
    case Erase(t, purgeable) =>
      assert PicksInstances(s.pcs[t]);
      LoggedOneMore(s.dir, s.log, Purged(Erased(s.dir, PcOf(s, t).keys, purgeable), purgeable));
  }

  lemma {:induction false} RunsStaySound(s: State, events: seq<Event>, after: State)
    requires Sound(s) && Runs(s, events, after)
    ensures Sound(after)
    decreases |events|
  {
    if events != [] {
      StepKeepsSound(s, events[0]);
      RunsStaySound(Step(s, events[0]), events[1..], after);
    }
  }

  /**
   Whatever the interleaving, the calls answered as if each had been one indivisible get-or-insert or purge,
   in the order they took effect, and the directory is what those leave behind.
   */
  lemma RefinesAtomicDirectory(events: seq<Event>, s: State)
    requires Runs(START, events, s)
    ensures Legal(s.log) && Replay(s.log) == s.dir
  {
    RunsStaySound(START, events, s);
  }

  /** At most one room per key, each carrying its key's channel, map and instance; no room serves two keys. */
  lemma RoomsCarryTheirKey(events: seq<Event>, s: State, key: RoomKey, other: RoomKey)
    requires Runs(START, events, s) && key in s.dir.rooms && other in s.dir.rooms
    ensures s.dir.rooms[key] < |s.dir.made| && s.dir.made[s.dir.rooms[key]] == key
    ensures s.dir.rooms[key] == s.dir.rooms[other] ==> key == other
  {
    RunsStaySound(START, events, s);
  }

  // ---------------------------------------------------------------- one key over time

  predicate PurgedBetween(log: seq<Entry>, i: nat, j: nat, key: RoomKey) {
    exists k :: i < k < j && k < |log| && log[k].Purged? && key in log[k].keys
  }

  lemma ReplayPrefix(log: seq<Entry>, i: nat)
    requires i < |log| && Legal(log[..i + 1])
    ensures Replay(log[..i + 1]) == Apply(Replay(log[..i]), log[i])
    ensures Legal(log[..i]) && Answers(Replay(log[..i]), log[i])
  {
    assert log[..i + 1] == log[..i] + [log[i]];
    LogOneMore(log[..i], log[i]);
  }

  lemma {:induction false} PrefixIsLegal(log: seq<Entry>, i: nat)
    requires Legal(log) && i <= |log|
    ensures Legal(log[..i])
    decreases |log|
  {
    if i < |log| {
      PrefixIsLegal(log[..|log| - 1], i);
      assert log[..|log| - 1][..i] == log[..i];
    } else {
      assert log[..i] == log;
    }
  }

  lemma {:induction false} ReplayIsKeyed(log: seq<Entry>)
    ensures Keyed(Replay(log))
    decreases |log|
  {
    if log != [] {
      ReplayIsKeyed(log[..|log| - 1]);
    }
  }

  /** The directory maps key to room. */
  predicate Holds(d: Directory, key: RoomKey, room: RoomId) {
    key in d.rooms && d.rooms[key] == room
  }

  lemma {:induction false} StaysUnlessPurged(log: seq<Entry>, i: nat, j: nat, key: RoomKey, room: RoomId)
    requires Legal(log) && i <= j <= |log| && Holds(Replay(log[..i]), key, room)
    ensures (forall k :: i <= k < j && log[k].Purged? ==> key !in log[k].keys) ==> Holds(Replay(log[..j]), key, room)
    decreases j
  {
    if i < j {
      PrefixIsLegal(log, j);
      StaysUnlessPurged(log, i, j - 1, key, room);
      ReplayPrefix(log, j - 1);
    }
  }

  lemma ApplyBringsNothingBack(d: Directory, e: Entry, key: RoomKey, room: RoomId)
    requires room < |d.made| && !Holds(d, key, room)
    ensures room < |Apply(d, e).made| && !Holds(Apply(d, e), key, room)
  {
  }

  /** A room once out of the directory never comes back: new rooms are new. */
  lemma {:induction false} GoneForGood(log: seq<Entry>, i: nat, j: nat, key: RoomKey, room: RoomId)
    requires Legal(log) && i <= j <= |log|
    requires room < |Replay(log[..i]).made| && !Holds(Replay(log[..i]), key, room)
    ensures room < |Replay(log[..j]).made| && !Holds(Replay(log[..j]), key, room)
    decreases j
  {
    if i < j {
      PrefixIsLegal(log, j);
      GoneForGood(log, i, j - 1, key, room);
      ReplayPrefix(log, j - 1);
      ApplyBringsNothingBack(Replay(log[..j - 1]), log[j - 1], key, room);
    }
  }

  lemma GotIsMapped(log: seq<Entry>, i: nat)
    requires Legal(log) && i < |log| && log[i].Got?
    ensures Holds(Replay(log[..i + 1]), log[i].key, log[i].room) && log[i].room < |Replay(log[..i + 1]).made|
  {
    PrefixIsLegal(log, i + 1);
    ReplayPrefix(log, i);
    ReplayIsKeyed(log[..i + 1]);
  }

  lemma PurgeRemoves(log: seq<Entry>, k: nat, key: RoomKey, room: RoomId)
    requires Legal(log) && k < |log| && log[k].Purged? && key in log[k].keys
    ensures !Holds(Replay(log[..k + 1]), key, room)
  {
    PrefixIsLegal(log, k + 1);
    ReplayPrefix(log, k);
  }

  lemma GotIsMade(log: seq<Entry>, i: nat, k: nat)
    requires Legal(log) && i < k < |log| && log[i].Got?
    ensures log[i].room < |Replay(log[..k + 1]).made|
  {
    GotIsMapped(log, i);
    MadeOnlyGrows(log, i + 1, k + 1);
  }

  /** The purge at k takes the room away, and it does not come back. */
  lemma PurgeEndsRoom(log: seq<Entry>, i: nat, k: nat, j: nat)
    requires Legal(log) && i < k < j <= |log| && log[i].Got? && log[k].Purged? && log[i].key in log[k].keys
    ensures !Holds(Replay(log[..j]), log[i].key, log[i].room)
  {
    GotIsMade(log, i, k);
    PurgeRemoves(log, k, log[i].key, log[i].room);
    GoneForGood(log, k + 1, j, log[i].key, log[i].room);
  }

  lemma KeptUnlessPurged(log: seq<Entry>, i: nat, j: nat)
    requires Legal(log) && i < j < |log| && log[i].Got? && !PurgedBetween(log, i, j, log[i].key)
    ensures Holds(Replay(log[..j]), log[i].key, log[i].room)
  {
    GotIsMapped(log, i);
    forall k | i + 1 <= k < j && log[k].Purged? ensures log[i].key !in log[k].keys {
      assert !PurgedBetween(log, i, j, log[i].key);
    }
    StaysUnlessPurged(log, i + 1, j, log[i].key, log[i].room);
  }

  /** A get answers the room its key holds, and afterwards its key holds that room. */
  lemma GetKeepsRoom(log: seq<Entry>, j: nat)
    requires Legal(log) && j < |log| && log[j].Got?
    ensures forall room :: Holds(Replay(log[..j]), log[j].key, room) ==> room == log[j].room
    ensures Holds(Replay(log[..j + 1]), log[j].key, log[j].room)
  {
    PrefixIsLegal(log, j + 1);
    ReplayPrefix(log, j);
  }

  /** Two calls for the same key get the same room exactly when no purge took that key in between. */
  lemma SameRoomIffNotPurged(log: seq<Entry>, i: nat, j: nat)
    requires Legal(log) && i < j < |log| && log[i].Got? && log[j].Got? && log[i].key == log[j].key
    ensures log[i].room == log[j].room <==> !PurgedBetween(log, i, j, log[i].key)
  {
    GetKeepsRoom(log, j);
    if PurgedBetween(log, i, j, log[i].key) {
      var k :| i < k < j && log[k].Purged? && log[i].key in log[k].keys;
      PurgeEndsRoom(log, i, k, j + 1);
    } else {
      KeptUnlessPurged(log, i, j);
    }
  }

  lemma {:induction false} MadeOnlyGrows(log: seq<Entry>, i: nat, j: nat)
    requires Legal(log) && i <= j <= |log|
    ensures |Replay(log[..i]).made| <= |Replay(log[..j]).made|
    decreases j
  {
    if i < j {
      PrefixIsLegal(log, j);
      MadeOnlyGrows(log, i, j - 1);
      ReplayPrefix(log, j - 1);
    }
  }

  /** All calls for a world room (instance 0) over a whole run return the same room. */
  lemma WorldRoomIsForever(events: seq<Event>, s: State, i: nat, j: nat)
    requires Runs(START, events, s) && i < j < |s.log|
    requires s.log[i].Got? && s.log[j].Got? && s.log[i].key == s.log[j].key && s.log[i].key.instanceId == 0
    ensures s.log[i].room == s.log[j].room
  {
    RunsStaySound(START, events, s);
    SameRoomIffNotPurged(s.log, i, j);
    if PurgedBetween(s.log, i, j, s.log[i].key) {
      var k :| i < k < j && s.log[k].Purged? && s.log[i].key in s.log[k].keys;
      PrefixIsLegal(s.log, k + 1);
      ReplayPrefix(s.log, k);
    }
  }

  // ---------------------------------------------------------------- what a purge takes

  function Actor(e: Event): ThreadId {
    e.t
  }

  /** Between its sections a thread's place does not change. */
  lemma {:induction false} OthersLeavePlace(s: State, events: seq<Event>, s': State, t: ThreadId)
    requires Runs(s, events, s') && forall e <- events :: Actor(e) != t
    ensures PcOf(s', t) == PcOf(s, t)
    decreases |events|
  {
    if events != [] {
      assert Actor(events[0]) != t;
      OthersLeavePlace(Step(s, events[0]), events[1..], s', t);
    }
  }

  /** The read-locked section goes on to the second phase exactly when some instance room may go. */
  lemma PickFinds(s: State, t: ThreadId, purgeable: Purgeable)
    requires PcOf(s, t).Outside?
    ensures Step(s, Pick(t, purgeable)).dir == s.dir && Step(s, Pick(t, purgeable)).log == s.log
    ensures PcOf(Step(s, Pick(t, purgeable)), t).Outside? <==>
            forall key <- s.dir.rooms :: key.instanceId == 0 || s.dir.rooms[key] !in purgeable
  {
    var keys := Selected(s.dir, purgeable);
    if key :| key in s.dir.rooms && key.instanceId != 0 && s.dir.rooms[key] in purgeable {
      assert key in keys;
    }
    if key :| key in keys {
      assert key in s.dir.rooms && key.instanceId != 0 && s.dir.rooms[key] in purgeable;
    }
  }

  /**
   What a purge takes, whatever happens between its two sections: exactly the instance rooms that might go when it
   looked and, under the same key, may go when it erases. Every other room stays where it is.
   */
  lemma PurgeTakes(s: State, t: ThreadId, first: Purgeable, events: seq<Event>, mid: State, second: Purgeable,
                   key: RoomKey)
    requires PcOf(s, t).Outside? && Runs(Step(s, Pick(t, first)), events, mid)
    requires (forall e <- events :: Actor(e) != t) && PcOf(mid, t).Picked? && key in mid.dir.rooms
    ensures
      var after := Step(mid, Erase(t, second));
      && PcOf(after, t).Outside? && after.dir.made == mid.dir.made
      && (key !in after.dir.rooms <==>
            && key in s.dir.rooms && key.instanceId != 0 && s.dir.rooms[key] in first
            && mid.dir.rooms[key] in second)
      && (key in after.dir.rooms ==> after.dir.rooms[key] == mid.dir.rooms[key])
  {
    OthersLeavePlace(Step(s, Pick(t, first)), events, mid, t);
    assert PcOf(mid, t).keys == Selected(s.dir, first);
  }
}

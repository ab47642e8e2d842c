/** What entering, leaving and moving bring about, said of the room before and after alone. */
module GameRoomEffects {
  import opened Headings
  import opened Options
  import opened GameRoomState
  import opened GameRoomRuns

  // ---------------------------------------------------------------- entering

  /** A player gets in exactly when the room is not closing and has nobody under that id, and the empty timer stops. */
  lemma EnterAdmitsIff(r: Room, h: PlayerRef, zone: int)
    requires h in r.objects
    ensures
      var id, r' := r.objects[h].id, Enter(r, h, zone);
      if !r.closing && id !in r.players then
        && r'.players == r.players[id := h] && r'.playerCount == r.playerCount + 1 && r'.emptySinceMs == 0
        && r'.objects == r.objects[h := r.objects[h].(zone := zone)]
        && zone in r'.zones && r'.zones[zone] == ZoneSet(r.zones, zone) + {h}
      else r' == r
  {
  }

  lemma ClosingStepGainsNobody(r: Room, e: Event, w: World)
    requires r.closing && Allowed(r, e, w)
    ensures Step(r, e, w).closing && Step(r, e, w).players.Keys <= r.players.Keys
  {
  }

  /** A closing room never gains a player and never opens again. */
  lemma {:induction false} ClosingRoomGainsNobody(r: Room, events: seq<Event>, r': Room, w: World)
    requires r.closing && Runs(r, events, r', w)
    ensures r'.closing && r'.players.Keys <= r.players.Keys
    decreases |events|
  {
    if events != [] {
      ClosingStepGainsNobody(r, events[0], w);
      ClosingRoomGainsNobody(Step(r, events[0], w), events[1..], r', w);
    }
  }

  // ---------------------------------------------------------------- leaving

  /** The leaver is out of the registry, everybody else stays, and the empty timer starts if nobody is left. */
  lemma LeaveEffects(r: Room, h: PlayerRef, w: World, nowMs: nat)
    requires Indexed(r, w) && Registered(r, h)
    ensures
      var r' := Leave(r, h, w.totalZones, nowMs);
      && r'.players == r.players - {r.objects[h].id} && r'.playerCount == |r'.players| && r'.closing == r.closing
      && r'.emptySinceMs == (if |r.players| == 1 then nowMs else r.emptySinceMs)
      && (|r.players| == 1 <==> r'.players == map[])
  {
    var id := r.objects[h].id;
    var rest := r.players - {id};
    assert rest.Keys == r.players.Keys - {id};
    assert |rest| == |r.players| - 1;
  }

  lemma LeaveOfNobody(r: Room, h: PlayerRef, w: World, nowMs: nat)
    requires h in r.objects && r.objects[h].id !in r.players
    ensures Leave(r, h, w.totalZones, nowMs) == r
  {
  }

  /** The despawn goes to exactly the registered players who saw the leaver. */
  lemma DespawnReachesViewers(r: Room, h: PlayerRef, id: PlayerId)
    requires SightOk(r) && Registered(r, h)
    ensures id in Notified(r, h) <==>
            id in r.players && r.players[id] in r.objects && r.objects[h].id in r.objects[r.players[id]].visiblePlayers
  {
    var me := r.objects[h].id;
    if id in r.objects[h].visiblePlayers {
      assert SeenBack(r, me, id);
    }
    if id in r.players && r.players[id] in r.objects && me in r.objects[r.players[id]].visiblePlayers {
      assert SeenBack(r, id, me);
    }
  }

  /** The moment an event is handled at, if it is one that can empty a room. */
  function LeaveTime(e: Event): nat {
    if e.LeaveById? then e.nowMs else 0
  }

  /**
   The time of the last leave that emptied the room, read off the players alone: 0 while somebody is in, and unless
   somebody has been.
   */
  ghost function EmptiedAt(r: Room, events: seq<Event>, w: World, since: nat): nat
    decreases |events|
  {
    if events == [] || !Allowed(r, events[0], w) then since
    else
      var next := Step(r, events[0], w);
      var at := if next.players != map[] then 0 else if r.players != map[] then LeaveTime(events[0]) else since;
      EmptiedAt(next, events[1..], w, at)
  }

  lemma StepTimesEmptiness(r: Room, e: Event, w: World)
    requires Indexed(r, w) && GridOk(w) && Allowed(r, e, w)
    ensures
      var next := Step(r, e, w);
      next.emptySinceMs ==
      if next.players != map[] then 0 else if r.players != map[] then LeaveTime(e) else r.emptySinceMs
  {
    StepKeepsIndex(r, e, w);
    if e.LeaveById? && e.id in r.players {
      LeaveEffects(r, r.players[e.id], w, e.nowMs);
    }
  }

  lemma {:induction false} TimerIsEmptiedAt(r: Room, events: seq<Event>, r': Room, w: World)
    requires Indexed(r, w) && GridOk(w) && Runs(r, events, r', w)
    ensures r'.emptySinceMs == EmptiedAt(r, events, w, r.emptySinceMs)
    decreases |events|
  {
    if events != [] {
      StepTimesEmptiness(r, events[0], w);
      StepKeepsIndex(r, events[0], w);
      TimerIsEmptiedAt(Step(r, events[0], w), events[1..], r', w);
    }
  }

  /** Over every run of a room, the empty timer is the time of the last leave that emptied it. */
  lemma TimerIsLastEmptying(events: seq<Event>, r: Room, w: World)
    requires GridOk(w) && Runs(NEW_ROOM, events, r, w)
    ensures r.emptySinceMs == EmptiedAt(NEW_ROOM, events, w, 0)
  {
    TimerIsEmptiedAt(NEW_ROOM, events, r, w);
  }

  // ---------------------------------------------------------------- moving

  predicate Reasonable(x: real) {
    -100000.0 <= x <= 100000.0
  }

  /** The packet is heeded: the player is in the room and alive, the request makes sense, and it is news. */
  predicate Heeded(r: Room, h: PlayerRef, pkt: MovePacket, w: World)
    requires h in r.objects
  {
    var p := r.objects[h];
    && p.id in r.players && p.hp >= 1 && p.pos.action != ActionDead && p.pos.finite
    && pkt.pos.finite && Reasonable(pkt.pos.x) && Reasonable(pkt.pos.y) && Reasonable(pkt.pos.z)
    && (p.stamp == NoStamp || w.isSeqNewer(pkt.seq_, p.stamp.seq_))
  }

  /** A packet that is not heeded changes nothing and is not answered. */
  lemma MoveIgnored(r: Room, h: PlayerRef, pkt: MovePacket, w: World, nowMs: nat)
    requires h in r.objects && !Heeded(r, h, pkt, w)
    ensures HandleMove(r, h, pkt, w, nowMs) == Moved(r, [])
  {
  }

  /** What the owner is told of a position: nothing if it agrees with the request, else the position. */
  ghost function Correction(requested: PositionInfo, pos: PositionInfo, height: real): seq<Sent> {
    if AgreeWithin(requested, pos, height) then [] else [ToOwner(pos)]
  }

  /**
   A heeded packet from outside the grid, or that ValidateMove refuses, is remembered, and that is all: the player
   stays, and its owner is told so unless the request was within 1 cm.
   */
  lemma MoveRefused(r: Room, h: PlayerRef, pkt: MovePacket, w: World, nowMs: nat)
    requires h in r.objects && Heeded(r, h, pkt, w)
    requires
      || w.zoneOf(pkt.pos) < 0
      || w.validateMove(r.objects[h].pos, w.checkSpeed(r.objects[h], pkt.pos, pkt.timeMs).pos) == None
    ensures
      var m, cur := HandleMove(r, h, pkt, w, nowMs), r.objects[h].pos;
      && m.room == r.(objects := r.objects[h := r.objects[h].(stamp := Stamp(pkt.seq_, pkt.timeMs, cur, nowMs))])
      && m.sent == Correction(pkt.pos, cur, 0.01)
  {
    NoCorrectionMeansAgreement(pkt.pos, r.objects[h].pos);
  }

  /** Where a heeded packet leads: ValidateMove's point, with the speed check's state, action and heading. */
  predicate Leads(r: Room, h: PlayerRef, pkt: MovePacket, w: World, to: PositionInfo)
    requires h in r.objects
  {
    var asked := w.checkSpeed(r.objects[h], pkt.pos, pkt.timeMs).pos;
    && w.zoneOf(pkt.pos) >= 0
    && match w.validateMove(r.objects[h].pos, asked)
       case None => false
       case Some(p) => to == p.(state := asked.state, action := asked.action, yaw := asked.yaw)
  }

  /** Nobody else is moved, hurt or stamped. */
  predicate OthersUntouched(r: Room, r': Room, h: PlayerRef) {
    && r'.players == r.players && r'.playerCount == r.playerCount && r'.emptySinceMs == r.emptySinceMs
    && r'.closing == r.closing && r'.objects.Keys == r.objects.Keys
    && forall k <- r.objects :: k != h ==>
         && SamePlace(r.objects[k], r'.objects[k])
         && r'.objects[k].hp == r.objects[k].hp && r'.objects[k].stamp == r.objects[k].stamp
  }

  /**
   A heeded packet that leads into the grid moves the player there, in the same zone or another: the position is
   stored, remembered with the packet and shown to the others first; the owner is told too unless it agrees, within
   1 cm of height if its speed was clamped and 20 cm if not.
   */
  lemma MoveCommits(r: Room, h: PlayerRef, pkt: MovePacket, w: World, nowMs: nat, to: PositionInfo)
    requires h in r.objects && Heeded(r, h, pkt, w) && Leads(r, h, pkt, w, to) && w.zoneOf(to) >= 0
    ensures
      var m := HandleMove(r, h, pkt, w, nowMs);
      var clamped := w.checkSpeed(r.objects[h], pkt.pos, pkt.timeMs).clamped;
      && h in m.room.objects && OthersUntouched(r, m.room, h)
      && m.room.objects[h].pos == to && m.room.objects[h].zone == w.zoneOf(to)
      && m.room.objects[h].stamp == Stamp(pkt.seq_, pkt.timeMs, to, nowMs)
      && m.room.objects[h].hp == r.objects[h].hp && m.room.objects[h].id == r.objects[h].id
      && m.sent == [ToVisibleOthers(m.room.objects[h].visiblePlayers - {r.objects[h].id}, to)] +
                   Correction(pkt.pos, to, if clamped then 0.01 else 0.20)
  {
    NoCorrectionMeansAgreement(pkt.pos, to);
  }

  /** One that leads outside the grid is dropped without a trace. */
  lemma MoveDropped(r: Room, h: PlayerRef, pkt: MovePacket, w: World, nowMs: nat, to: PositionInfo)
    requires h in r.objects && Heeded(r, h, pkt, w) && Leads(r, h, pkt, w, to) && w.zoneOf(to) < 0
    ensures HandleMove(r, h, pkt, w, nowMs) == Moved(r, [])
  {
  }

  /** The four cases are all there are. */
  lemma MoveCases(r: Room, h: PlayerRef, pkt: MovePacket, w: World)
    requires h in r.objects && Heeded(r, h, pkt, w) && w.zoneOf(pkt.pos) >= 0
    requires w.validateMove(r.objects[h].pos, w.checkSpeed(r.objects[h], pkt.pos, pkt.timeMs).pos) != None
    ensures exists to :: Leads(r, h, pkt, w, to)
  {
    var asked := w.checkSpeed(r.objects[h], pkt.pos, pkt.timeMs).pos;
    var p := w.validateMove(r.objects[h].pos, asked).value;
    assert Leads(r, h, pkt, w, p.(state := asked.state, action := asked.action, yaw := asked.yaw));
  }
}

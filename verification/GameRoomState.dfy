/**
 A game room: registered players, the grid zones they stand in, and who sees whom. One room is driven by one
 job queue, so its operations never interleave. Players are objects of their own, so a PlayerRef (the object)
 is not the same thing as a PlayerId.
 */
module GameRoomState {
  import opened Headings
  import opened Options

  type PlayerId = nat
  type PlayerRef = nat
  type ObjectId = nat

  datatype ActionState = ActionDead | OtherAction(code: int)

  /** finite is IsFinitePos: the four coordinates are numbers. */
  datatype PositionInfo = PositionInfo(finite: bool, x: real, y: real, z: real, yaw: real, state: int,
                                       action: ActionState)

  datatype Stamp = NoStamp | Stamp(seq_: nat, timeMs: nat, pos: PositionInfo, nowMs: nat)

  datatype Player = Player(id: PlayerId, pos: PositionInfo, zone: int, hp: int, stamp: Stamp,
                           visiblePlayers: set<PlayerId>, visibleMonsters: set<ObjectId>,
                           visibleProjectiles: set<ObjectId>)

  /** objects is every player object around; viewers are the `Viewers` sets of monsters and projectiles. */
  datatype Room = Room(objects: map<PlayerRef, Player>, players: map<PlayerId, PlayerRef>,
                       zones: map<int, set<PlayerRef>>,
                       playerCount: int, emptySinceMs: nat, closing: bool,
                       monsters: map<ObjectId, set<PlayerId>>, projectiles: map<ObjectId, set<PlayerId>>)

  function ZoneSet(zones: map<int, set<PlayerRef>>, zone: int): set<PlayerRef> {
    if zone in zones then zones[zone] else {}
  }

  predicate Registered(r: Room, h: PlayerRef) {
    h in r.objects && r.objects[h].id in r.players && r.players[r.objects[h].id] == h
  }

  // ---------------------------------------------------------------- entering

  predicate MayEnter(r: Room, h: PlayerRef)
    requires h in r.objects
  {
    !r.closing && r.objects[h].id !in r.players
  }

  /** EnterRegister, zone being the grid's zone for the player's position. */
  function Enter(r: Room, h: PlayerRef, zone: int): Room
    requires h in r.objects
  {
    if !MayEnter(r, h) then r
    else
      r.(players := r.players[r.objects[h].id := h],
         playerCount := r.playerCount + 1,
         emptySinceMs := 0,
         objects := r.objects[h := r.objects[h].(zone := zone)],
         zones := r.zones[zone := ZoneSet(r.zones, zone) + {h}])
  }

  // ---------------------------------------------------------------- leaving

  function KnownAmong(players: map<PlayerId, PlayerRef>, ids: set<PlayerId>): set<PlayerId> {
    set id | id in ids && id in players
  }

  /** The player objects behind those ids that are registered. */
  function RefsOf(players: map<PlayerId, PlayerRef>, ids: set<PlayerId>): set<PlayerRef> {
    set id | id in ids && id in players :: players[id]
  }

  function Unseen(objects: map<PlayerRef, Player>, refs: set<PlayerRef>, me: PlayerId): map<PlayerRef, Player> {
    map k | k in objects ::
      if k in refs then objects[k].(visiblePlayers := objects[k].visiblePlayers - {me}) else objects[k]
  }

  function Unviewed(viewers: map<ObjectId, set<PlayerId>>, ids: set<ObjectId>, me: PlayerId)
    : map<ObjectId, set<PlayerId>>
  {
    map k | k in viewers :: if k in ids then viewers[k] - {me} else viewers[k]
  }

  /** The AOI branch of Leave: take me out of what others see, then forget what I saw. */
  function Vanish(r: Room, h: PlayerRef): Room
    requires h in r.objects
  {
    var me := r.objects[h];
    var objects := Unseen(r.objects, RefsOf(r.players, me.visiblePlayers), me.id);
    r.(objects := objects[h := objects[h].(visiblePlayers := {}, visibleMonsters := {}, visibleProjectiles := {})],
       monsters := Unviewed(r.monsters, me.visibleMonsters, me.id),
       projectiles := Unviewed(r.projectiles, me.visibleProjectiles, me.id))
  }

  /** The ids a despawn is sent to. */
  function Notified(r: Room, h: PlayerRef): set<PlayerId>
    requires h in r.objects
  {
    KnownAmong(r.players, r.objects[h].visiblePlayers)
  }

  function Leave(r: Room, h: PlayerRef, totalZones: nat, nowMs: nat): Room
    requires h in r.objects
  {
    var id, zone := r.objects[h].id, r.objects[h].zone;
    if id !in r.players then r
    else
      var gone := Vanish(r, h);
      gone.(zones := if 0 <= zone < totalZones then gone.zones[zone := ZoneSet(gone.zones, zone) - {h}] else gone.zones,
            players := gone.players - {id},
            playerCount := gone.playerCount - 1,
            emptySinceMs := if gone.playerCount - 1 == 0 then nowMs else gone.emptySinceMs)
  }

  // ---------------------------------------------------------------- moving

  predicate IsCrazyPos(p: PositionInfo) {
    Abs(p.x) > 100000.0 || Abs(p.y) > 100000.0 || Abs(p.z) > 100000.0
  }

  predicate NeedsOwnerCorrection(requested: PositionInfo, authoritative: PositionInfo) {
    || Abs(requested.x - authoritative.x) > 0.01
    || Abs(requested.y - authoritative.y) > 0.01
    || Abs(requested.z - authoritative.z) > 0.01
    || YawDelta(requested.yaw, authoritative.yaw) > 1.0
    || requested.state != authoritative.state
    || requested.action != authoritative.action
  }

  /** As above, but tolerating 0.20 of vertical difference. */
  predicate NeedsNavAdjustOwnerCorrection(requested: PositionInfo, authoritative: PositionInfo) {
    || Abs(requested.x - authoritative.x) > 0.01
    || Abs(requested.z - authoritative.z) > 0.01
    || Abs(requested.y - authoritative.y) > 0.20
    || YawDelta(requested.yaw, authoritative.yaw) > 1.0
    || requested.state != authoritative.state
    || requested.action != authoritative.action
  }

  datatype MovePacket = MovePacket(pos: PositionInfo, seq_: nat, timeMs: nat)

  /** What CheckSpeed2D answers: whether it clamped, and the position to go on with. */
  datatype Speed = Speed(clamped: bool, pos: PositionInfo)

  datatype Visible = Visible(players: set<PlayerId>, monsters: set<ObjectId>, projectiles: set<ObjectId>)

  /** What UpdateAOI decides: new visible sets for some players, and the viewer sets. */
  datatype Sight = Sight(visible: map<PlayerRef, Visible>, monsters: map<ObjectId, set<PlayerId>>,
                         projectiles: map<ObjectId, set<PlayerId>>)

  function Watched(p: Player, v: Visible): Player {
    p.(visiblePlayers := v.players, visibleMonsters := v.monsters, visibleProjectiles := v.projectiles)
  }

  function Looked(r: Room, sight: Sight): Room {
    r.(objects := map k | k in r.objects ::
                    if k in sight.visible then Watched(r.objects[k], sight.visible[k]) else r.objects[k],
       monsters := sight.monsters, projectiles := sight.projectiles)
  }

  /**
   Code that is declared but not part of the room: the grid, IsSeqNewer, the speed check (which looks at the
   player, the request and its client time), GameMap::ValidateMove and UpdateAOI.
   */
  datatype World = World(totalZones: nat,
                         zoneOf: PositionInfo -> int,
                         isSeqNewer: (nat, nat) -> bool,
                         checkSpeed: (Player, PositionInfo, nat) -> Speed,
                         validateMove: (PositionInfo, PositionInfo) -> Option<PositionInfo>,
                         updateAOI: (Room, PlayerRef, bool) -> Sight)

  /** An S_MOVE sent by SendMoveSync. */
  datatype Sent = ToOwner(pos: PositionInfo) | ToVisibleOthers(ids: set<PlayerId>, pos: PositionInfo)

  datatype Moved = Moved(room: Room, sent: seq<Sent>)

  /** Every check up to and including the packet's sequence number. */
  predicate PassesChecks(r: Room, h: PlayerRef, pkt: MovePacket, w: World)
    requires h in r.objects
  {
    var p := r.objects[h];
    && p.id in r.players
    && p.hp > 0 && !p.pos.action.ActionDead?
    && pkt.pos.finite && !IsCrazyPos(pkt.pos) && p.pos.finite
    && (p.stamp.Stamp? ==> w.isSeqNewer(pkt.seq_, p.stamp.seq_))
  }

  function Stamped(r: Room, h: PlayerRef, pkt: MovePacket, pos: PositionInfo, nowMs: nat): Room
    requires h in r.objects
  {
    r.(objects := r.objects[h := r.objects[h].(stamp := Stamp(pkt.seq_, pkt.timeMs, pos, nowMs))])
  }

  /** The server keeps its position: correct the owner if it differs, and remember the packet. */
  function Rejected(r: Room, h: PlayerRef, pkt: MovePacket, nowMs: nat): Moved
    requires h in r.objects
  {
    var cur := r.objects[h].pos;
    Moved(Stamped(r, h, pkt, cur, nowMs), if NeedsOwnerCorrection(pkt.pos, cur) then [ToOwner(cur)] else [])
  }

  /** ValidateMove's position with the request's state, action and heading. */
  function Fixed(w: World, cur: PositionInfo, speed: Speed): Option<PositionInfo> {
    match w.validateMove(cur, speed.pos)
    case None => None
    case Some(p) => Some(p.(state := speed.pos.state, action := speed.pos.action, yaw := speed.pos.yaw))
  }

  function Rezoned(zones: map<int, set<PlayerRef>>, h: PlayerRef, before: int, after: int): map<int, set<PlayerRef>> {
    var left := zones[before := ZoneSet(zones, before) - {h}];
    left[after := ZoneSet(left, after) + {h}]
  }

  function Relocated(r: Room, h: PlayerRef, pos: PositionInfo, zone: int): Room
    requires h in r.objects
  {
    var before := r.objects[h].zone;
    r.(objects := r.objects[h := r.objects[h].(pos := pos, zone := zone)],
       zones := if before == zone then r.zones else Rezoned(r.zones, h, before, zone))
  }

  predicate NeedsAcceptedCorrection(clamped: bool, requested: PositionInfo, fixed: PositionInfo) {
    if clamped then NeedsOwnerCorrection(requested, fixed) else NeedsNavAdjustOwnerCorrection(requested, fixed)
  }

  /** Whom a player's movements are shown to. */
  function OthersInSight(p: Player): set<PlayerId> {
    p.visiblePlayers - {p.id}
  }

  function HandleMove(r: Room, h: PlayerRef, pkt: MovePacket, w: World, nowMs: nat): Moved
    requires h in r.objects
  {
    if !PassesChecks(r, h, pkt, w) then Moved(r, [])
    else if w.zoneOf(pkt.pos) < 0 then Rejected(r, h, pkt, nowMs)
    else
      var speed := w.checkSpeed(r.objects[h], pkt.pos, pkt.timeMs);
      var fixed := Fixed(w, r.objects[h].pos, speed);
      if fixed.None? then Rejected(r, h, pkt, nowMs)
      else Accepted(r, h, pkt, w, nowMs, speed.clamped, fixed.value)
  }

  function Accepted(r: Room, h: PlayerRef, pkt: MovePacket, w: World, nowMs: nat, clamped: bool, fixed: PositionInfo)
    : Moved
    requires h in r.objects
  {
    var zone := w.zoneOf(fixed);
    if zone < 0 then Moved(r, [])
    else
      var there := Relocated(r, h, fixed, zone);
      var seen := Looked(there, w.updateAOI(there, h, r.objects[h].zone != zone));
      Moved(Stamped(seen, h, pkt, fixed, nowMs),
            [ToVisibleOthers(OthersInSight(seen.objects[h]), fixed)] +
            if NeedsAcceptedCorrection(clamped, pkt.pos, fixed) then [ToOwner(fixed)] else [])
  }
}

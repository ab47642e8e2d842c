/** The room's index and visibility invariants, over any run of enter, move, leave and sight updates. */
module GameRoomRuns {
  import opened Headings
  import opened GameRoomState
  import opened Options

  /** The grid answers a zone it has, or a negative number for a position outside. */
  ghost predicate GridOk(w: World) {
    forall p :: w.zoneOf(p) < w.totalZones
  }

  predicate RegistryOk(r: Room) {
    && (forall id <- r.players :: r.players[id] in r.objects && r.objects[r.players[id]].id == id)
    && r.playerCount == |r.players|
    && (r.emptySinceMs != 0 ==> r.players == map[])
  }

  predicate InZone(r: Room, w: World, h: PlayerRef, z: int) {
    0 <= z < w.totalZones && Registered(r, h) && w.zoneOf(r.objects[h].pos) == z
  }

  predicate ZonesHoldOnly(r: Room, w: World) {
    forall z <- r.zones, h <- r.zones[z] :: InZone(r, w, h, z)
  }

  predicate IsZoned(r: Room, w: World, h: PlayerRef)
    requires h in r.objects
  {
    && r.objects[h].zone == w.zoneOf(r.objects[h].pos)
    && 0 <= r.objects[h].zone < w.totalZones
    && h in ZoneSet(r.zones, r.objects[h].zone)
  }

  predicate PlayersAreZoned(r: Room, w: World) {
    forall id <- r.players :: r.players[id] in r.objects && IsZoned(r, w, r.players[id])
  }

  /** A zone holds exactly the registered players whose position lies in it, and each knows its zone. */
  predicate Indexed(r: Room, w: World) {
    RegistryOk(r) && ZonesHoldOnly(r, w) && PlayersAreZoned(r, w)
  }

  /** The invariant read as a question about one player and one zone. */
  lemma ZoneMembership(r: Room, w: World, h: PlayerRef, z: int)
    requires Indexed(r, w)
    ensures h in ZoneSet(r.zones, z) <==> Registered(r, h) && w.zoneOf(r.objects[h].pos) == z
    ensures Registered(r, h) ==> r.objects[h].zone == w.zoneOf(r.objects[h].pos)
  {
    if Registered(r, h) {
      assert IsZoned(r, w, r.players[r.objects[h].id]);
    }
    if h in ZoneSet(r.zones, z) {
      assert InZone(r, w, h, z);
    }
  }

  lemma OneMoreKey(players: map<PlayerId, PlayerRef>, id: PlayerId, h: PlayerRef)
    requires id !in players
    ensures |players[id := h]| == |players| + 1
  {
  }

  lemma EnterKeepsRegistry(r: Room, h: PlayerRef, zone: int)
    requires RegistryOk(r) && h in r.objects && MayEnter(r, h)
    ensures RegistryOk(Enter(r, h, zone))
  {
    OneMoreKey(r.players, r.objects[h].id, h);
  }

  lemma EnterRegisters(r: Room, h: PlayerRef, zone: int)
    requires h in r.objects && MayEnter(r, h)
    ensures forall k :: Registered(r, k) ==> k != h
    ensures forall k :: Registered(Enter(r, h, zone), k) <==> Registered(r, k) || k == h
  {
  }

  lemma EnterKeepsZones(r: Room, h: PlayerRef, w: World)
    requires Indexed(r, w) && h in r.objects && MayEnter(r, h) && 0 <= w.zoneOf(r.objects[h].pos) < w.totalZones
    ensures ZonesHoldOnly(Enter(r, h, w.zoneOf(r.objects[h].pos)), w)
  {
    var r' := Enter(r, h, w.zoneOf(r.objects[h].pos));
    EnterRegisters(r, h, w.zoneOf(r.objects[h].pos));
    forall z, k | z in r'.zones && k in r'.zones[z] ensures InZone(r', w, k, z) {
      if k != h {
        assert k in ZoneSet(r.zones, z) && InZone(r, w, k, z);
      }
    }
  }

  lemma EnterKeepsZoned(r: Room, h: PlayerRef, w: World)
    requires Indexed(r, w) && h in r.objects && MayEnter(r, h) && 0 <= w.zoneOf(r.objects[h].pos) < w.totalZones
    ensures PlayersAreZoned(Enter(r, h, w.zoneOf(r.objects[h].pos)), w)
  {
    var r' := Enter(r, h, w.zoneOf(r.objects[h].pos));
    forall id | id in r'.players ensures r'.players[id] in r'.objects && IsZoned(r', w, r'.players[id]) {
      if id in r.players {
        assert IsZoned(r, w, r.players[id]) && r.players[id] != h;
      }
    }
  }

  lemma EnterKeepsIndex(r: Room, h: PlayerRef, w: World)
    requires Indexed(r, w) && h in r.objects && MayEnter(r, h) && 0 <= w.zoneOf(r.objects[h].pos) < w.totalZones
    ensures Indexed(Enter(r, h, w.zoneOf(r.objects[h].pos)), w)
  {
    EnterKeepsRegistry(r, h, w.zoneOf(r.objects[h].pos));
    EnterKeepsZones(r, h, w);
    EnterKeepsZoned(r, h, w);
  }

  /** Entering keeps the index exactly when the player stands inside the grid. */
  lemma EnterKeepsIndexIff(r: Room, h: PlayerRef, w: World)
    requires Indexed(r, w) && GridOk(w) && h in r.objects
    ensures Indexed(Enter(r, h, w.zoneOf(r.objects[h].pos)), w) <==> !MayEnter(r, h) || w.zoneOf(r.objects[h].pos) >= 0
  {
    var zone := w.zoneOf(r.objects[h].pos);
    if MayEnter(r, h) {
      if zone >= 0 {
        EnterKeepsIndex(r, h, w);
      } else {
        assert !IsZoned(Enter(r, h, zone), w, h);
        assert Enter(r, h, zone).players[r.objects[h].id] == h;
      }
    }
  }

  lemma VanishKeepsIndex(r: Room, h: PlayerRef, w: World)
    requires Indexed(r, w) && h in r.objects
    ensures Indexed(Vanish(r, h), w)
  {
    var r' := Vanish(r, h);
    forall k | k in r.objects
      ensures SamePlace(r.objects[k], r'.objects[k])
    {}
    forall z, k | z in r'.zones && k in r'.zones[z] ensures InZone(r', w, k, z) { assert InZone(r, w, k, z); }
    forall id | id in r'.players ensures r'.players[id] in r'.objects && IsZoned(r', w, r'.players[id]) {
      assert IsZoned(r, w, r.players[id]);
    }
  }

  /** Taking a registered player out of its zone and out of the registry. */
  lemma UnregisterKeepsIndex(r: Room, h: PlayerRef, w: World, emptySinceMs: nat)
    requires Indexed(r, w) && Registered(r, h) && (emptySinceMs != 0 ==> |r.players| == 1)
    ensures
      var p := r.objects[h];
      Indexed(r.(zones := r.zones[p.zone := ZoneSet(r.zones, p.zone) - {h}], players := r.players - {p.id},
                 playerCount := r.playerCount - 1, emptySinceMs := emptySinceMs), w)
  {
    var p := r.objects[h];
    var r' := r.(zones := r.zones[p.zone := ZoneSet(r.zones, p.zone) - {h}], players := r.players - {p.id},
                 playerCount := r.playerCount - 1, emptySinceMs := emptySinceMs);
    assert r'.players.Keys == r.players.Keys - {p.id};
    assert |r'.players| == |r.players| - 1;
    assert IsZoned(r, w, r.players[p.id]);
    forall z, k | z in r'.zones && k in r'.zones[z] ensures InZone(r', w, k, z) {
      assert k in ZoneSet(r.zones, z) && InZone(r, w, k, z);
      assert k != h;
    }
    forall id | id in r'.players ensures r'.players[id] in r'.objects && IsZoned(r', w, r'.players[id]) {
      assert IsZoned(r, w, r.players[id]) && r.players[id] != h;
    }
  }

  lemma RegisteredLeaveKeepsIndex(r: Room, h: PlayerRef, w: World, nowMs: nat)
    requires Indexed(r, w) && Registered(r, h)
    ensures Indexed(Leave(r, h, w.totalZones, nowMs), w)
  {
    var gone := Vanish(r, h);
    VanishKeepsIndex(r, h, w);
    assert IsZoned(gone, w, gone.players[r.objects[h].id]);
    UnregisterKeepsIndex(gone, h, w, if gone.playerCount - 1 == 0 then nowMs else gone.emptySinceMs);
  }

  /** Leaving keeps the index exactly when it is given the very object that is registered. */
  lemma LeaveKeepsIndexIff(r: Room, h: PlayerRef, w: World, nowMs: nat)
    requires Indexed(r, w) && h in r.objects && r.objects[h].id in r.players
    ensures Indexed(Leave(r, h, w.totalZones, nowMs), w) <==> Registered(r, h)
  {
    if Registered(r, h) {
      RegisteredLeaveKeepsIndex(r, h, w, nowMs);
    } else {
      VanishKeepsIndex(r, h, w);
      ForgottenButZoned(Vanish(r, h), Leave(r, h, w.totalZones, nowMs), h, w);
    }
  }

  /** Another object under the leaver's id stays in its zone although it is no longer registered. */
  lemma ForgottenButZoned(r: Room, r': Room, h: PlayerRef, w: World)
    requires Indexed(r, w) && h in r.objects && r.objects[h].id in r.players && !Registered(r, h)
    requires r'.players == r.players - {r.objects[h].id} && r'.objects == r.objects
    requires r'.zones == r.zones || r'.zones == r.zones[r.objects[h].zone := ZoneSet(r.zones, r.objects[h].zone) - {h}]
    ensures !Indexed(r', w)
  {
    var g := r.players[r.objects[h].id];
    assert IsZoned(r, w, g);
    assert g in ZoneSet(r'.zones, r.objects[g].zone);
    assert !InZone(r', w, g, r.objects[g].zone);
  }

  lemma RelocateKeepsIndex(r: Room, h: PlayerRef, w: World, pos: PositionInfo)
    requires Indexed(r, w) && Registered(r, h) && 0 <= w.zoneOf(pos) < w.totalZones
    ensures Indexed(Relocated(r, h, pos, w.zoneOf(pos)), w)
  {
    var zone, before := w.zoneOf(pos), r.objects[h].zone;
    var r' := Relocated(r, h, pos, zone);
    assert IsZoned(r, w, r.players[r.objects[h].id]);
    forall k | Registered(r, k) ensures Registered(r', k) {}
    forall z, k | z in r'.zones && k in r'.zones[z] ensures InZone(r', w, k, z) {
      assert k in ZoneSet(r.zones, z) ==> InZone(r, w, k, z);
    }
    forall id | id in r'.players ensures r'.players[id] in r'.objects && IsZoned(r', w, r'.players[id]) {
      assert IsZoned(r, w, r.players[id]);
    }
  }

  /** Same registry, same zones, and every player with the same id, position and zone. */
  predicate SamePlaces(r: Room, r': Room) {
    && r'.players == r.players && r'.zones == r.zones && r'.playerCount == r.playerCount
    && r'.emptySinceMs == r.emptySinceMs && r'.objects.Keys == r.objects.Keys
    && forall k <- r.objects :: SamePlace(r.objects[k], r'.objects[k])
  }

  predicate SamePlace(p: Player, p': Player) {
    p'.id == p.id && p'.pos == p.pos && p'.zone == p.zone
  }

  lemma SamePlacesKeepsIndex(r: Room, r': Room, w: World)
    requires Indexed(r, w) && SamePlaces(r, r')
    ensures Indexed(r', w)
  {
    forall z, k | z in r'.zones && k in r'.zones[z] ensures InZone(r', w, k, z) { assert InZone(r, w, k, z); }
    forall id | id in r'.players ensures r'.players[id] in r'.objects && IsZoned(r', w, r'.players[id]) {
      assert IsZoned(r, w, r.players[id]);
    }
  }

  lemma LookedKeepsIndex(r: Room, sight: Sight, w: World)
    requires Indexed(r, w)
    ensures Indexed(Looked(r, sight), w)
  {
    SamePlacesKeepsIndex(r, Looked(r, sight), w);
  }

  lemma StampedKeepsIndex(r: Room, h: PlayerRef, pkt: MovePacket, pos: PositionInfo, nowMs: nat, w: World)
    requires Indexed(r, w) && h in r.objects
    ensures Indexed(Stamped(r, h, pkt, pos, nowMs), w)
  {
    SamePlacesKeepsIndex(r, Stamped(r, h, pkt, pos, nowMs), w);
  }

  lemma AcceptedKeepsIndex(r: Room, h: PlayerRef, pkt: MovePacket, w: World, nowMs: nat, clamped: bool,
                           fixed: PositionInfo)
    requires Indexed(r, w) && GridOk(w) && Registered(r, h)
    ensures Indexed(Accepted(r, h, pkt, w, nowMs, clamped, fixed).room, w)
  {
    var zone := w.zoneOf(fixed);
    if zone >= 0 {
      RelocateKeepsIndex(r, h, w, fixed);
      var there := Relocated(r, h, fixed, zone);
      var sight := w.updateAOI(there, h, r.objects[h].zone != zone);
      LookedKeepsIndex(there, sight, w);
      StampedKeepsIndex(Looked(there, sight), h, pkt, fixed, nowMs, w);
    }
  }

  lemma MoveKeepsIndex(r: Room, h: PlayerRef, pkt: MovePacket, w: World, nowMs: nat)
    requires Indexed(r, w) && GridOk(w) && Registered(r, h)
    ensures Indexed(HandleMove(r, h, pkt, w, nowMs).room, w)
  {
    StampedKeepsIndex(r, h, pkt, r.objects[h].pos, nowMs, w);
    var speed := w.checkSpeed(r.objects[h], pkt.pos, pkt.timeMs);
    var fixed := Fixed(w, r.objects[h].pos, speed);
    if fixed.Some? {
      AcceptedKeepsIndex(r, h, pkt, w, nowMs, speed.clamped, fixed.value);
    }
  }

  /** The packet goes through and takes the object to another zone than the one it remembers. */
  predicate Rezones(r: Room, h: PlayerRef, pkt: MovePacket, w: World)
    requires h in r.objects
  {
    && PassesChecks(r, h, pkt, w) && w.zoneOf(pkt.pos) >= 0
    && var fixed := Fixed(w, r.objects[h].pos, w.checkSpeed(r.objects[h], pkt.pos, pkt.timeMs));
       fixed.Some? && 0 <= w.zoneOf(fixed.value) && w.zoneOf(fixed.value) != r.objects[h].zone
  }

  /** An object that only shares a registered id is let through, and is put into a zone it may not be in. */
  lemma UnregisteredMoveBreaksIndex(r: Room, h: PlayerRef, pkt: MovePacket, w: World, nowMs: nat)
    requires Indexed(r, w) && h in r.objects && !Registered(r, h) && Rezones(r, h, pkt, w)
    ensures !Indexed(HandleMove(r, h, pkt, w, nowMs).room, w)
  {
    var fixed := Fixed(w, r.objects[h].pos, w.checkSpeed(r.objects[h], pkt.pos, pkt.timeMs));
    var zone, r' := w.zoneOf(fixed.value), HandleMove(r, h, pkt, w, nowMs).room;
    assert zone in r'.zones && h in r'.zones[zone];
    assert r'.players == r.players && r'.objects[h].id == r.objects[h].id;
    assert !InZone(r', w, h, zone);
  }

  lemma UnregisteredStayKeepsIndex(r: Room, h: PlayerRef, pkt: MovePacket, w: World, nowMs: nat)
    requires Indexed(r, w) && h in r.objects && !Registered(r, h) && !Rezones(r, h, pkt, w)
    ensures Indexed(HandleMove(r, h, pkt, w, nowMs).room, w)
  {
    var r' := HandleMove(r, h, pkt, w, nowMs).room;
    assert r'.players == r.players && r'.zones == r.zones && r'.playerCount == r.playerCount;
    OthersStayKeepsIndex(r, h, r', w);
  }

  lemma OthersStayKeepsIndex(r: Room, h: PlayerRef, r': Room, w: World)
    requires Indexed(r, w) && !Registered(r, h)
    requires r'.players == r.players && r'.zones == r.zones && r'.playerCount == r.playerCount
    requires r'.emptySinceMs == r.emptySinceMs && r'.objects.Keys == r.objects.Keys
    requires forall k <- r.objects :: k != h ==> SamePlace(r.objects[k], r'.objects[k])
    ensures Indexed(r', w)
  {
    forall id | id in r'.players ensures r'.players[id] in r'.objects && IsZoned(r', w, r'.players[id]) {
      assert IsZoned(r, w, r.players[id]) && r.players[id] != h;
    }
    forall z, k | z in r'.zones && k in r'.zones[z] ensures InZone(r', w, k, z) {
      assert InZone(r, w, k, z);
    }
  }

  /** A move keeps the index exactly when the object is the registered one or does not change its zone. */
  lemma MoveKeepsIndexIff(r: Room, h: PlayerRef, pkt: MovePacket, w: World, nowMs: nat)
    requires Indexed(r, w) && GridOk(w) && h in r.objects
    ensures Indexed(HandleMove(r, h, pkt, w, nowMs).room, w) <==> Registered(r, h) || !Rezones(r, h, pkt, w)
  {
    if Registered(r, h) {
      MoveKeepsIndex(r, h, pkt, w, nowMs);
    } else if Rezones(r, h, pkt, w) {
      UnregisteredMoveBreaksIndex(r, h, pkt, w, nowMs);
    } else {
      UnregisteredStayKeepsIndex(r, h, pkt, w, nowMs);
    }
  }

  // ---------------------------------------------------------------- visibility

  predicate SeenBack(r: Room, id: PlayerId, other: PlayerId) {
    && other != id && other in r.players && r.players[other] in r.objects
    && id in r.objects[r.players[other]].visiblePlayers
  }

  predicate MutualSight(r: Room) {
    forall id <- r.players :: r.players[id] in r.objects &&
      forall other <- r.objects[r.players[id]].visiblePlayers :: SeenBack(r, id, other)
  }

  predicate SeesNothing(p: Player) {
    p.visiblePlayers == {} && p.visibleMonsters == {} && p.visibleProjectiles == {}
  }

  predicate StrangersSeeNothing(r: Room) {
    forall h <- r.objects :: !Registered(r, h) ==> SeesNothing(r.objects[h])
  }

  /** Whoever sees an object is among its viewers, and the other way round. */
  predicate Mirrors(viewers: map<ObjectId, set<PlayerId>>, sees: map<PlayerId, set<ObjectId>>) {
    && (forall id <- sees, m <- sees[id] :: m in viewers && id in viewers[m])
    && (forall m <- viewers, id <- viewers[m] :: id in sees && m in sees[id])
  }

  function MonstersSeen(r: Room): map<PlayerId, set<ObjectId>> {
    map id | id in r.players && r.players[id] in r.objects :: r.objects[r.players[id]].visibleMonsters
  }

  function ProjectilesSeen(r: Room): map<PlayerId, set<ObjectId>> {
    map id | id in r.players && r.players[id] in r.objects :: r.objects[r.players[id]].visibleProjectiles
  }

  /** Visibility is mutual and never of oneself; viewer sets mirror it; the unregistered see nothing. */
  predicate SightOk(r: Room) {
    && RegistryOk(r) && MutualSight(r) && StrangersSeeNothing(r)
    && Mirrors(r.monsters, MonstersSeen(r)) && Mirrors(r.projectiles, ProjectilesSeen(r))
  }

  function Without(viewers: map<ObjectId, set<PlayerId>>, me: PlayerId): map<ObjectId, set<PlayerId>> {
    map m | m in viewers :: viewers[m] - {me}
  }

  lemma UnviewedForgets(viewers: map<ObjectId, set<PlayerId>>, sees: map<PlayerId, set<ObjectId>>, me: PlayerId)
    requires Mirrors(viewers, sees) && me in sees
    ensures Unviewed(viewers, sees[me], me) == Without(viewers, me)
    ensures Mirrors(Without(viewers, me), sees - {me})
  {
    forall m | m in viewers ensures m !in sees[me] ==> viewers[m] - {me} == viewers[m] {}
  }

  predicate SameButUnseen(p: Player, p': Player, me: PlayerId) {
    p' == p.(visiblePlayers := p.visiblePlayers - {me})
  }

  lemma OthersForget(r: Room, h: PlayerRef, k: PlayerRef)
    requires SightOk(r) && Registered(r, h) && k in r.objects && k != h
    ensures SameButUnseen(r.objects[k], Vanish(r, h).objects[k], r.objects[h].id)
  {
    var me, p := r.objects[h].id, r.objects[h];
    if me in r.objects[k].visiblePlayers {
      assert Registered(r, k);
      assert SeenBack(r, r.objects[k].id, me);
      assert r.players[r.objects[k].id] in RefsOf(r.players, p.visiblePlayers);
    }
    assert me !in r.objects[k].visiblePlayers ==> r.objects[k].visiblePlayers - {me} == r.objects[k].visiblePlayers;
  }

  /** Whoever saw the leaver no longer does, nobody else's view changes, and the leaver sees nothing. */
  lemma LeaveForgets(r: Room, h: PlayerRef, totalZones: nat, nowMs: nat)
    requires SightOk(r) && Registered(r, h)
    ensures
      var me, r' := r.objects[h].id, Leave(r, h, totalZones, nowMs);
      && r'.objects.Keys == r.objects.Keys && SeesNothing(r'.objects[h])
      && (forall k <- r.objects :: k != h ==> SameButUnseen(r.objects[k], r'.objects[k], me))
      && r'.monsters == Without(r.monsters, me) && r'.projectiles == Without(r.projectiles, me)
  {
    var me := r.objects[h].id;
    UnviewedForgets(r.monsters, MonstersSeen(r), me);
    UnviewedForgets(r.projectiles, ProjectilesSeen(r), me);
    forall k | k in r.objects && k != h ensures SameButUnseen(r.objects[k], Vanish(r, h).objects[k], me) {
      OthersForget(r, h, k);
    }
  }

  /** r' is r without the registered player h, of whom no trace is left. */
  predicate Forgotten(r: Room, h: PlayerRef, r': Room) {
    && Registered(r, h) && r'.players == r.players - {r.objects[h].id}
    && r'.objects.Keys == r.objects.Keys && SeesNothing(r'.objects[h])
    && (forall k <- r.objects :: k != h ==> SameButUnseen(r.objects[k], r'.objects[k], r.objects[h].id))
  }

  lemma OthersStayRegistered(r: Room, h: PlayerRef, r': Room, id: PlayerId)
    requires RegistryOk(r) && Forgotten(r, h, r') && id in r'.players
    ensures r'.players[id] == r.players[id] != h && r'.players[id] in r.objects
    ensures SameButUnseen(r.objects[r.players[id]], r'.objects[r.players[id]], r.objects[h].id)
  {
    assert r.objects[r.players[id]].id == id;
  }

  lemma ForgettingKeepsMutualSight(r: Room, h: PlayerRef, r': Room)
    requires RegistryOk(r) && MutualSight(r) && Forgotten(r, h, r')
    ensures MutualSight(r')
  {
    forall id | id in r'.players
      ensures r'.players[id] in r'.objects
      ensures forall other <- r'.objects[r'.players[id]].visiblePlayers :: SeenBack(r', id, other)
    {
      OthersStayRegistered(r, h, r', id);
      forall other | other in r'.objects[r'.players[id]].visiblePlayers ensures SeenBack(r', id, other) {
        assert SeenBack(r, id, other);
        OthersStayRegistered(r, h, r', other);
      }
    }
  }

  lemma ForgettingKeepsOthersViews(r: Room, h: PlayerRef, r': Room)
    requires RegistryOk(r) && Forgotten(r, h, r')
    ensures MonstersSeen(r') == MonstersSeen(r) - {r.objects[h].id}
    ensures ProjectilesSeen(r') == ProjectilesSeen(r) - {r.objects[h].id}
  {
    forall id | id in r'.players ensures r'.players[id] == r.players[id] && r'.players[id] in r.objects
      ensures SameButUnseen(r.objects[r.players[id]], r'.objects[r.players[id]], r.objects[h].id)
    {
      OthersStayRegistered(r, h, r', id);
    }
  }

  lemma ForgettingKeepsStrangers(r: Room, h: PlayerRef, r': Room)
    requires StrangersSeeNothing(r) && Forgotten(r, h, r')
    ensures StrangersSeeNothing(r')
  {
    forall k | k in r'.objects && !Registered(r', k) ensures SeesNothing(r'.objects[k]) {
      if k != h {
        assert SameButUnseen(r.objects[k], r'.objects[k], r.objects[h].id);
        assert Registered(r, k) ==> Registered(r', k);
      }
    }
  }

  lemma LeaveKeepsSight(r: Room, h: PlayerRef, w: World, nowMs: nat)
    requires SightOk(r) && Indexed(r, w) && Registered(r, h)
    ensures SightOk(Leave(r, h, w.totalZones, nowMs))
  {
    var me, r' := r.objects[h].id, Leave(r, h, w.totalZones, nowMs);
    LeaveForgets(r, h, w.totalZones, nowMs);
    LeaveKeepsIndexIff(r, h, w, nowMs);
    UnviewedForgets(r.monsters, MonstersSeen(r), me);
    UnviewedForgets(r.projectiles, ProjectilesSeen(r), me);
    ForgettingKeepsMutualSight(r, h, r');
    ForgettingKeepsOthersViews(r, h, r');
    ForgettingKeepsStrangers(r, h, r');
  }

  lemma EnterKeepsMutualSight(r: Room, h: PlayerRef, zone: int)
    requires SightOk(r) && h in r.objects && MayEnter(r, h)
    ensures MutualSight(Enter(r, h, zone))
  {
    var r' := Enter(r, h, zone);
    assert SeesNothing(r.objects[h]);
    forall id, other | id in r.players && other in r.objects[r.players[id]].visiblePlayers
      ensures SeenBack(r', id, other)
    {
      assert SeenBack(r, id, other);
    }
  }

  lemma BlindEntrantKeepsMirror(viewers: map<ObjectId, set<PlayerId>>, sees: map<PlayerId, set<ObjectId>>, me: PlayerId)
    requires Mirrors(viewers, sees) && me !in sees
    ensures Mirrors(viewers, sees[me := {}])
  {
  }

  lemma OthersStayOnEnter(r: Room, h: PlayerRef, zone: int, id: PlayerId)
    requires RegistryOk(r) && h in r.objects && MayEnter(r, h) && id in r.players
    ensures var r' := Enter(r, h, zone);
            r'.players[id] == r.players[id] && r'.objects[r.players[id]] == r.objects[r.players[id]]
  {
    assert r.objects[r.players[id]].id == id;
  }

  lemma EntrantSeesNoMonster(r: Room, h: PlayerRef, zone: int)
    requires RegistryOk(r) && h in r.objects && MayEnter(r, h) && SeesNothing(r.objects[h])
    ensures MonstersSeen(Enter(r, h, zone)) == MonstersSeen(r)[r.objects[h].id := {}]
  {
    var seen, before := MonstersSeen(Enter(r, h, zone)), MonstersSeen(r);
    forall id | id in r.players ensures id in seen && id in before && seen[id] == before[id] {
      OthersStayOnEnter(r, h, zone, id);
    }
  }

  lemma EntrantSeesNoProjectile(r: Room, h: PlayerRef, zone: int)
    requires RegistryOk(r) && h in r.objects && MayEnter(r, h) && SeesNothing(r.objects[h])
    ensures ProjectilesSeen(Enter(r, h, zone)) == ProjectilesSeen(r)[r.objects[h].id := {}]
  {
    var seen, before := ProjectilesSeen(Enter(r, h, zone)), ProjectilesSeen(r);
    forall id | id in r.players ensures id in seen && id in before && seen[id] == before[id] {
      OthersStayOnEnter(r, h, zone, id);
    }
  }

  lemma EntrantIsNoStranger(r: Room, h: PlayerRef, zone: int)
    requires StrangersSeeNothing(r) && h in r.objects && MayEnter(r, h)
    ensures StrangersSeeNothing(Enter(r, h, zone))
  {
    var r' := Enter(r, h, zone);
    forall k | k in r'.objects && !Registered(r', k) ensures SeesNothing(r'.objects[k]) {
      assert k != h && !Registered(r, k);
    }
  }

  lemma EnterKeepsSight(r: Room, h: PlayerRef, zone: int)
    requires SightOk(r) && h in r.objects
    ensures SightOk(Enter(r, h, zone))
  {
    if MayEnter(r, h) {
      EnterKeepsMutualSight(r, h, zone);
      assert SeesNothing(r.objects[h]);
      EntrantSeesNoMonster(r, h, zone);
      EntrantSeesNoProjectile(r, h, zone);
      EntrantIsNoStranger(r, h, zone);
      BlindEntrantKeepsMirror(r.monsters, MonstersSeen(r), r.objects[h].id);
      BlindEntrantKeepsMirror(r.projectiles, ProjectilesSeen(r), r.objects[h].id);
      EnterKeepsRegistry(r, h, zone);
    }
  }

  // ---------------------------------------------------------------- runs

  /** What the room's job queue runs, one after another. */
  datatype Event =
    | Arrive(h: PlayerRef, p: Player)
    | EnterRoom(h: PlayerRef)
    | LeaveById(id: PlayerId, nowMs: nat)
    | MoveById(id: PlayerId, pkt: MovePacket, nowMs: nat)
    | UpdateAOI(sight: Sight)
    | Damage(h: PlayerRef, hp: int)
    | MarkClosing

  predicate Allowed(r: Room, e: Event, w: World) {
    match e
    case Arrive(h, _) => h !in r.objects
    case EnterRoom(h) => h in r.objects && w.zoneOf(r.objects[h].pos) >= 0
    case Damage(h, _) => h in r.objects
    case _ => true
  }

  /** FindPlayer_ActorOnly finds somebody; what it finds is always a player object. */
  predicate Finds(r: Room, id: PlayerId) {
    id in r.players && r.players[id] in r.objects
  }

  function Step(r: Room, e: Event, w: World): Room
    requires Allowed(r, e, w)
  {
    match e
    case Arrive(h, p) => r.(objects := r.objects[h := p])
    case EnterRoom(h) => Enter(r, h, w.zoneOf(r.objects[h].pos))
    case LeaveById(id, nowMs) => if Finds(r, id) then Leave(r, r.players[id], w.totalZones, nowMs) else r
    case MoveById(id, pkt, nowMs) => if Finds(r, id) then HandleMove(r, r.players[id], pkt, w, nowMs).room else r
    case UpdateAOI(sight) => Looked(r, sight)
    case Damage(h, hp) => r.(objects := r.objects[h := r.objects[h].(hp := hp)])
    case MarkClosing => r.(closing := true)
  }

  lemma ArriveKeepsIndex(r: Room, h: PlayerRef, p: Player, w: World)
    requires Indexed(r, w) && h !in r.objects
    ensures Indexed(r.(objects := r.objects[h := p]), w)
  {
    var r' := r.(objects := r.objects[h := p]);
    forall z, k | z in r'.zones && k in r'.zones[z] ensures InZone(r', w, k, z) { assert InZone(r, w, k, z); }
    forall id | id in r'.players ensures r'.players[id] in r'.objects && IsZoned(r', w, r'.players[id]) {
      assert IsZoned(r, w, r.players[id]);
    }
  }

  /** Whatever UpdateAOI decides and whatever a new player object claims to see. */
  lemma StepKeepsIndex(r: Room, e: Event, w: World)
    requires Indexed(r, w) && GridOk(w) && Allowed(r, e, w)
    ensures Indexed(Step(r, e, w), w)
  {
    match e
    case Arrive(h, p) => ArriveKeepsIndex(r, h, p, w);
    case EnterRoom(h) => EnterKeepsIndexIff(r, h, w);
    case LeaveById(id, nowMs) => if id in r.players { LeaveKeepsIndexIff(r, r.players[id], w, nowMs); }
    case MoveById(id, pkt, nowMs) => if id in r.players { MoveKeepsIndexIff(r, r.players[id], pkt, w, nowMs); }
    case UpdateAOI(sight) => LookedKeepsIndex(r, sight, w);
    case Damage(_, _) => SamePlacesKeepsIndex(r, Step(r, e, w), w);
    case MarkClosing => SamePlacesKeepsIndex(r, Step(r, e, w), w);
  }

  ghost predicate Runs(r: Room, events: seq<Event>, r': Room, w: World)
    decreases |events|
  {
    if events == [] then r' == r
    else Allowed(r, events[0], w) && Runs(Step(r, events[0], w), events[1..], r', w)
  }

  const NEW_ROOM := Room(map[], map[], map[], 0, 0, false, map[], map[])

  lemma {:induction false} RunsKeepIndex(r: Room, events: seq<Event>, r': Room, w: World)
    requires Indexed(r, w) && GridOk(w) && Runs(r, events, r', w)
    ensures Indexed(r', w)
    decreases |events|
  {
    if events != [] {
      StepKeepsIndex(r, events[0], w);
      RunsKeepIndex(Step(r, events[0], w), events[1..], r', w);
    }
  }

  /**
   In every reachable room: a zone holds a player exactly when it is registered and stands there, the zone a
   player remembers is that one, the player count is right, and the empty timer only runs in an empty room.
   */
  lemma ZonesMatchPositions(events: seq<Event>, r: Room, w: World, h: PlayerRef, z: int)
    requires GridOk(w) && Runs(NEW_ROOM, events, r, w)
    ensures h in ZoneSet(r.zones, z) <==> Registered(r, h) && w.zoneOf(r.objects[h].pos) == z
    ensures Registered(r, h) ==> r.objects[h].zone == w.zoneOf(r.objects[h].pos)
    ensures r.playerCount == |r.players| && (r.emptySinceMs != 0 ==> r.players == map[])
  {
    RunsKeepIndex(NEW_ROOM, events, r, w);
    ZoneMembership(r, w, h, z);
  }

  // ---------------------------------------------------------------- visibility over runs

  /** Wherever a move calls UpdateAOI, the sight it brings is mutual and mirrored. */
  ghost predicate AoiOk(w: World) {
    forall r: Room, h: PlayerRef, b: bool :: SightOk(r) ==> SightOk(Looked(r, w.updateAOI(r, h, b)))
  }

  /** A new player object sees nothing yet, and UpdateAOI is as fair when it is called outside a move. */
  predicate SeesFairly(r: Room, e: Event) {
    match e
    case Arrive(_, p) => SeesNothing(p)
    case UpdateAOI(sight) => SightOk(Looked(r, sight))
    case _ => true
  }

  lemma ArriveKeepsSight(r: Room, h: PlayerRef, p: Player)
    requires SightOk(r) && h !in r.objects && SeesNothing(p)
    ensures SightOk(r.(objects := r.objects[h := p]))
  {
    var r' := r.(objects := r.objects[h := p]);
    ViewsOnlyDependOnRegistered(r, r');
    forall k | k in r'.objects && !Registered(r', k) ensures SeesNothing(r'.objects[k]) {
      assert k != h ==> !Registered(r, k);
    }
  }

  lemma ViewsOnlyDependOnRegistered(r: Room, r': Room)
    requires RegistryOk(r) && MutualSight(r) && r'.players == r.players && r.objects.Keys <= r'.objects.Keys
    requires forall id <- r.players ::
               r'.objects[r.players[id]].visiblePlayers == r.objects[r.players[id]].visiblePlayers
    requires forall id <- r.players ::
               r'.objects[r.players[id]].visibleMonsters == r.objects[r.players[id]].visibleMonsters
    requires forall id <- r.players ::
               r'.objects[r.players[id]].visibleProjectiles == r.objects[r.players[id]].visibleProjectiles
    ensures MutualSight(r') && MonstersSeen(r') == MonstersSeen(r) && ProjectilesSeen(r') == ProjectilesSeen(r)
  {
    forall id, other | id in r'.players && other in r'.objects[r'.players[id]].visiblePlayers
      ensures SeenBack(r', id, other)
    {
      assert SeenBack(r, id, other);
    }
  }

  predicate SameViews(p: Player, p': Player) {
    && p'.id == p.id && p'.visiblePlayers == p.visiblePlayers
    && p'.visibleMonsters == p.visibleMonsters && p'.visibleProjectiles == p.visibleProjectiles
  }

  /** Moving and stamping a player does not touch who sees whom. */
  lemma SameViewsKeepSight(r: Room, r': Room)
    requires SightOk(r) && r'.players == r.players && r'.objects.Keys == r.objects.Keys && RegistryOk(r')
    requires r'.monsters == r.monsters && r'.projectiles == r.projectiles
    requires forall k <- r.objects :: SameViews(r.objects[k], r'.objects[k])
    ensures SightOk(r')
  {
    ViewsOnlyDependOnRegistered(r, r');
    forall k | k in r'.objects && !Registered(r', k) ensures SeesNothing(r'.objects[k]) { assert !Registered(r, k); }
  }

  lemma StampedKeepsSight(r: Room, h: PlayerRef, pkt: MovePacket, pos: PositionInfo, nowMs: nat)
    requires SightOk(r) && h in r.objects
    ensures SightOk(Stamped(r, h, pkt, pos, nowMs))
  {
    SameViewsKeepSight(r, Stamped(r, h, pkt, pos, nowMs));
  }

  lemma RelocatedKeepsSight(r: Room, h: PlayerRef, pos: PositionInfo, zone: int)
    requires SightOk(r) && h in r.objects
    ensures SightOk(Relocated(r, h, pos, zone))
  {
    var r' := Relocated(r, h, pos, zone);
    assert r'.players == r.players && r'.playerCount == r.playerCount && r'.emptySinceMs == r.emptySinceMs;
    forall k | k in r.objects ensures SameViews(r.objects[k], r'.objects[k]) {}
    assert RegistryOk(r');
    SameViewsKeepSight(r, r');
  }

  lemma AcceptedKeepsSight(r: Room, h: PlayerRef, pkt: MovePacket, w: World, nowMs: nat, clamped: bool,
                           fixed: PositionInfo)
    requires SightOk(r) && AoiOk(w) && h in r.objects
    ensures SightOk(Accepted(r, h, pkt, w, nowMs, clamped, fixed).room)
  {
    var zone := w.zoneOf(fixed);
    if zone >= 0 {
      var there := Relocated(r, h, fixed, zone);
      RelocatedKeepsSight(r, h, fixed, zone);
      var sight := w.updateAOI(there, h, r.objects[h].zone != zone);
      StampedKeepsSight(Looked(there, sight), h, pkt, fixed, nowMs);
    }
  }

  lemma MoveKeepsSight(r: Room, h: PlayerRef, pkt: MovePacket, w: World, nowMs: nat)
    requires SightOk(r) && AoiOk(w) && h in r.objects
    ensures SightOk(HandleMove(r, h, pkt, w, nowMs).room)
  {
    StampedKeepsSight(r, h, pkt, r.objects[h].pos, nowMs);
    var speed := w.checkSpeed(r.objects[h], pkt.pos, pkt.timeMs);
    var fixed := Fixed(w, r.objects[h].pos, speed);
    if fixed.Some? {
      AcceptedKeepsSight(r, h, pkt, w, nowMs, speed.clamped, fixed.value);
    }
  }

  lemma StepKeepsSight(r: Room, e: Event, w: World)
    requires SightOk(r) && Indexed(r, w) && AoiOk(w) && Allowed(r, e, w) && SeesFairly(r, e)
    ensures SightOk(Step(r, e, w))
  {
    match e
    case Arrive(h, p) => ArriveKeepsSight(r, h, p);
    case EnterRoom(h) => EnterKeepsSight(r, h, w.zoneOf(r.objects[h].pos));
    case LeaveById(id, nowMs) => if id in r.players { LeaveKeepsSight(r, r.players[id], w, nowMs); }
    case MoveById(id, pkt, nowMs) => if id in r.players { MoveKeepsSight(r, r.players[id], pkt, w, nowMs); }
    case UpdateAOI(_) =>
    case Damage(h, hp) => SameViewsKeepSight(r, r.(objects := r.objects[h := r.objects[h].(hp := hp)]));
    case MarkClosing => SameViewsKeepSight(r, r.(closing := true));
  }

  ghost predicate RunsFairly(r: Room, events: seq<Event>, w: World)
    decreases |events|
  {
    events != [] ==>
      Allowed(r, events[0], w) && SeesFairly(r, events[0]) && RunsFairly(Step(r, events[0], w), events[1..], w)
  }

  lemma {:induction false} RunsKeepSight(r: Room, events: seq<Event>, r': Room, w: World)
    requires Indexed(r, w) && SightOk(r) && GridOk(w) && AoiOk(w) && Runs(r, events, r', w) && RunsFairly(r, events, w)
    ensures Indexed(r', w) && SightOk(r')
    decreases |events|
  {
    if events != [] {
      StepKeepsIndex(r, events[0], w);
      StepKeepsSight(r, events[0], w);
      RunsKeepSight(Step(r, events[0], w), events[1..], r', w);
    }
  }

  /** The mutual-sight invariant read as a question about two players. */
  lemma SeeEachOther(r: Room, a: PlayerId, b: PlayerId)
    requires SightOk(r) && a in r.players && b in r.players
    ensures r.players[a] in r.objects && r.players[b] in r.objects
    ensures b in r.objects[r.players[a]].visiblePlayers <==> a in r.objects[r.players[b]].visiblePlayers
    ensures a !in r.objects[r.players[a]].visiblePlayers
  {
    var p, q := r.players[a], r.players[b];
    assert b in r.objects[p].visiblePlayers ==> SeenBack(r, a, b);
    assert a in r.objects[q].visiblePlayers ==> SeenBack(r, b, a);
    assert a in r.objects[p].visiblePlayers ==> SeenBack(r, a, a);
  }

  /** And the mirror as one about a viewer and what it views. */
  lemma ViewersSee(viewers: map<ObjectId, set<PlayerId>>, sees: map<PlayerId, set<ObjectId>>, a: PlayerId, m: ObjectId)
    requires Mirrors(viewers, sees) && a in sees
    ensures m in sees[a] <==> m in viewers && a in viewers[m]
  {
  }

  /**
   In every reachable room, given a fair UpdateAOI: sight between players is mutual and never of oneself, and a
   monster's or projectile's viewers are exactly the registered players who see it.
   */
  lemma SightIsMutual(events: seq<Event>, r: Room, w: World, a: PlayerId, b: PlayerId, m: ObjectId)
    requires GridOk(w) && AoiOk(w) && Runs(NEW_ROOM, events, r, w) && RunsFairly(NEW_ROOM, events, w)
    requires a in r.players && b in r.players
    ensures r.players[a] in r.objects && r.players[b] in r.objects
    ensures b in r.objects[r.players[a]].visiblePlayers <==> a in r.objects[r.players[b]].visiblePlayers
    ensures a !in r.objects[r.players[a]].visiblePlayers
    ensures m in r.objects[r.players[a]].visibleMonsters <==> m in r.monsters && a in r.monsters[m]
    ensures m in r.objects[r.players[a]].visibleProjectiles <==> m in r.projectiles && a in r.projectiles[m]
  {
    RunsKeepSight(NEW_ROOM, events, r, w);
    SeeEachOther(r, a, b);
    ViewersSee(r.monsters, MonstersSeen(r), a, m);
    ViewersSee(r.projectiles, ProjectilesSeen(r), a, m);
  }

  // ---------------------------------------------------------------- movement

  predicate Within(a: real, b: real, eps: real) {
    -eps <= a - b <= eps
  }

  /** 1 cm on the ground, some height, and one degree of heading after some number of whole turns. */
  ghost predicate AgreeWithin(p: PositionInfo, q: PositionInfo, height: real) {
    && Within(p.x, q.x, 0.01) && Within(p.z, q.z, 0.01) && Within(p.y, q.y, height)
    && (exists turns: int :: Apart(p.yaw, q.yaw, turns) <= 1.0)
    && p.state == q.state && p.action == q.action
  }

  /** The client agrees with the server: within 20 cm of height. */
  ghost predicate Agree(p: PositionInfo, q: PositionInfo) {
    AgreeWithin(p, q, 0.20)
  }

  /** Each of the two correction tests answers no exactly when the positions agree, within 1 cm or 20 cm of height. */
  lemma NoCorrectionMeansAgreement(p: PositionInfo, q: PositionInfo)
    ensures !NeedsNavAdjustOwnerCorrection(p, q) <==> Agree(p, q)
    ensures !NeedsOwnerCorrection(p, q) <==> AgreeWithin(p, q, 0.01)
    ensures !NeedsOwnerCorrection(p, q) ==> Agree(p, q)
  {
    var turns := DeltaIsReached(p.yaw, q.yaw);
    if k: int :| Apart(p.yaw, q.yaw, k) <= 1.0 {
      DeltaIsLeast(p.yaw, q.yaw, k);
    }
  }

  /** After the packet the client agrees with the server, or has just been told where it is. */
  ghost predicate OwnerConverges(requested: PositionInfo, r: Room, h: PlayerRef, sent: seq<Sent>)
    requires h in r.objects
  {
    Agree(requested, r.objects[h].pos) || (sent != [] && sent[|sent| - 1] == ToOwner(r.objects[h].pos))
  }

  /** The request lies in the grid and was validated, but the validated position lies outside it. */
  predicate FixedOutsideGrid(r: Room, h: PlayerRef, pkt: MovePacket, w: World)
    requires h in r.objects
  {
    && w.zoneOf(pkt.pos) >= 0
    && var fixed := Fixed(w, r.objects[h].pos, w.checkSpeed(r.objects[h], pkt.pos, pkt.timeMs));
       fixed.Some? && w.zoneOf(fixed.value) < 0
  }

  /**
   Every packet that passes the sequence check leaves the owner in agreement or corrected, except when
   ValidateMove answers a position outside the grid: then nothing is sent, and they agree only if they did.
   */
  lemma OwnerConvergesIff(r: Room, h: PlayerRef, pkt: MovePacket, w: World, nowMs: nat)
    requires h in r.objects && PassesChecks(r, h, pkt, w)
    ensures var m := HandleMove(r, h, pkt, w, nowMs);
            h in m.room.objects &&
            (OwnerConverges(pkt.pos, m.room, h, m.sent) <==>
               !FixedOutsideGrid(r, h, pkt, w) || Agree(pkt.pos, r.objects[h].pos))
  {
    var m := HandleMove(r, h, pkt, w, nowMs);
    NoCorrectionMeansAgreement(pkt.pos, m.room.objects[h].pos);
  }

  const ORIGIN := PositionInfo(true, 0.0, 0.0, 0.0, 0.0, 0, OtherAction(0))

  /** A grid of one zone that ends at x = 4, in which every move is validated to x = 5. */
  function EdgeWorld(): World {
    World(1,
          (p: PositionInfo) => if p.x > 4.0 then -1 else 0,
          (a: nat, b: nat) => a > b,
          (p: Player, pos: PositionInfo, timeMs: nat) => Speed(false, pos),
          (cur: PositionInfo, pos: PositionInfo) => Some(pos.(x := 5.0)),
          (r: Room, h: PlayerRef, zoneChanged: bool) => Sight(map[], r.monsters, r.projectiles))
  }

  /** Player 1 at the origin asks to go to x = 1: nothing is sent, nothing is remembered, and they disagree. */
  lemma OwnerLeftBehind()
    ensures
      var r := Room(map[7 := Player(1, ORIGIN, 0, 100, NoStamp, {}, {}, {})], map[1 := 7], map[0 := {7}], 1, 0, false,
                    map[], map[]);
      var pkt := MovePacket(ORIGIN.(x := 1.0), 1, 0);
      && Indexed(r, EdgeWorld()) && PassesChecks(r, 7, pkt, EdgeWorld())
      && HandleMove(r, 7, pkt, EdgeWorld(), 0) == Moved(r, []) && !Agree(pkt.pos, r.objects[7].pos)
  {
  }

  /** Handling the same packet again changes nothing, whenever it comes. */
  lemma MoveIsIdempotent(r: Room, h: PlayerRef, pkt: MovePacket, w: World, nowMs: nat, laterMs: nat)
    requires h in r.objects && !w.isSeqNewer(pkt.seq_, pkt.seq_)
    ensures var once := HandleMove(r, h, pkt, w, nowMs).room;
            h in once.objects && HandleMove(once, h, pkt, w, laterMs).room == once
  {
    var once := HandleMove(r, h, pkt, w, nowMs).room;
    if once != r {
      assert once.objects[h].stamp.Stamp? && once.objects[h].stamp.seq_ == pkt.seq_;
      assert !PassesChecks(once, h, pkt, w);
    }
  }
}

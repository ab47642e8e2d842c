/** The room in place: EnterRegister, Leave and HandleMove as its job queue runs them. */
module GameRoom {
  import opened GameRoomState
  import opened GameRoomRuns

  lemma UnseenOneMore(objects: map<PlayerRef, Player>, players: map<PlayerId, PlayerRef>, ids: set<PlayerId>,
                      id: PlayerId, me: PlayerId)
    requires id in players ==> players[id] in objects
    ensures
      var before := Unseen(objects, RefsOf(players, ids), me);
      Unseen(objects, RefsOf(players, ids + {id}), me) ==
      if id in players
      then before[players[id] := before[players[id]].(visiblePlayers := before[players[id]].visiblePlayers - {me})]
      else before
  {
    forall k | k in objects
      ensures (objects[k].visiblePlayers - {me}) - {me} == objects[k].visiblePlayers - {me}
    {}
    if id in players {
      assert RefsOf(players, ids + {id}) == RefsOf(players, ids) + {players[id]};
    } else {
      assert RefsOf(players, ids + {id}) == RefsOf(players, ids);
    }
  }

  lemma KnownOneMore(players: map<PlayerId, PlayerRef>, ids: set<PlayerId>, id: PlayerId)
    requires id !in ids
    ensures multiset(KnownAmong(players, ids + {id})) ==
            multiset(KnownAmong(players, ids)) + if id in players then multiset{id} else multiset{}
  {
    assert KnownAmong(players, ids + {id}) == KnownAmong(players, ids) + if id in players then {id} else {};
  }

  lemma UnviewedOneMore(viewers: map<ObjectId, set<PlayerId>>, ids: set<ObjectId>, m: ObjectId, me: PlayerId)
    ensures
      var before := Unviewed(viewers, ids, me);
      Unviewed(viewers, ids + {m}, me) == if m in viewers then before[m := before[m] - {me}] else before
  {
    forall k | k in viewers ensures (viewers[k] - {me}) - {me} == viewers[k] - {me} {}
  }

  class GameRoom {
    var objects: map<PlayerRef, Player>
    var players: map<PlayerId, PlayerRef>
    var zones: map<int, set<PlayerRef>>
    var playerCount: int
    var emptySinceMs: nat
    var closing: bool
    var monsters: map<ObjectId, set<PlayerId>>
    var projectiles: map<ObjectId, set<PlayerId>>

    function View(): Room
      reads this
    {
      Room(objects, players, zones, playerCount, emptySinceMs, closing, monsters, projectiles)
    }

    constructor ()
      ensures View() == NEW_ROOM
    {
      objects, players, zones, playerCount := map[], map[], map[], 0;
      emptySinceMs, closing, monsters, projectiles := 0, false, map[], map[];
    }

    method EnterRegister(player: PlayerRef, w: World) returns (ok: bool)
      requires player in objects
      modifies this
      ensures ok <==> MayEnter(old(View()), player)
      ensures View() == Enter(old(View()), player, w.zoneOf(old(objects)[player].pos))
    {
      var id := objects[player].id;
      if closing || id in players {
        return false;
      }
      players := players[id := player];
      playerCount := playerCount + 1;
      emptySinceMs := 0;
      var zoneIndex := w.zoneOf(objects[player].pos);
      objects := objects[player := objects[player].(zone := zoneIndex)];
      zones := zones[zoneIndex := (if zoneIndex in zones then zones[zoneIndex] else {}) + {player}];
      ok := true;
    }

    /** Despawn me for everyone I see who is registered, each exactly once. */
    method DespawnForOthers(me: PlayerId, visible: set<PlayerId>) returns (notified: seq<PlayerId>)
      requires RegistryOk(View())
      modifies `objects
      ensures objects == Unseen(old(objects), RefsOf(players, visible), me)
      ensures multiset(notified) == multiset(KnownAmong(players, visible))
    {
      var todo := visible;
      notified := [];
      assert objects == Unseen(objects, RefsOf(players, visible - todo), me);
      while todo != {}
        invariant todo <= visible
        invariant objects == Unseen(old(objects), RefsOf(players, visible - todo), me)
        invariant multiset(notified) == multiset(KnownAmong(players, visible - todo))
        decreases todo
      {
        var vid :| vid in todo;
        UnseenOneMore(old(objects), players, visible - todo, vid, me);
        KnownOneMore(players, visible - todo, vid);
        assert visible - (todo - {vid}) == (visible - todo) + {vid};
        todo := todo - {vid};
        if vid in players {
          var other := players[vid];
          objects := objects[other := objects[other].(visiblePlayers := objects[other].visiblePlayers - {me})];
          notified := notified + [vid];
        }
      }
      assert visible - todo == visible;
    }

    method RemoveViewer(viewers: map<ObjectId, set<PlayerId>>, me: PlayerId, ids: set<ObjectId>)
      returns (after: map<ObjectId, set<PlayerId>>)
      ensures after == Unviewed(viewers, ids, me)
    {
      var todo := ids;
      after := viewers;
      while todo != {}
        invariant todo <= ids
        invariant after == Unviewed(viewers, ids - todo, me)
        decreases todo
      {
        var m :| m in todo;
        UnviewedOneMore(viewers, ids - todo, m, me);
        assert ids - (todo - {m}) == (ids - todo) + {m};
        todo := todo - {m};
        if m in after {
          after := after[m := after[m] - {me}];
        }
      }
      assert ids - todo == ids;
    }

    /** The AOI branch: despawn for those who saw the leaver, and every reference to it goes. */
    method ClearSight(player: PlayerRef) returns (notified: seq<PlayerId>)
      requires RegistryOk(View()) && player in objects
      modifies `objects, `monsters, `projectiles
      ensures View() == Vanish(old(View()), player)
      ensures multiset(notified) == multiset(Notified(old(View()), player))
    {
      var p := objects[player];
      notified := DespawnForOthers(p.id, p.visiblePlayers);
      monsters := RemoveViewer(monsters, p.id, p.visibleMonsters);
      projectiles := RemoveViewer(projectiles, p.id, p.visibleProjectiles);
      objects := objects[player :=
        objects[player].(visiblePlayers := {}, visibleMonsters := {}, visibleProjectiles := {})];
    }

    /** Notifies each visible registered player once, and forgets the leaver everywhere. */
    method Leave(player: PlayerRef, w: World, nowMs: nat) returns (notified: seq<PlayerId>)
      requires RegistryOk(View()) && player in objects
      modifies this
      ensures View() == GameRoomState.Leave(old(View()), player, w.totalZones, nowMs)
      ensures multiset(notified) ==
              if old(objects)[player].id in old(players) then multiset(Notified(old(View()), player)) else multiset{}
    {
      notified := [];
      var p := objects[player];
      var meId := p.id;
      if meId !in players {
        return;
      }
      notified := ClearSight(player);
      assert objects[player].zone == p.zone;
      var zoneIndex := objects[player].zone;
      if 0 <= zoneIndex < w.totalZones {
        zones := zones[zoneIndex := (if zoneIndex in zones then zones[zoneIndex] else {}) - {player}];
      }
      players := players - {meId};
      playerCount := playerCount - 1;
      if playerCount == 0 {
        emptySinceMs := nowMs;
      }
    }

    method SetMoveStamp(player: PlayerRef, pkt: MovePacket, pos: PositionInfo, nowMs: nat)
      requires player in objects
      modifies `objects
      ensures View() == Stamped(old(View()), player, pkt, pos, nowMs)
    {
      objects := objects[player := objects[player].(stamp := Stamp(pkt.seq_, pkt.timeMs, pos, nowMs))];
    }

    method Reject(player: PlayerRef, pkt: MovePacket, nowMs: nat) returns (sent: seq<Sent>)
      requires player in objects
      modifies `objects
      ensures Moved(View(), sent) == Rejected(old(View()), player, pkt, nowMs)
    {
      var cur := objects[player].pos;
      sent := if NeedsOwnerCorrection(pkt.pos, cur) then [ToOwner(cur)] else [];
      SetMoveStamp(player, pkt, cur, nowMs);
    }

    /** SetPosInfo, and the change of zone when there is one. */
    method Relocate(player: PlayerRef, fixed: PositionInfo, newZoneIndex: int)
      requires player in objects
      modifies `objects, `zones
      ensures View() == Relocated(old(View()), player, fixed, newZoneIndex)
    {
      var oldZoneIndex := objects[player].zone;
      objects := objects[player := objects[player].(pos := fixed)];
      if oldZoneIndex != newZoneIndex {
        zones := zones[oldZoneIndex := (if oldZoneIndex in zones then zones[oldZoneIndex] else {}) - {player}];
        zones := zones[newZoneIndex := (if newZoneIndex in zones then zones[newZoneIndex] else {}) + {player}];
        objects := objects[player := objects[player].(zone := newZoneIndex)];
      }
      assert objects == old(objects)[player := old(objects)[player].(pos := fixed, zone := newZoneIndex)];
    }

    method HandleMove(player: PlayerRef, pkt: MovePacket, w: World, nowMs: nat) returns (sent: seq<Sent>)
      requires player in objects
      modifies this
      ensures Moved(View(), sent) == GameRoomState.HandleMove(old(View()), player, pkt, w, nowMs)
    {
      sent := [];
      var p := objects[player];
      if p.id !in players || p.hp <= 0 || p.pos.action.ActionDead? {
        return;
      }
      if !pkt.pos.finite || IsCrazyPos(pkt.pos) || !p.pos.finite {
        return;
      }
      if p.stamp.Stamp? {
        if !w.isSeqNewer(pkt.seq_, p.stamp.seq_) {
          return;
        }
      }
      if w.zoneOf(pkt.pos) < 0 {
        sent := Reject(player, pkt, nowMs);
        return;
      }
      var speed := w.checkSpeed(p, pkt.pos, pkt.timeMs);
      var validated := w.validateMove(p.pos, speed.pos);
      if validated.None? {
        sent := Reject(player, pkt, nowMs);
        return;
      }
      var fixed := validated.value.(state := speed.pos.state, action := speed.pos.action, yaw := speed.pos.yaw);
      sent := Accept(player, pkt, w, nowMs, speed.clamped, fixed);
    }

    method Accept(player: PlayerRef, pkt: MovePacket, w: World, nowMs: nat, clamped: bool, fixed: PositionInfo)
      returns (sent: seq<Sent>)
      requires player in objects
      modifies this
      ensures Moved(View(), sent) == Accepted(old(View()), player, pkt, w, nowMs, clamped, fixed)
    {
      sent := [];
      var newZoneIndex := w.zoneOf(fixed);
      if newZoneIndex < 0 {
        return;
      }
      var zoneChanged := objects[player].zone != newZoneIndex;
      Relocate(player, fixed, newZoneIndex);
      Look(w.updateAOI(View(), player, zoneChanged));
      var others := Recipients(player);
      sent := [ToVisibleOthers(others, fixed)];
      if NeedsAcceptedCorrection(clamped, pkt.pos, fixed) {
        sent := sent + [ToOwner(fixed)];
      }
      SetMoveStamp(player, pkt, fixed, nowMs);
    }

    /** SendMoveSync's loop over the visible players, who are sent one packet each. */
    method Recipients(player: PlayerRef) returns (ids: set<PlayerId>)
      requires player in objects
      ensures ids == OthersInSight(objects[player])
    {
      var playerId := objects[player].id;
      var todo := objects[player].visiblePlayers;
      ids := {};
      while todo != {}
        invariant todo <= objects[player].visiblePlayers
        invariant ids == objects[player].visiblePlayers - todo - {playerId}
        decreases todo
      {
        var vid :| vid in todo;
        todo := todo - {vid};
        if vid == playerId {
          continue;
        }
        ids := ids + {vid};
      }
    }

    /** UpdateAOI's result. */
    method Look(sight: Sight)
      modifies `objects, `monsters, `projectiles
      ensures View() == Looked(old(View()), sight)
    {
      objects := map k | k in objects ::
        if k in sight.visible then Watched(objects[k], sight.visible[k]) else objects[k];
      monsters, projectiles := sight.monsters, sight.projectiles;
    }
  }
}

/** RoomManager in place: one method per locked section. */
module RoomManager {
  import opened Options
  import opened RoomDirectory

  function Keys(keys: seq<RoomKey>): set<RoomKey> {
    set key | key in keys
  }

  class RoomManager {
    var rooms: map<RoomKey, RoomId>
    // Every room constructed so far, by the key Init and SetInstanceId gave it.
    var made: seq<RoomKey>

    function View(): Directory
      reads this
    {
      Directory(rooms, made)
    }

    predicate Valid()
      reads this
    {
      Keyed(View())
    }

    constructor ()
      ensures Valid() && View() == START.dir
    {
      rooms, made := map[], [];
    }

    /** The read-locked search, all of FindRoom and the first attempt of GetOrCreateRoom. */
    method FindRoom(maps: Maps, channelId: int, mapId: int, instanceId: int) returns (room: Option<RoomId>)
      requires Valid()
      ensures var key := KeyFor(maps, channelId, mapId, instanceId);
              room == if key in rooms then Some(rooms[key]) else None
      ensures room.Some? ==> room.value < |made| && made[room.value].channelId == channelId &&
                             made[room.value].instanceId == instanceId
      ensures room.Some? && maps.isValid(mapId) ==> made[room.value].mapId == mapId
    {
      var wanted := mapId;
      if !maps.isValid(wanted) {
        wanted := maps.defaultMapId;
      }
      var key := RoomKey(channelId, wanted, instanceId);
      if key in rooms {
        return Some(rooms[key]);
      }
      room := None;
    }

    /** The write-locked second attempt: look again, and only then make the room. */
    method CreateRoom(key: RoomKey) returns (room: RoomId)
      requires Valid()
      modifies this
      ensures Valid() && View() == GetOrInsert(old(View()), key) && rooms[key] == room
    {
      if key in rooms {
        return rooms[key];
      }
      room := |made|;
      made := made + [key];
      rooms := rooms[key := room];
    }

    method GetOrCreateRoom(maps: Maps, channelId: int, mapId: int, instanceId: int) returns (room: RoomId)
      requires Valid()
      modifies this
      ensures Valid() && View() == GetOrInsert(old(View()), KeyFor(maps, channelId, mapId, instanceId))
      ensures rooms[KeyFor(maps, channelId, mapId, instanceId)] == room
      ensures room < |made| && made[room].channelId == channelId && made[room].instanceId == instanceId
      ensures made[room].mapId == if maps.isValid(mapId) then mapId else maps.defaultMapId
    {
      var found := FindRoom(maps, channelId, mapId, instanceId);
      if found.Some? {
        return found.value;
      }
      room := CreateRoom(KeyFor(maps, channelId, mapId, instanceId));
    }

    /** First phase of PurgeInstanceRooms: world rooms are never picked. */
    method PickPurgeable(purgeable: Purgeable) returns (eraseKeys: seq<RoomKey>)
      ensures Keys(eraseKeys) == Selected(View(), purgeable)
      ensures forall key :: key in eraseKeys <==> key in rooms && key.instanceId != 0 && rooms[key] in purgeable
      ensures forall i, j :: 0 <= i < j < |eraseKeys| ==> eraseKeys[i] != eraseKeys[j]
    {
      eraseKeys := [];
      var todo := rooms.Keys;
      while todo != {}
        invariant todo <= rooms.Keys
        invariant forall key :: key in eraseKeys <==> key in Selected(View(), purgeable) && key !in todo
        invariant forall i, j :: 0 <= i < j < |eraseKeys| ==> eraseKeys[i] != eraseKeys[j]
        decreases todo
      {
        var key :| key in todo;
        todo := todo - {key};
        if key.instanceId == 0 {
          continue;
        }
        if rooms[key] in purgeable {
          eraseKeys := eraseKeys + [key];
        }
      }
    }

    /** Second phase: erase what is still there and may still go. */
    method ErasePurgeable(eraseKeys: seq<RoomKey>, purgeable: Purgeable)
      requires Valid()
      modifies `rooms
      ensures Valid()
      ensures rooms == old(rooms) - Erased(old(View()), Keys(eraseKeys), purgeable)
      ensures forall key :: key in rooms <==> key in old(rooms) && !(key in eraseKeys && old(rooms)[key] in purgeable)
    {
      for i := 0 to |eraseKeys|
        invariant rooms == old(rooms) - Erased(old(View()), Keys(eraseKeys[..i]), purgeable)
      {
        var key := eraseKeys[i];
        ghost var done := Erased(old(View()), Keys(eraseKeys[..i]), purgeable);
        assert eraseKeys[..i + 1] == eraseKeys[..i] + [key];
        assert Erased(old(View()), Keys(eraseKeys[..i + 1]), purgeable) ==
               if key in old(rooms) && old(rooms)[key] in purgeable then done + {key} else done;
        if key in rooms && rooms[key] in purgeable {
          rooms := rooms - {key};
        }
      }
      assert eraseKeys[..|eraseKeys|] == eraseKeys;
    }
  }
}

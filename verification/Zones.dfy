/** Zones: bounded tables of sessions by id. */
module Zones {
  import opened Sessions

  class Zone {
    const maxSessions: nat
    var sessions: map<int, Session>

    constructor (maxSessions: nat)
      ensures this.maxSessions == maxSessions && sessions == map[]
    {
      this.maxSessions := maxSessions;
      sessions := map[];
    }

    predicate HasRoomFor(s: Session)
      reads this, s
    {
      |sessions| < maxSessions && s.id !in sessions
    }

    /** Refused when the zone is full or already has the id. */
    method AddSession(s: Session) returns (ok: bool)
      modifies this
      ensures ok == old(HasRoomFor(s))
      ensures sessions == if ok then old(sessions)[s.id := s] else old(sessions)
    {
      if |sessions| >= maxSessions {
        return false;
      }
      if s.id in sessions {
        return false;
      }
      sessions := sessions[s.id := s];
      return true;
    }

    method RemoveSession(s: Session)
      modifies this
      ensures sessions == old(sessions) - {s.id}
    {
      sessions := sessions - {s.id};
    }
  }

  class ZoneManager {
    const zones: map<int, Zone>

    /** Different numbers are different zones. */
    ghost predicate Valid() {
      forall y, z | y in zones && z in zones && zones[y] == zones[z] :: y == z
    }

    /** Zones are numbered from 1. */
    constructor (zoneCount: nat, zoneCap: nat)
      ensures Valid()
      ensures forall z :: z in zones <==> 1 <= z <= zoneCount
      ensures forall z | z in zones ::
                fresh(zones[z]) && zones[z].maxSessions == zoneCap && zones[z].sessions == map[]
    {
      var built: map<int, Zone> := map[];
      var i := 1;
      while i <= zoneCount
        invariant 1 <= i <= zoneCount + 1
        invariant forall z :: z in built <==> 1 <= z < i
        invariant forall y, z | y in built && z in built && built[y] == built[z] :: y == z
        invariant forall z | z in built ::
            fresh(built[z]) && built[z].maxSessions == zoneCap && built[z].sessions == map[]
      {
        var zone := new Zone(zoneCap);
        built := built[i := zone];
        i := i + 1;
      }
      zones := built;
    }

    method GetZone(zoneId: int) returns (zone: Zone?)
      ensures zone == if zoneId in zones then zones[zoneId] else null
    {
      zone := if zoneId in zones then zones[zoneId] else null;
    }

    /** Out of the zone that the session says it is in, if that zone exists. */
    method RemoveSession(s: Session)
      requires Valid()
      modifies s`zoneId, zones.Values
      ensures var inZone := old(s.zoneId) > -1 && old(s.zoneId) in zones;
              && s.Value() == (if inZone then old(s.Value()).(zoneId := -1) else old(s.Value()))
              && forall z | z in zones ::
                   zones[z].sessions ==
                   if inZone && z == old(s.zoneId) then old(zones[z].sessions) - {s.id} else old(zones[z].sessions)
    {
      var zoneId := s.zoneId;
      if zoneId > -1 {
        var zone := GetZone(zoneId);
        if zone != null {
          zone.RemoveSession(s);
          s.zoneId := -1;
        }
      }
    }
  }
}

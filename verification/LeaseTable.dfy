/**
 The table of SQL leases: an upsert that takes a lease when it is free, expired
 or already the holder's, and a delete by the holder. Times are milliseconds on
 one clock.
 */
module LeaseTable {
  datatype Lease = Lease(holder: string, until: int)

  type Leases = map<string, Lease>

  predicate MayTake(leases: Leases, name: string, holder: string, now: int)
  {
    name !in leases || leases[name].until <= now || leases[name].holder == holder
  }

  function Acquired(leases: Leases, name: string, holder: string, duration: int, now: int): Leases
  {
    if MayTake(leases, name, holder, now) then leases[name := Lease(holder, now + duration)] else leases
  }

  function Released(leases: Leases, name: string, holder: string): Leases
  {
    if name in leases && leases[name].holder == holder then leases - {name} else leases
  }

  /** The holder has the lease, and has it beyond the given time. */
  predicate Own(leases: Leases, name: string, holder: string, beyond: int)
  {
    name in leases && leases[name].holder == holder && leases[name].until > beyond
  }

  class LeaseStore {
    var leases: Leases

    constructor ()
      ensures leases == map[]
    {
      leases := map[];
    }

    /** Who has the lease renews it, expired or not; another holder gets it once it has expired or was released. */
    method AcquireLease(name: string, holder: string, duration: int, now: int) returns (acquired: bool)
      modifies this
      ensures acquired <==> (name in old(leases) && old(leases)[name].holder != holder ==> old(leases)[name].until <= now)
      ensures leases == if acquired then old(leases)[name := Lease(holder, now + duration)] else old(leases)
      ensures leases == Acquired(old(leases), name, holder, duration, now)
      ensures acquired && duration > 0 ==> Own(leases, name, holder, now)
    {
      if name !in leases {
        leases := leases[name := Lease(holder, now + duration)];
        return true;
      }
      var row := leases[name];
      if row.until <= now || row.holder == holder {
        leases := leases[name := Lease(holder, now + duration)];
        return true;
      }
      return false;
    }

    method ReleaseLease(name: string, holder: string)
      modifies this
      ensures name in leases <==> name in old(leases) && old(leases)[name].holder != holder
      ensures forall other :: other in old(leases) && other != name ==> other in leases && leases[other] == old(leases)[other]
      ensures leases == Released(old(leases), name, holder)
    {
      if name in leases && leases[name].holder == holder {
        leases := leases - {name};
      }
    }
  }
}

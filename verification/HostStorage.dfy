/** The lease and visibility operations of one allocation, and the reservation of a handoff, as code. */
module HostStorage {
  import opened Accesses
  import opened HostLeases

  /** One tracked allocation and the operations on its locks. */
  class Storage {
    var host: HostState
    var view: Visibility

    /** The engine reads the latest published write. */
    ghost predicate UpToDate(e: Engine)
      reads this
    {
      e in view.sees && view.sees[e] == view.version
    }

    /** Visible engines are up to date, nobody is ahead of the latest write, and a writer is alone. */
    ghost predicate Valid()
      reads this
    {
      && (forall e :: e in view.visible ==> UpToDate(e))
      && (forall e :: e in view.sees ==> view.sees[e] <= view.version)
      && (host.writer ==> host.readers == 0 && !host.external)
    }

    constructor (mapped: bool)
      ensures Valid() && host == NEW_HOST.(mapped := mapped) && view == NEW_VIEW
    {
      host := NEW_HOST.(mapped := mapped);
      view := NEW_VIEW;
    }

    /** Reserve the lease, then let maintenance succeed or fail; `inUse` is the scheduler's answer. */
    method AcquireWith(write: bool, inUse: bool, maintained: bool) returns (r: Result<bool>)
      requires Valid()
      modifies this
      ensures Valid()
      ensures r.Ok? <==> host.mapped && !HostConflict(old(host), write) && !inUse && maintained
      ensures r.Ok? ==> host == Leased(old(host), write) && view == MadeVisible(old(view), Host) && UpToDate(Host)
      ensures r.Err? ==> host == old(host) && view == old(view)
      ensures !host.mapped || HostConflict(old(host), write) ==> r == Err(Refusal(old(host)))
      ensures host.mapped && !HostConflict(old(host), write) && inUse ==> r == Err(Busy)
    {
      if !host.mapped {
        return Err(Unsupported);
      }
      if host.poison {
        return Err(DeviceLost);
      }
      if host.external || host.writer || (write && host.readers != 0) || inUse {
        return Err(Busy);
      }
      host := if write then host.(writer := true) else host.(readers := host.readers + 1);
      if !maintained {
        host := if write then host.(writer := false) else host.(readers := host.readers - 1);
        return Err(Message);
      }
      var shown := MakeVisible(Host, maintained);
      r := Ok(write);
    }

    /**
     * Bring an engine up to date, unless it is already. Failed cache maintenance
     * changes nothing, and no other engine gains or loses anything.
     */
    method MakeVisible(engine: Engine, maintained: bool) returns (r: Result<bool>)
      requires Valid()
      modifies `view
      ensures Valid()
      ensures r == if engine in old(view).visible then Ok(false) else if maintained then Ok(true) else Err(Message)
      ensures r.Ok? ==> UpToDate(engine) && engine in view.visible && view == MadeVisible(old(view), engine)
      ensures r.Err? ==> view == old(view)
      ensures forall e :: e != engine ==> (UpToDate(e) <==> old(UpToDate(e))) && (e in view.visible <==> e in old(view).visible)
    {
      if engine in view.visible {
        return Ok(false);
      }
      if !maintained {
        return Err(Message);
      }
      view := view.(visible := view.visible + {engine}, sees := view.sees[engine := view.version]);
      return Ok(true);
    }

    /**
     * Release a write guard: publish the dirty state, then give the lease back.
     * The host alone reads the new version, every other engine needs maintenance
     * first, and only poison can refuse the next host access.
     */
    method DropWriteGuard()
      requires Valid() && host.writer
      modifies this
      ensures Valid()
      ensures view == Wrote(old(view), Host) && view.version == old(view).version + 1
      ensures forall e :: UpToDate(e) <==> e == Host
      ensures forall e :: e in view.visible <==> e == Host
      ensures host == Returned(old(host), true) && forall write :: HostConflict(host, write) <==> host.poison
    {
      view := Visibility(Host, {Host}, view.version + 1, view.sees[Host := view.version + 1]);
      host := host.(writer := false);
    }
  }

  /** Reserve every allocation of a handoff, or none of them. */
  method ReserveHandoff(buffers: seq<Storage>, inUse: bool) returns (r: Result<bool>)
    modifies set i | 0 <= i < |buffers| :: buffers[i]
    ensures r.Ok? <==> !inUse && forall i :: 0 <= i < |buffers| ==> !HostConflict(old(buffers[i].host), true)
    ensures forall i :: 0 <= i < |buffers| ==> buffers[i].view == old(buffers[i].view)
    ensures forall i :: 0 <= i < |buffers| ==>
              buffers[i].host == if r.Ok? then old(buffers[i].host).(external := true) else old(buffers[i].host)
  {
    for k := 0 to |buffers|
      invariant forall i :: 0 <= i < |buffers| ==> buffers[i].host == old(buffers[i].host) && buffers[i].view == old(buffers[i].view)
      invariant forall i :: 0 <= i < k ==> !HostConflict(buffers[i].host, true)
    {
      var h := buffers[k].host;
      if h.poison {
        return Err(DeviceLost);
      }
      if h.external || h.writer || h.readers != 0 {
        return Err(Busy);
      }
    }
    if inUse {
      return Err(Busy);
    }
    for k := 0 to |buffers|
      invariant forall i :: 0 <= i < |buffers| ==> buffers[i].view == old(buffers[i].view)
      invariant forall i :: 0 <= i < |buffers| ==>
                  buffers[i].host == old(buffers[i].host) || buffers[i].host == old(buffers[i].host).(external := true)
      invariant forall i :: 0 <= i < k ==> buffers[i].host == old(buffers[i].host).(external := true)
    {
      buffers[k].host := buffers[k].host.(external := true);
    }
    r := Ok(true);
  }
}

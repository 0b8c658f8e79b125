/**
 * `SDNWLANHostInfo`: what the engine keeps about a host, mobile or gateway: the ONOS host
 * record (absent when the no-argument constructor was used), when the object was created, when
 * the host last moved, when a HOST_REMOVED event last arrived, and how often it moved.
 */
module HostInfos {
  import opened Wrappers
  import opened Net
  import opened JavaInt

  class HostInfo {
    /** The host record; `updateHost` is an empty stub, so it never changes. */
    const hostInfo: Option<Host>
    /** The creation `Date`, in milliseconds: `createTime` and the source of `lastMoveTime`. */
    const createTime: int
    var lastMoveTime: int
    var removedTime: int
    var timesMoved: Int32

    /** Both constructors; `now` is the clock reading when the object is created. */
    constructor(info: Option<Host>, now: int)
      ensures hostInfo == info && createTime == now
      ensures lastMoveTime == createTime && removedTime == 0 && timesMoved == 0
    {
      hostInfo := info;
      createTime := now;
      lastMoveTime := now;
      removedTime := 0;
      timesMoved := 0;
    }

    /** `getMacAddress`: the host record's MAC; there is none to read without a host record. */
    function GetMacAddress(): (m: MacAddress)
      requires hostInfo.Some?
      ensures m == hostInfo.value.mac
    {
      hostInfo.value.mac
    }

    /** `setRemovedTime(time)`, and `setRemovedTime()` with the clock reading passed in. */
    method SetRemovedTime(time: int)
      modifies this
      ensures removedTime == time
      ensures lastMoveTime == old(lastMoveTime) && timesMoved == old(timesMoved)
    {
      removedTime := time;
    }
  }
}

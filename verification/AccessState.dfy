/**
 The holder of the access authority (app-mobile/services/accessState.ts, without the native module) and
 the request stamps of accessEvents.ts. A turn of the serialized writes runs from its check to its
 publication without a pause; only the write to disk is awaited.
 */
module AccessState {
  import opened Wrappers
  import opened AccessPolicy

  datatype Stamp = Stamp(session: string, sequence: nat)

  /** The module variables; the authority of the cache is the one on disk. */
  datatype Memory = Memory(ready: bool, authority: Option<Authority>, epoch: nat, revision: nat)

  datatype DiskOp = Store(authority: Authority) | Remove

  const BOOT := Memory(false, None, 0, 0)

  function Captured(m: Memory): Option<Stamp> {
    match m.authority case Some(a) => Some(Stamp(a.session, a.sequence)) case None => None
  }

  /** The authority that a stamp still designates. */
  function Current(m: Memory, stamp: Stamp): Option<Authority> {
    if Captured(m) == Some(stamp) then m.authority else None
  }

  function AdvanceSession(m: Memory): Memory { m.(epoch := m.epoch + 1, revision := m.revision + 1) }

  predicate Foreign(p: Authority, a: Authority) {
    p.userId != a.userId || p.deviceId != a.deviceId || p.session != a.session || p.sequence > a.sequence
  }

  function Adopt(m: Memory, a: Authority): (Memory, Option<DiskOp>) {
    if m.authority.Some? && Foreign(m.authority.value, a) then (m, None)
    else
      var changed := m.authority.None? || m.authority.value.sequence != a.sequence;
      (Memory(true, Some(a), m.epoch, if changed then m.revision + 1 else m.revision), Some(Store(a)))
  }

  /** A response applies only to the authority that its stamp designates. */
  function ApplySnapshot(m: Memory, stamp: Stamp, s: Snapshot, ps: seq<Profile>): (Memory, Option<DiskOp>) {
    match Current(m, stamp)
    case None => (m, None)
    case Some(a) =>
      match ReduceSnapshot(a, s, ps)
      case None => (m, None)
      case Some(next) => Adopt(m, next)
  }

  function ApplyIssue(m: Memory, stamp: Stamp, issue: Issue, ps: seq<Profile>): (Memory, Option<DiskOp>) {
    match Current(m, stamp)
    case None => (m, None)
    case Some(a) => if issue.SessionIssue? then (m, None) else Adopt(m, ReduceIssue(a, issue, ps))
  }

  predicate BoundTo(m: Memory, userId: string, deviceId: string) {
    m.ready && m.authority.Some? && m.authority.value.userId == userId && m.authority.value.deviceId == deviceId
  }

  /** The authority kept on disk for this user and device, or a new one of a new session. */
  function Restored(cached: Option<Authority>, userId: string, deviceId: string, now: string): Authority {
    if cached.Some? && cached.value.userId == userId && cached.value.deviceId == deviceId then cached.value
    else Authority(userId, deviceId, now + ":" + userId, 0, None, None, [])
  }

  function Bind(m: Memory, cached: Option<Authority>, userId: string, deviceId: string, now: string): (Memory, Option<DiskOp>) {
    if BoundTo(m, userId, deviceId) then (m, None)
    else
      var a := Restored(cached, userId, deviceId, now);
      (AdvanceSession(m).(ready := true, authority := Some(a)), Some(Store(a)))
  }

  function Clear(m: Memory): (Memory, Option<DiskOp>) { (m.(ready := false, authority := None), Some(Remove)) }

  predicate CurrentRequest(m: Memory, epoch: nat, revision: nat) { m.epoch == epoch && m.revision == revision }

  class AccessStore {
    var ready: bool
    var authority: Option<Authority>
    var epoch: nat
    var revision: nat

    ghost function Contents(): Memory
      reads this
    {
      Memory(ready, authority, epoch, revision)
    }

    constructor ()
      ensures Contents() == BOOT
    {
      ready, authority, epoch, revision := false, None, 0, 0;
    }

    method CaptureAuthority() returns (stamp: Option<Stamp>)
      ensures stamp == Captured(Contents())
    {
      if authority.Some? {
        stamp := Some(Stamp(authority.value.session, authority.value.sequence));
      } else {
        stamp := None;
      }
    }

    method AdoptAuthority(next: Authority) returns (write: Option<DiskOp>)
      modifies this
      ensures (Contents(), write) == Adopt(old(Contents()), next)
    {
      var previous := authority;
      if previous.Some? && Foreign(previous.value, next) {
        return None;
      }
      if previous.None? || previous.value.sequence != next.sequence {
        revision := revision + 1;
      }
      ready, authority := true, Some(next);
      return Some(Store(next));
    }

    /** One serialized turn: whether the response was accepted, and what is to be written. */
    method TakeSnapshot(stamp: Stamp, s: Snapshot, ps: seq<Profile>) returns (write: Option<DiskOp>)
      modifies this
      ensures (Contents(), write) == ApplySnapshot(old(Contents()), stamp, s, ps)
    {
      var captured := CaptureAuthority();
      if captured != Some(stamp) {
        return None;
      }
      var next := ReduceSnapshotLoops(authority.value, s, ps);
      if next.None? {
        return None;
      }
      write := AdoptAuthority(next.value);
    }

    method TakeIssue(stamp: Stamp, issue: Issue, ps: seq<Profile>) returns (write: Option<DiskOp>)
      modifies this
      ensures (Contents(), write) == ApplyIssue(old(Contents()), stamp, issue, ps)
    {
      var captured := CaptureAuthority();
      if captured != Some(stamp) || issue.SessionIssue? {
        return None;
      }
      write := AdoptAuthority(ReduceIssue(authority.value, issue, ps));
    }

    method AdvanceAccessSession()
      modifies this
      ensures Contents() == AdvanceSession(old(Contents()))
    {
      epoch, revision := epoch + 1, revision + 1;
    }

    method BindSession(cached: Option<Authority>, userId: string, deviceId: string, now: string) returns (write: Option<DiskOp>)
      modifies this
      ensures (Contents(), write) == Bind(old(Contents()), cached, userId, deviceId, now)
    {
      if ready && authority.Some? && authority.value.userId == userId && authority.value.deviceId == deviceId {
        return None;
      }
      var next := Restored(cached, userId, deviceId, now);
      AdvanceAccessSession();
      ready, authority := true, Some(next);
      return Some(Store(next));
    }

    method FinishClear() returns (write: Option<DiskOp>)
      modifies this
      ensures (Contents(), write) == Clear(old(Contents()))
    {
      ready, authority := false, None;
      return Some(Remove);
    }
  }
}

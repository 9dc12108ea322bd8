/** The bounded double-ended queue between threads. */
module SysQueues {
  import opened Bytes
  import opened Locks

  class SysQueue<T> {
    const lock: Lock
    const maxSize: nat
    var data: seq<T>

    constructor (lock: Lock, maxSize: nat)
      ensures this.lock == lock && this.maxSize == maxSize && data == []
    {
      this.lock, this.maxSize, data := lock, maxSize, [];
    }

    /** A null element (None) and a full queue are refused. */
    method InQueueWithoutLock(arg: Option<T>, head: bool) returns (ok: bool)
      modifies this
      ensures ok <==> arg.Some? && |old(data)| < maxSize
      ensures data == if !ok then old(data) else if head then [arg.value] + old(data) else old(data) + [arg.value]
    {
      if arg.None? || |data| >= maxSize {
        return false;
      }
      data := if head then [arg.value] + data else data + [arg.value];
      return true;
    }

    method OutQueueWithoutLock(head: bool) returns (arg: Option<T>)
      modifies this
      ensures arg.None? <==> old(data) == []
      ensures old(data) == if arg.None? then data else if head then [arg.value] + data else data + [arg.value]
    {
      if data == [] {
        return None;
      }
      if head {
        arg := Some(data[0]);
        data := data[1..];
      } else {
        arg := Some(data[|data| - 1]);
        data := data[..|data| - 1];
      }
    }

    method InQueue(th: Thread, arg: Option<T>, head: bool) returns (ok: bool)
      requires th.Valid() && MayAcquire(th.Held(), lock)
      modifies this, th
      ensures th.Valid() && th.Held() == old(th.Held()) && th.ops == old(th.ops) + [Acquire(lock), Release(lock)]
      ensures ok <==> arg.Some? && |old(data)| < maxSize
      ensures data == if !ok then old(data) else if head then [arg.value] + old(data) else old(data) + [arg.value]
    {
      th.Lock(lock);
      ok := InQueueWithoutLock(arg, head);
      th.UnLock(lock);
    }

    method OutQueue(th: Thread, head: bool) returns (arg: Option<T>)
      requires th.Valid() && MayAcquire(th.Held(), lock)
      modifies this, th
      ensures th.Valid() && th.Held() == old(th.Held()) && th.ops == old(th.ops) + [Acquire(lock), Release(lock)]
      ensures arg.None? <==> old(data) == []
      ensures old(data) == if arg.None? then data else if head then [arg.value] + data else data + [arg.value]
    {
      th.Lock(lock);
      arg := OutQueueWithoutLock(head);
      th.UnLock(lock);
    }
  }
}

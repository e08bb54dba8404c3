/** The critical sections of ThreadSafeQueue and PipeInternal, in imperative form on the
    ring-buffer deque.  Locking and waiting around them, and preemption between their
    rounds, are in Pipe.dfy, whose Push and Pop steps are one round of these loops. */
module ThreadSafeQueue {
  import opened Deque

  class ThreadSafeQueue<T(0)> {
    const q: Deque<T>

    ghost predicate Valid()
      reads this, q, q.storage, q.storage.mem
    {
      q.Valid()
    }

    constructor ()
      ensures Valid() && q.Contents() == [] && fresh(q) && fresh(q.storage) && fresh(q.storage.mem)
    {
      q := new Deque<T>();
    }

    /** enqueue(begin, end) between lock and unlock. */
    method PushRange(data: seq<T>)
      requires Valid()
      modifies q, q.storage, q.storage.mem
      ensures Valid() && q.Contents() == old(q.Contents()) + data
      ensures q.storage.mem == old(q.storage.mem) || fresh(q.storage.mem)
    {
      var i := 0;
      while i < |data|
        invariant i <= |data| && Valid() && q.Contents() == old(q.Contents()) + data[..i]
        invariant q.storage.mem == old(q.storage.mem) || fresh(q.storage.mem)
      {
        q.PushBack(data[i]);
        assert data[..i + 1] == data[..i] + [data[i]];
        i := i + 1;
      }
      assert data[..i] == data;
    }

    /** dequeue(collect, n) between the wait loop and unlock, collecting into `buff` as
        PipeInternal::read does; returns how many elements it took. */
    method PopInto(buff: array<T>, n: nat) returns (i: nat)
      requires Valid() && n <= buff.Length && buff != q.storage.mem
      modifies q, buff
      ensures Valid() && i == (if n < |old(q.Contents())| then n else |old(q.Contents())|)
      ensures buff[..i] == old(q.Contents())[..i] && buff[i..] == old(buff[i..])
      ensures q.Contents() == old(q.Contents())[i..]
    {
      var size := q.Size();
      var popN := if n < size then n else size;
      i := 0;
      while i < popN
        invariant i <= popN && Valid() && q.Contents() == old(q.Contents())[i..]
        invariant forall j :: 0 <= j < i ==> buff[j] == old(q.Contents())[j]
        invariant forall j :: i <= j < buff.Length ==> buff[j] == old(buff[j])
      {
        buff[i] := q.Front();
        q.PopFront();
        i := i + 1;
      }
    }
  }
}

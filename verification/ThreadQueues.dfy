/** thread.c, lines 69-128: the queues of the scheduler.

    A queue is a circular list through the link fields, and its variable points at the last
    thread, so that both ends are at hand.  `contents` is the queue in order, first thread first. */
module ThreadQueues {
  class Thread {
    var link: Thread?
    var inqueue: Queue?

    constructor ()
      ensures link == null && inqueue == null
    {
      link, inqueue := null, null;
    }
  }

  /** Removing the one occurrence of x. */
  function Remove<T(==)>(q: seq<T>, x: T): seq<T>
  {
    if q == [] then [] else if q[0] == x then q[1..] else [q[0]] + Remove(q[1..], x)
  }

  lemma {:induction false} RemoveAt<T>(q: seq<T>, x: T, j: nat)
    requires j < |q| && q[j] == x && x !in q[..j]
    ensures Remove(q, x) == q[..j] + q[j + 1..]
  {
    if j > 0 {
      assert q[..j][0] == q[0];
      assert q[1..][..j - 1] == q[..j][1..];
      RemoveAt(q[1..], x, j - 1);
      assert q[..j] == [q[0]] + q[1..][..j - 1];
    }
  }

  /** q is the list of a queue whose last thread is tail. */
  ghost predicate Circular(q: seq<Thread>, tail: Thread?)
    reads q
  {
    && (forall i, j :: 0 <= i < j < |q| ==> q[i] != q[j])
    && (forall i, j :: 0 <= i && j == i + 1 && j < |q| ==> q[i].link == q[j])
    && if q == [] then tail == null else tail == q[|q| - 1] && tail.link == q[0]
  }

  /** A queue stays as it is when neither it nor any thread in it is written. */
  twostate lemma Untouched(p: Queue)
    requires old(p.Valid()) && unchanged(p)
    requires forall u :: u in old(p.contents) ==> unchanged(u)
    ensures p.Valid() && p.contents == old(p.contents)
  {
    assert forall i :: 0 <= i < |p.contents| ==> p.contents[i] in old(p.contents);
  }

  /** The circle q without its thread j, after the thread before that one was made to point past
      it. */
  lemma Unlinked(q: seq<Thread>, j: nat, tail: Thread?)
    requires j < |q| && forall i, k :: 0 <= i < k < |q| ==> q[i] != q[k]
    requires forall i, k :: 0 <= i && k == i + 1 && k < |q| && i != j && k != j ==> q[i].link == q[k]
    requires 0 < j < |q| - 1 ==> q[j - 1].link == q[j + 1]
    requires if |q| == 1 then tail == null else
             && tail == q[if j == |q| - 1 then j - 1 else |q| - 1]
             && tail.link == q[if j == 0 then 1 else 0]
    ensures Circular(q[..j] + q[j + 1..], tail)
  {
    var r := q[..j] + q[j + 1..];
    assert forall i :: 0 <= i < j ==> r[i] == q[i];
    assert forall i :: j <= i < |r| ==> r[i] == q[i + 1];
  }

  class Queue {
    var tail: Thread?
    ghost var contents: seq<Thread>

    ghost predicate Valid()
      reads this, contents
    {
      Circular(contents, tail) && forall t :: t in contents ==> t.inqueue == this
    }

    constructor ()
      ensures Valid() && contents == []
    {
      tail, contents := null, [];
    }

    /** isempty. */
    predicate IsEmpty()
      requires Valid()
      reads this, contents
      ensures IsEmpty() <==> contents == []
    {
      tail == null
    }

    /** put: t becomes the last thread.  The other queues stay as they are. */
    method Put(t: Thread)
      requires Valid() && t.inqueue == null && t.link == null
      modifies this, contents, t
      ensures Valid() && contents == old(contents) + [t]
      ensures forall p: Queue ::
          old(allocated(p)) && p != this && old(p.Valid()) ==> p.Valid() && p.contents == old(p.contents)
    {
      if tail != null {
        t.link := tail.link;
        tail.link := t;
      } else {
        t.link := t;
      }
      tail := t;
      t.inqueue := this;
      contents := contents + [t];
      forall p: Queue | old(allocated(p)) && p != this && old(p.Valid())
          ensures p.Valid() && p.contents == old(p.contents) {
        Untouched(p);
      }
    }

    /** get: the first thread leaves the queue. */
    method Get() returns (t: Thread)
      requires Valid() && !IsEmpty()
      modifies this, contents
      ensures Valid() && old(contents) == [t] + contents
      ensures t.inqueue == null && t.link == null
      ensures forall p: Queue ::
          old(allocated(p)) && p != this && old(p.Valid()) ==> p.Valid() && p.contents == old(p.contents)
    {
      t := tail.link;
      if t == tail {
        tail := null;
      } else {
        tail.link := t.link;
      }
      assert t.inqueue == this;
      t.link := null;
      t.inqueue := null;
      contents := contents[1..];
    }

    /** The loop of delete: the search for the thread before t in the circle ends. */
    method Before(t: Thread) returns (p: Thread, ghost j: nat)
      requires Valid() && t in contents
      ensures j < |contents| && contents[j] == t && p == contents[if j == 0 then |contents| - 1 else j - 1]
    {
      j :| 0 <= j < |contents| && contents[j] == t;
      ghost var k := -1;
      p := tail;
      while p.link != t
        invariant -1 <= k < j && p == contents[if k == -1 then |contents| - 1 else k]
        decreases j - k
      {
        assert p.link == contents[k + 1];
        p := p.link;
        k := k + 1;
      }
      assert p.link == contents[k + 1];
    }

    /** delete: t leaves the queue, wherever in it it is. */
    method Delete(t: Thread)
      requires Valid() && t.inqueue == this && t in contents
      modifies this, contents
      ensures Valid() && contents == Remove(old(contents), t)
      ensures t.inqueue == null && t.link == null
      ensures forall p: Queue ::
          old(allocated(p)) && p != this && old(p.Valid()) ==> p.Valid() && p.contents == old(p.contents)
    {
      hide Remove;
      ghost var q := contents;
      var p, j := Before(t);
      assert p == t <==> |q| == 1;
      assert tail == t <==> j == |q| - 1;
      if p == t {
        tail := null;
      } else {
        p.link := t.link;
        if tail == t {
          tail := p;
        }
      }
      t.link := null;
      t.inqueue := null;
      contents := q[..j] + q[j + 1..];
      RemoveAt(q, t, j);
      Unlinked(q, j, tail);
      forall u: Queue | old(allocated(u)) && u != this && old(u.Valid())
          ensures u.Valid() && u.contents == old(u.contents) {
        Untouched(u);
      }
    }
  }
}

/**
 The token queue: a growable array whose live part is moved to the front when the array is
 full, and into which a token can be inserted in front of tokens queued before it.
 */
module TokenQueue {
  /** `q` with `t` put in at `pos`, or at the end when `pos` is negative. */
  function InsertAt<T>(q: seq<T>, pos: int, t: T): seq<T>
    requires pos <= |q|
  {
    if pos < 0 then q + [t] else q[..pos] + [t] + q[pos..]
  }

  lemma {:induction false} ShiftedIs<T>(r: seq<T>, q: seq<T>, pos: nat, t: T)
    requires |r| == |q| + 1 && pos <= |q| && r[pos] == t
    requires forall k :: 0 <= k < pos ==> r[k] == q[k]
    requires forall k :: pos < k < |r| ==> r[k] == q[k - 1]
    ensures r == InsertAt(q, pos, t)
  {
  }

  class Queue<T(0)> {
    var buffer: array<T>
    var len: nat
    var head: nat

    ghost predicate Valid()
      reads this
    {
      head <= len <= buffer.Length
    }

    ghost function Contents(): seq<T>
      reads this, buffer
      requires Valid()
    {
      buffer[head..len]
    }

    constructor ()
      ensures Valid() && fresh(buffer) && Contents() == []
    {
      buffer := new T[0];
      len, head := 0, 0;
    }

    /** Move the live tokens to the front of the array. */
    method Compact()
      requires Valid()
      modifies this`len, this`head, buffer
      ensures Valid() && head == 0 && Contents() == old(Contents())
    {
      ghost var live := Contents();
      var n := len - head;
      for i := 0 to n
        modifies buffer
        invariant forall k :: 0 <= k < i ==> buffer[k] == live[k]
        invariant forall k :: i <= k < n ==> buffer[head + k] == live[k]
      {
        buffer[i] := buffer[head + i];
      }
      len, head := n, 0;
      assert buffer[0..n] == live;
    }

    /** Append, reallocating when the array is full. */
    method Append(t: T)
      requires Valid()
      modifies this`buffer, this`len, buffer
      ensures Valid() && head == old(head) && (buffer == old(buffer) || fresh(buffer))
      ensures Contents() == old(Contents()) + [t]
    {
      if len == buffer.Length {
        var bigger := new T[2 * buffer.Length + 1];
        forall i | 0 <= i < len {
          bigger[i] := buffer[i];
        }
        buffer := bigger;
      }
      buffer[len] := t;
      len := len + 1;
    }

    method Insert(pos: int, t: T)
      requires Valid() && pos <= |Contents()|
      modifies this, buffer
      ensures Valid() && (buffer == old(buffer) || fresh(buffer))
      ensures Contents() == InsertAt(old(Contents()), pos, t)
    {
      ghost var q := Contents();
      if head > 0 && len == buffer.Length {
        Compact();
      }
      Append(t);
      if pos < 0 { return; }
      ShiftFrom(pos, q, t);
    }

    /** Shift everything from `pos` one place up, over the token just appended. */
    method ShiftFrom(pos: nat, ghost q: seq<T>, t: T)
      requires Valid() && Contents() == q + [t] && pos <= |q|
      modifies buffer
      ensures Valid() && Contents() == InsertAt(q, pos, t)
    {
      var i := len - 1;
      while i > head + pos
        invariant head + pos <= i < len
        invariant forall k :: head <= k < i ==> buffer[k] == q[k - head]
        invariant forall k :: i < k < len ==> buffer[k] == q[k - head - 1]
      {
        buffer[i] := buffer[i - 1];
        i := i - 1;
      }
      buffer[i] := t;
      ShiftedIs(buffer[head..len], q, pos, t);
    }

    method Take() returns (t: T)
      requires Valid() && Contents() != []
      modifies this`head
      ensures Valid() && [t] + Contents() == old(Contents())
    {
      t := buffer[head];
      head := head + 1;
    }
  }
}

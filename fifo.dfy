/** The dictionary-backed first-in first-out queue used by the breadth-first
    walk of the containment tree.  Slots are integer keys of `data`; `nextin`
    is the next slot to fill and `nextout` the next slot to read. */
module FifoQueue {
  import opened Wrappers

  /** The values stored at slots lo, lo+1, ..., hi-1, in slot order. */
  ghost function Window<T>(data: map<int, T>, lo: int, hi: int): (w: seq<T>)
    requires forall k :: lo <= k < hi ==> k in data
    ensures |w| == if lo <= hi then hi - lo else 0
    decreases hi - lo
  {
    if hi <= lo then [] else Window(data, lo, hi - 1) + [data[hi - 1]]
  }

  /** Slot lo + i of the window holds the i-th value. */
  lemma {:induction false} WindowAt<T>(data: map<int, T>, lo: int, hi: int, i: int)
    requires forall k :: lo <= k < hi ==> k in data
    requires 0 <= i < hi - lo
    ensures Window(data, lo, hi)[i] == data[lo + i]
    decreases hi - lo
  {
    if i < hi - 1 - lo {
      WindowAt(data, lo, hi - 1, i);
    }
  }

  /** Two stores that agree on the slots of a window give the same window. */
  lemma WindowAgree<T>(d1: map<int, T>, d2: map<int, T>, lo: int, hi: int)
    requires forall k :: lo <= k < hi ==> k in d1 && k in d2 && d1[k] == d2[k]
    ensures Window(d1, lo, hi) == Window(d2, lo, hi)
  {
    var w1, w2 := Window(d1, lo, hi), Window(d2, lo, hi);
    forall i | 0 <= i < |w1| ensures w1[i] == w2[i] {
      WindowAt(d1, lo, hi, i);
      WindowAt(d2, lo, hi, i);
    }
  }

  /** Filling the slot just past the window extends the window by that value. */
  lemma WindowPush<T>(data: map<int, T>, lo: int, hi: int, v: T)
    requires lo <= hi
    requires forall k :: lo <= k < hi ==> k in data
    ensures Window(data[hi := v], lo, hi + 1) == Window(data, lo, hi) + [v]
  {
    WindowAgree(data, data[hi := v], lo, hi);
  }

  /** Removing the first slot of a non-empty window drops its first value. */
  lemma WindowPop<T>(data: map<int, T>, lo: int, hi: int)
    requires lo < hi
    requires forall k :: lo <= k < hi ==> k in data
    ensures Window(data, lo, hi)[0] == data[lo]
    ensures Window(data - {lo}, lo + 1, hi) == Window(data, lo, hi)[1..]
  {
    var w, w' := Window(data, lo, hi), Window(data - {lo}, lo + 1, hi);
    WindowAt(data, lo, hi, 0);
    forall i | 0 <= i < |w'| ensures w'[i] == w[1..][i] {
      WindowAt(data - {lo}, lo + 1, hi, i);
      WindowAt(data, lo, hi, i + 1);
    }
  }

  class Fifo<T> {
    var nextin: int
    var nextout: int
    var data: map<int, T>

    /** The queue's invariant: the occupied slots are exactly [nextout, nextin). */
    ghost predicate Valid()
      reads this
    {
      && nextout <= nextin
      && forall k :: k in data <==> nextout <= k < nextin
    }

    /** The values waiting in the queue, oldest first. */
    ghost function Contents(): seq<T>
      reads this
      requires Valid()
    {
      Window(data, nextout, nextin)
    }

    constructor ()
      ensures Valid() && Contents() == []
      ensures nextin == 0 && nextout == 0 && data == map[]
    {
      nextin := 0;
      nextout := 0;
      data := map[];
    }

    method Append(value: T)
      requires Valid()
      modifies this
      ensures Valid()
      ensures data == old(data)[old(nextin) := value]
      ensures nextin == old(nextin) + 1 && nextout == old(nextout)
      ensures Contents() == old(Contents()) + [value]
    {
      WindowPush(data, nextout, nextin, value);
      data := data[nextin := value];
      nextin := nextin + 1;
    }

    /** Stores values[i] in slot nextin + i, then advances nextin past them;
        an empty sequence leaves the queue as it was. */
    method Extend(values: seq<T>)
      requires Valid()
      modifies this
      ensures Valid()
      ensures nextin == old(nextin) + |values| && nextout == old(nextout)
      ensures forall k :: k in old(data) ==> data[k] == old(data)[k]
      ensures forall i :: 0 <= i < |values| ==> data[old(nextin) + i] == values[i]
      ensures Contents() == old(Contents()) + values
    {
      if |values| > 0 {
        var i := 0;
        while i < |values|
          invariant 0 <= i <= |values|
          invariant nextin == old(nextin) && nextout == old(nextout)
          invariant forall k :: k in data <==> nextout <= k < nextin + i
          invariant forall k :: k in old(data) ==> data[k] == old(data)[k]
          invariant forall j :: 0 <= j < i ==> data[nextin + j] == values[j]
        {
          data := data[i + nextin := values[i]];
          i := i + 1;
        }
        // enumerate leaves i at the last index; the source adds i + 1
        nextin := nextin + |values|;
        var w := Window(data, nextout, nextin);
        var n := |old(Contents())|;
        forall j | 0 <= j < |w| ensures w[j] == (old(Contents()) + values)[j] {
          WindowAt(data, nextout, nextin, j);
          if j < n {
            WindowAt(old(data), nextout, old(nextin), j);
          }
        }
      }
    }

    predicate IsEmpty()
      reads this
      requires Valid()
      ensures IsEmpty() <==> Contents() == []
    {
      nextout >= nextin
    }

    /** Takes the value in slot nextout.  On an empty queue the slot lookup
        raises KeyError before anything changes. */
    method Pop() returns (r: Result<T, PyError>)
      requires Valid()
      modifies this
      ensures Valid()
      ensures r.Ok? <==> old(Contents()) != []
      ensures r.Ok? ==> && r.value == old(Contents())[0]
                        && Contents() == old(Contents())[1..]
                        && nextout == old(nextout) + 1 && nextin == old(nextin)
                        && data == old(data) - {old(nextout)}
      ensures r.Err? ==> r.error == KeyError && unchanged(this)
    {
      if nextout !in data {
        return Err(KeyError);
      }
      WindowPop(data, nextout, nextin);
      var value := data[nextout];
      data := data - {nextout};
      nextout := nextout + 1;
      return Ok(value);
    }
  }

  /** Values come out in the order they went in: extending an empty queue
      with xs and popping until it is empty yields xs. */
  method DrainAfterExtend<T>(xs: seq<T>) returns (ys: seq<T>)
    ensures ys == xs
  {
    var q := new Fifo<T>();
    q.Extend(xs);
    ys := [];
    while !q.IsEmpty()
      invariant q.Valid()
      invariant ys + q.Contents() == xs
      decreases |q.Contents()|
    {
      var r := q.Pop();
      ys := ys + [r.value];
    }
  }
}

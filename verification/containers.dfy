/** The two array-backed containers the converter and the evaluator work
    with (script.js lines 80-158). Both keep their elements in `items`, the
    newest element last, and change it in place. */
module Containers {
  import opened Options

  /** A first-in-first-out queue: `Enqueue` adds at the back, `Dequeue`
      takes from the front. */
  class Queue<T> {
    var items: seq<T>

    constructor ()
      ensures items == []
    {
      items := [];
    }

    /** `items.push(element)`, which answers the new length. */
    method Enqueue(element: T) returns (n: nat)
      modifies this
      ensures items == old(items) + [element]
      ensures n == |items|
    {
      items := items + [element];
      n := |items|;
    }

    /** `items.shift()` when the queue holds something; otherwise nothing
      is removed and the answer is `undefined`. */
    method Dequeue() returns (r: Option<T>)
      modifies this
      ensures old(items) == [] ==> r == None && items == []
      ensures old(items) != [] ==> r == Some(old(items)[0]) && items == old(items)[1..]
    {
      if |items| > 0 {
        r := Some(items[0]);
        items := items[1..];
      } else {
        r := None;
      }
    }

    /** The element at the BACK (the one added last), not the front. */
    method Peek() returns (r: Option<T>)
      ensures r.None? <==> items == []
      ensures r.Some? ==> r.value == items[|items| - 1]
    {
      r := if |items| > 0 then Some(items[|items| - 1]) else None;
    }

    method IsEmpty() returns (b: bool)
      ensures b <==> items == []
    {
      b := |items| == 0;
    }

    method Size() returns (n: nat)
      ensures n == |items|
    {
      n := |items|;
    }

    method Clear()
      modifies this
      ensures items == []
    {
      items := [];
    }
  }

  /** A last-in-first-out stack whose top is the last element of `items`. */
  class Stack<T> {
    var items: seq<T>

    constructor ()
      ensures items == []
    {
      items := [];
    }

    /** `items.push(element)`: the element becomes the top; the answer is
        the new size. */
    method Add(element: T) returns (n: nat)
      modifies this
      ensures items == old(items) + [element]
      ensures n == |items|
    {
      items := items + [element];
      n := |items|;
    }

    /** `items.pop()` when the stack holds something: the top is answered
        and the rest stays as it was. On an empty stack nothing changes and
        the answer is `undefined`. */
    method Remove() returns (r: Option<T>)
      modifies this
      ensures old(items) == [] ==> r == None && items == []
      ensures old(items) != [] ==>
                r == Some(old(items)[|old(items)| - 1]) && items == old(items)[..|old(items)| - 1]
      ensures old(items) != [] ==> old(items) == items + [r.value]
    {
      if |items| > 0 {
        r := Some(items[|items| - 1]);
        items := items[..|items| - 1];
      } else {
        r := None;
      }
    }

    /** The top, without changing the stack; `undefined` when it is empty. */
    method Peek() returns (r: Option<T>)
      ensures r.None? <==> items == []
      ensures r.Some? ==> r.value == items[|items| - 1]
    {
      r := if |items| > 0 then Some(items[|items| - 1]) else None;
    }

    method IsEmpty() returns (b: bool)
      ensures b <==> items == []
    {
      b := |items| == 0;
    }

    method Size() returns (n: nat)
      ensures n == |items|
    {
      n := |items|;
    }

    method Clear()
      modifies this
      ensures items == []
    {
      items := [];
    }
  }

  /** Removing right after adding answers the element just added and leaves
      the stack as it was. */
  method AddThenRemove<T>(s: Stack<T>, x: T) returns (r: Option<T>)
    modifies s
    ensures r == Some(x)
    ensures s.items == old(s.items)
  {
    var _ := s.Add(x);
    r := s.Remove();
  }

  /** A stack hands its elements out newest first. */
  method LastInFirstOut<T>(x: T, y: T) returns (first: Option<T>, second: Option<T>, third: Option<T>)
    ensures first == Some(y) && second == Some(x) && third == None
  {
    var s := new Stack<T>();
    var _ := s.Add(x);
    var _ := s.Add(y);
    first := s.Remove();
    second := s.Remove();
    third := s.Remove();
  }

  /** A queue hands its elements out oldest first, while its `Peek` shows
      the newest. */
  method FirstInFirstOut<T>(x: T, y: T) returns (back: Option<T>, first: Option<T>, second: Option<T>, third: Option<T>)
    ensures back == Some(y)
    ensures first == Some(x) && second == Some(y) && third == None
  {
    var q := new Queue<T>();
    var _ := q.Enqueue(x);
    var _ := q.Enqueue(y);
    back := q.Peek();
    first := q.Dequeue();
    second := q.Dequeue();
    third := q.Dequeue();
  }
}

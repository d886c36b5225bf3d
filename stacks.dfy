/**
  The `java.util.Stack` operations the engine uses, as a class whose
  contents the methods update in place. The top of the stack is the last
  element of `elems`. Popping an empty stack throws in Java; here it
  returns `None`.
 */
module Stacks {
  import opened Wrappers

  class Stack<T> {
    var elems: seq<T>

    constructor ()
      ensures elems == []
    {
      elems := [];
    }

    predicate IsEmpty()
      reads this
    {
      elems == []
    }

    /** `peek()`: every caller in the engine tests `isEmpty()` first. */
    function Peek(): T
      reads this
      requires elems != []
    {
      elems[|elems| - 1]
    }

    method Push(x: T)
      modifies this
      ensures elems == old(elems) + [x]
    {
      elems := elems + [x];
    }

    method Pop() returns (x: Option<T>)
      modifies this
      ensures old(elems) == [] ==> x == None && elems == []
      ensures old(elems) != [] ==>
                x == Some(old(elems)[|old(elems)| - 1]) &&
                elems == old(elems)[..|old(elems)| - 1]
    {
      if elems == [] {
        x := None;
      } else {
        x := Some(elems[|elems| - 1]);
        elems := elems[..|elems| - 1];
      }
    }
  }
}

/** The token stack of the expression compiler. Its backing slice is kept after a Pop
    and overwritten by the next Push. */
module TokenStack {
  import opened TriggerExpr

  class Stack {
    var elements: seq<string>
    var topPtr: int

    ghost predicate Valid()
      reads this
    {
      -1 <= topPtr < |elements|
    }

    ghost function Contents(): seq<string>
      requires Valid()
      reads this
    {
      elements[..topPtr + 1]
    }

    constructor ()
      ensures Valid() && Contents() == []
    {
      elements := [];
      topPtr := -1;
    }

    predicate Empty()
      requires Valid()
      reads this
      ensures Empty() <==> Contents() == []
    {
      topPtr == -1
    }

    /** None stands for the index panic on an empty stack. */
    function Top(): (r: Option<string>)
      requires Valid()
      reads this
      ensures r == if Contents() == [] then None else Some(Contents()[|Contents()| - 1])
    {
      if topPtr == -1 then None else Some(elements[topPtr])
    }

    method Push(element: string)
      requires Valid()
      modifies this
      ensures Valid() && Contents() == old(Contents()) + [element]
    {
      if |elements| > topPtr + 1 {
        elements := elements[topPtr + 1 := element];
      } else {
        elements := elements + [element];
      }
      topPtr := topPtr + 1;
    }

    /** None stands for the index panic on an empty stack. */
    method Pop() returns (r: Option<string>)
      requires Valid()
      modifies this
      ensures Valid() && elements == old(elements)
      ensures old(Contents()) == [] ==> r == None && Contents() == []
      ensures old(Contents()) != [] ==> r.Some? && old(Contents()) == Contents() + [r.value]
    {
      if topPtr == -1 {
        r := None;
      } else {
        r := Some(elements[topPtr]);
        topPtr := topPtr - 1;
      }
    }
  }
}

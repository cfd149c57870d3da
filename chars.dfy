/** The character cursor of `file/contents/Chars.kt`. */
module CharCursor {
  import opened Wrappers

  class Chars {
    const text: string
    var at: nat

    ghost predicate Valid()
      reads this
    {
      at <= |text|
    }

    constructor(text: string)
      ensures Valid() && this.text == text && at == 0
    {
      this.text := text;
      at := 0;
    }

    /** The character under the cursor, if any. */
    function Peek(): (c: Option<char>)
      reads this
      requires Valid()
      ensures c.Some? <==> at < |text|
      ensures c.Some? ==> c.value == text[at]
    {
      if at < |text| then Some(text[at]) else None
    }

    /** The next `n` characters, if that many remain. */
    function PeekN(n: nat): (s: Option<string>)
      reads this
      requires Valid()
      ensures s.Some? <==> n <= |text| - at
      ensures s.Some? ==> s.value == text[at..at + n]
    {
      if n <= Remaining() then Some(text[at..at + n]) else None
    }

    function Remaining(): (n: nat)
      reads this
      requires Valid()
      ensures at + n == |text|
    {
      |text| - at
    }

    /** Returns the character under the cursor and moves past it; at the end nothing moves. */
    method Next() returns (c: Option<char>)
      requires Valid()
      modifies this
      ensures Valid() && c == old(Peek())
      ensures at == if c.Some? then old(at) + 1 else old(at)
    {
      c := Peek();
      if c.Some? {
        at := at + 1;
      }
    }
  }
}

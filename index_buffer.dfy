/**
 * miniRT's index buffer: the renderer's own copy of a caller's array of vertex
 * indices (three per triangle).
 */
module IndexBuffers {

  class IndexBuffer {
    var pi: array<int>
    var nb: int

    ghost predicate Valid()
      reads this
    {
      nb > 0 && pi.Length == nb
    }

    /** The indices the buffer holds, in order. */
    function Contents(): seq<int>
      reads this, pi
    {
      pi[..]
    }

    /**
     * `index_buffer(ib, l)`: requires l > 0 and a source of at least l ints; copies
     * exactly the first l of them into a freshly allocated array.
     */
    constructor (ib: array<int>, l: int)
      requires 0 < l <= ib.Length
      ensures Valid() && fresh(pi)
      ensures Contents() == ib[..l] && Size() == l
    {
      var copy := new int[l];
      var k := 0;
      while k < l
        invariant 0 <= k <= l
        invariant copy[..k] == ib[..k]
      {
        copy[k] := ib[k];
        k := k + 1;
      }
      nb := l;
      pi := copy;
    }

    /** `size()`. */
    function Size(): (n: int)
      reads this
      requires Valid()
      ensures n > 0 && n == |Contents()|
    {
      nb
    }

    /** `get(i)`: requires 0 <= i < size() and reads the i-th index. */
    function Get(i: int): (v: int)
      reads this, pi
      requires Valid() && 0 <= i < Size()
      ensures v == Contents()[i]
    {
      pi[i]
    }

    /** A write through the reference `operator[](i)` hands out: element i changes, nothing else. */
    method SetAt(i: int, v: int)
      requires Valid() && 0 <= i < Size()
      modifies pi
      ensures Valid() && Contents() == old(Contents())[i := v]
      ensures Get(i) == v && Size() == old(Size())
    {
      pi[i] := v;
    }
  }

  /**
   * The buffer owns its copy: after construction, writing into the caller's array
   * leaves the buffer's contents as they were.
   */
  method CopyIsIndependent(ib: array<int>, l: int, j: int, v: int) returns (b: IndexBuffer)
    requires 0 < l <= ib.Length && 0 <= j < ib.Length
    modifies ib
    ensures b.Valid() && b.Contents() == old(ib[..l])
    ensures ib[j] == v
  {
    b := new IndexBuffer(ib, l);
    ib[j] := v;
  }
}

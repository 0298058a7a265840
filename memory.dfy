/** The growable response buffer that libcurl's write callback fills
    (struct MemoryStruct and WriteMemoryCallback in source/main.c). */
module Memory {
  import opened CLib

  /** What the callback does: return the number of bytes it took, or end the
      process with EXIT_FAILURE because realloc returned NULL. */
  datatype CallbackResult = Returned(n: nat) | ExitFailure

  class MemoryStruct {
    var memory: array<char>
    var size: nat

    /** The buffer holds size received bytes followed by a NUL, and no more. */
    ghost predicate Valid()
      reads this, memory
    {
      memory.Length == size + 1 && memory[size] == NUL
    }

    /** The bytes received so far. */
    ghost function Contents(): seq<char>
      reads this, memory
      requires Valid()
    {
      memory[..size]
    }

    /** A one-byte allocation holding the empty string. (The source leaves that
        byte uninitialised; here it is the terminator.) */
    constructor ()
      ensures Valid() && fresh(memory)
      ensures size == 0 && Contents() == []
    {
      memory := new char[1](_ => NUL);
      size := 0;
    }

    /** WriteMemoryCallback: grow the buffer to old size + itemSize * itemCount + 1
        bytes, copy the new bytes in after the old ones, advance size and put the
        NUL back at the end. allocOk is the allocator's answer to the realloc. */
    method Append(content: seq<char>, itemSize: nat, itemCount: nat, allocOk: bool) returns (r: CallbackResult)
      requires Valid()
      requires |content| == itemSize * itemCount
      modifies this
      ensures Valid()
      ensures r == if allocOk then Returned(itemSize * itemCount) else ExitFailure
      ensures allocOk ==> fresh(memory) && size == old(size) + itemSize * itemCount
      ensures allocOk ==> memory[..old(size)] == old(memory[..size])
      ensures allocOk ==> memory[old(size)..size] == content
      ensures allocOk ==> Contents() == old(Contents()) + content
      ensures !allocOk ==> memory == old(memory) && size == old(size)
    {
      var realsize := itemSize * itemCount;
      if !allocOk {
        return ExitFailure;
      }
      var n := size;
      var ptr := Realloc(memory, n + realsize + 1);
      MemCpy(ptr, n, content);
      ptr[n + realsize] := NUL;
      assert ptr[..n + realsize] == ptr[..n] + ptr[n..n + realsize];
      memory := ptr;
      size := n + realsize;
      r := Returned(realsize);
    }
  }

  /** strstr on the buffer sees the received bytes up to their first NUL. */
  lemma BufferCString(m: MemoryStruct)
    requires m.Valid()
    ensures CStr(m.memory[..]) == CStr(m.Contents())
  {
    assert m.memory[..] == m.Contents() + [NUL] + [];
    CStrStopsAtNul(m.Contents(), []);
  }
}

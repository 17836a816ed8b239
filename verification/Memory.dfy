/** The kernel's allocator, as far as the scull drivers see it. */
module Memory {
  import opened Bytes
  import opened Common

  class Allocator {
    ghost var failed: bool                         // some request was refused

    constructor ()
      ensures !failed
    {
      failed := false;
    }

    /** kmalloc: it may fail, and the memory it returns holds anything. */
    method Kmalloc(n: nat) returns (memory: Option<seq<byte>>)
      modifies this
      ensures memory.Some? ==> |memory.value| == n
      ensures failed == (old(failed) || memory.None?)
    {
      var fails: bool := *;
      if fails {
        failed := true;
        return None;
      }
      var bytes := new byte[n];
      memory := Some(bytes[..]);
    }
  }
}

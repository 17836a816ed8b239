/** What several components need: optional values, 32-bit wrap-around and a few facts about sequences. */
module Common {

  datatype Option<+T> = None | Some(value: T)

  function Min(a: nat, b: nat): nat { if a <= b then a else b }

  const WRAP: nat := 0x1_0000_0000                 // 32-bit counters wrap here

  /** Numbers less than one wrap apart that look the same are the same. */
  lemma SameResidue(a: nat, b: nat)
    requires a <= b < a + WRAP && a % WRAP == b % WRAP
    ensures a == b
  {
    assert a == a / WRAP * WRAP + a % WRAP && b == b / WRAP * WRAP + b % WRAP;
  }

  lemma Associative<T>(a: seq<T>, b: seq<T>, c: seq<T>)
    ensures a + (b + c) == (a + b) + c
  {
  }
}

/** Bytes, optional values and joined sequences. */
module Bytes {
  type Byte = b: int | 0 <= b < 0x100

  datatype Option<+T> = None | Some(value: T)

  /** All pieces joined in order. */
  function Flatten<T>(pieces: seq<seq<T>>): seq<T> {
    if pieces == [] then [] else pieces[0] + Flatten(pieces[1..])
  }

  lemma {:induction false} FlattenSnoc<T>(a: seq<seq<T>>, x: seq<T>)
    ensures Flatten(a + [x]) == Flatten(a) + x
  {
    if a == [] {
      assert [] + [x] == [x] && [x][1..] == [];
      assert x + [] == x && [] + x == x;
    } else {
      assert (a + [x])[1..] == a[1..] + [x];
      FlattenSnoc(a[1..], x);
      assert a[0] + (Flatten(a[1..]) + x) == a[0] + Flatten(a[1..]) + x;
    }
  }
}

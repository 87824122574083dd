/** Vocabulary shared by the models: optional values, and flattening of sequences of sequences. */
module Common {

  datatype Option<+T> = None | Some(value: T)

  type Byte = b: int | 0 <= b < 256

  // unsigned int and uint32_t arithmetic is taken modulo this number.
  const UINT32: nat := 0x1_0000_0000

  function Max(a: int, b: int): int {
    if a >= b then a else b
  }

  function Min(a: int, b: int): int {
    if a <= b then a else b
  }

  /** isdigit. */
  predicate IsDigit(ch: Byte) {
    48 <= ch <= 57
  }

  /** isspace, in the C locale. */
  predicate IsSpace(ch: Byte) {
    ch == 32 || 9 <= ch <= 13
  }

  /** All the elements, in order. Peels from the back, because the models grow at the back. */
  function Flatten<T>(xs: seq<seq<T>>): seq<T> {
    if xs == [] then [] else Flatten(xs[..|xs| - 1]) + xs[|xs| - 1]
  }

  lemma FlattenSnoc<T>(xs: seq<seq<T>>, x: seq<T>)
    ensures Flatten(xs + [x]) == Flatten(xs) + x
  {
    assert (xs + [x])[..|xs|] == xs;
  }

  lemma {:induction false} FlattenConcat<T>(xs: seq<seq<T>>, ys: seq<seq<T>>)
    ensures Flatten(xs + ys) == Flatten(xs) + Flatten(ys)
  {
    if ys == [] {
      assert xs + ys == xs;
    } else {
      var front := ys[..|ys| - 1];
      assert (xs + ys)[..|xs + ys| - 1] == xs + front;
      FlattenConcat(xs, front);
    }
  }

  lemma {:induction false} FlattenSplit<T>(xs: seq<seq<T>>, i: nat)
    requires i < |xs|
    ensures Flatten(xs) == Flatten(xs[..i]) + xs[i] + Flatten(xs[i + 1..])
  {
    var last := |xs| - 1;
    var front, rest := xs[..last], xs[i + 1..];
    if i == last {
      assert rest == [];
    } else {
      FlattenSplit(front, i);
      assert front[..i] == xs[..i];
      assert front[i + 1..] == rest[..|rest| - 1];
      assert Flatten(rest) == Flatten(front[i + 1..]) + xs[last];
    }
  }

  lemma {:induction false} FlattenNothing<T>(xs: seq<seq<T>>)
    requires forall k | 0 <= k < |xs| :: xs[k] == []
    ensures Flatten(xs) == []
  {
    if xs != [] {
      FlattenNothing(xs[..|xs| - 1]);
    }
  }

  /** The elements of the first n sequences are a prefix of all the elements. */
  lemma {:induction false} FlattenPrefix<T>(xs: seq<seq<T>>, n: nat)
    requires n <= |xs|
    ensures Flatten(xs[..n]) <= Flatten(xs)
  {
    assert xs == xs[..n] + xs[n..];
    FlattenConcat(xs[..n], xs[n..]);
  }
}

/** Vocabulary shared by the whole model: 64-bit addresses, bytes, and an option type. */
module Base {
  datatype Option<+T> = None | Some(value: T) {
    predicate IsFailure() { None? }

    function PropagateFailure<U>(): Option<U>
      requires None?
    {
      None
    }

    function Extract(): T
      requires Some?
    {
      value
    }
  }

  const TWO_TO_THE_64 := 0x1_0000_0000_0000_0000

  /** A uint64. Arithmetic on it wraps around, which is written out with Wrap. */
  type Addr = a: int | 0 <= a < TWO_TO_THE_64

  type Byte = b: int | 0 <= b < 256

  function Wrap(x: int): Addr {
    x % TWO_TO_THE_64
  }

  /** Cutting one element out of a list takes one occurrence away. */
  lemma Removed<T>(s: seq<T>, i: nat)
    requires i < |s|
    ensures multiset(s[..i] + s[i + 1..]) == multiset(s) - multiset{s[i]}
  {
    assert s == s[..i] + [s[i]] + s[i + 1..];
  }

  /** A list that is built by a loop: what is done, and what is still to come or a failure. */
  predicate Continues<T(==)>(all: Option<seq<T>>, done: seq<T>, rest: Option<seq<T>>) {
    if rest.None? then all.None? else all == Some(done + rest.value)
  }

  lemma ContinuesStart<T>(all: Option<seq<T>>, done: seq<T>)
    ensures Continues(all, [], all)
    ensures Continues(all, done, Some([])) ==> all == Some(done)
    ensures Continues(all, done, None) ==> all.None?
  {
    assert all.Some? ==> [] + all.value == all.value;
    assert done + [] == done;
  }

  lemma ContinuesStep<T>(all: Option<seq<T>>, done: seq<T>, x: T, rest: Option<seq<T>>, tail: Option<seq<T>>)
    requires Continues(all, done, rest)
    requires rest == if tail.None? then None else Some([x] + tail.value)
    ensures Continues(all, done + [x], tail)
  {
    assert tail.Some? ==> done + ([x] + tail.value) == done + [x] + tail.value;
  }
}

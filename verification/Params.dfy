/** Parameters whose location the debug information does not give, and how the locations are inferred. */
module Params {
  import opened Base

  /** A parameter; without a known location `exist` is false and the offset zero. */
  datatype Parameter = Parameter(name: string, size: nat, offset: int, isOutput: bool, exist: bool)

  // ----- sorting

  /** No element is followed by a smaller one. */
  ghost predicate Sorted<T(!new)>(s: seq<T>, less: (T, T) -> bool) {
    forall i, j :: 0 <= i < j < |s| ==> !less(s[j], s[i])
  }

  ghost predicate StrictlySorted<T(!new)>(s: seq<T>, less: (T, T) -> bool) {
    forall i, j :: 0 <= i < j < |s| ==> less(s[i], s[j])
  }

  ghost predicate StrictWeakOrder<T(!new)>(less: (T, T) -> bool) {
    && (forall x, y :: less(x, y) ==> !less(y, x))
    && (forall x, y, z :: less(x, z) ==> less(x, y) || less(y, z))
  }

  lemma SameFirst<T(!new)>(s: seq<T>, t: seq<T>, less: (T, T) -> bool)
    requires StrictWeakOrder(less) && Sorted(s, less) && StrictlySorted(t, less) && multiset(s) == multiset(t)
    requires s != []
    ensures t != [] && s[0] == t[0]
  {
    assert s[0] in multiset(t);
    assert t[0] in multiset(s);
    var i :| 0 <= i < |s| && s[i] == t[0];
    var j :| 0 <= j < |t| && t[j] == s[0];
    assert i > 0 ==> !less(s[i], s[0]);
    assert j > 0 ==> less(t[0], t[j]);
  }

  lemma SameRest<T>(s: seq<T>, t: seq<T>)
    requires multiset(s) == multiset(t) && s != [] && t != [] && s[0] == t[0]
    ensures multiset(s[1..]) == multiset(t[1..])
    ensures s[1..] == t[1..] ==> s == t
  {
    assert s == [s[0]] + s[1..] && t == [t[0]] + t[1..];
    assert multiset(s[1..]) == multiset(s) - multiset{s[0]};
    assert multiset(t[1..]) == multiset(t) - multiset{t[0]};
  }

  /** What a sort yields is determined when the elements can be put in strict order. */
  lemma {:induction false} OnlyOneOrder<T(!new)>(s: seq<T>, t: seq<T>, less: (T, T) -> bool)
    requires StrictWeakOrder(less) && Sorted(s, less) && StrictlySorted(t, less) && multiset(s) == multiset(t)
    ensures s == t
  {
    hide StrictWeakOrder;
    if s != [] {
      SameFirst(s, t, less);
      SameRest(s, t);
      OnlyOneOrder(s[1..], t[1..], less);
    } else {
      assert |multiset(t)| == |t|;
    }
  }

  method Insert<T(!new)>(s: seq<T>, x: T, less: (T, T) -> bool) returns (longer: seq<T>)
    requires StrictWeakOrder(less) && Sorted(s, less)
    ensures Sorted(longer, less) && multiset(longer) == multiset(s) + multiset{x}
  {
    hide Sorted, StrictWeakOrder;
    var i := |s|;
    while i > 0 && less(x, s[i - 1])
      invariant 0 <= i <= |s|
      invariant forall j :: i <= j < |s| ==> less(x, s[j])
    {
      i := i - 1;
    }
    longer := s[..i] + [x] + s[i..];
    Inserted(s, longer, i, x, less);
    assert s == s[..i] + s[i..];
  }

  /** Nothing is promised about the order of elements that are equivalent. */
  method SortSlice<T(!new)>(s: seq<T>, less: (T, T) -> bool) returns (sorted: seq<T>)
    requires StrictWeakOrder(less)
    ensures Sorted(sorted, less) && multiset(sorted) == multiset(s)
  {
    hide StrictWeakOrder;
    sorted := [];
    for k := 0 to |s|
      invariant Sorted(sorted, less) && multiset(sorted) == multiset(s[..k])
    {
      sorted := Insert(sorted, s[k], less);
      assert s[..k + 1] == s[..k] + [s[k]];
    }
    assert s[..|s|] == s;
  }

  lemma Inserted<T(!new)>(s: seq<T>, t: seq<T>, i: nat, x: T, less: (T, T) -> bool)
    requires StrictWeakOrder(less) && Sorted(s, less) && i <= |s| && |t| == |s| + 1
    requires t[i] == x && (forall j :: 0 <= j < i ==> t[j] == s[j]) && forall j :: i < j < |t| ==> t[j] == s[j - 1]
    requires i > 0 ==> !less(x, s[i - 1])
    requires forall j :: i <= j < |s| ==> less(x, s[j])
    ensures Sorted(t, less)
  {
    forall j, k | 0 <= j < k < |t|
      ensures !less(t[k], t[j])
    {
      if k == i {
        assert j < i - 1 ==> !less(s[i - 1], s[j]);
      }
    }
  }

  predicate Before(a: Parameter, b: Parameter) {
    a.offset < b.offset
  }

  /** Strings are compared character by character. */
  predicate NameLess(a: string, b: string) {
    b != [] && (a == [] || a[0] < b[0] || (a[0] == b[0] && NameLess(a[1..], b[1..])))
  }

  predicate ByName(a: Parameter, b: Parameter) {
    NameLess(a.name, b.name)
  }

  lemma {:induction false} NamesAreOrdered(a: string, b: string, c: string)
    ensures NameLess(a, b) ==> !NameLess(b, a)
    ensures NameLess(a, c) ==> NameLess(a, b) || NameLess(b, c)
  {
    if a != [] && b != [] && c != [] {
      NamesAreOrdered(a[1..], b[1..], c[1..]);
    } else if a != [] && b != [] {
      NamesAreOrdered(a[1..], b[1..], []);
    }
  }

  lemma Orders()
    ensures StrictWeakOrder(Before) && StrictWeakOrder(ByName)
  {
    forall a: Parameter, b: Parameter, c: Parameter
      ensures ByName(a, b) ==> !ByName(b, a)
      ensures ByName(a, c) ==> ByName(a, b) || ByName(b, c)
    {
      NamesAreOrdered(a.name, b.name, c.name);
    }
  }

  // ----- layouts

  function TotalSize(ps: seq<Parameter>): nat {
    if ps == [] then 0 else ps[0].size + TotalSize(ps[1..])
  }

  /** One parameter after the other fills [lo, hi) without a gap. */
  predicate Tiles(ps: seq<Parameter>, lo: int, hi: int) {
    if ps == [] then lo == hi
    else ps[0].exist && ps[0].offset == lo && ps[0].size > 0 && Tiles(ps[1..], lo + ps[0].size, hi)
  }

  function Forget(p: Parameter): Parameter {
    p.(exist := false, offset := 0)
  }

  function ForgetAll(ps: seq<Parameter>): seq<Parameter> {
    seq(|ps|, i requires 0 <= i < |ps| => Forget(ps[i]))
  }

  function Knowns(ps: seq<Parameter>): seq<Parameter> {
    if ps == [] then [] else (if ps[0].exist then [ps[0]] else []) + Knowns(ps[1..])
  }

  function Outputs(ps: seq<Parameter>): seq<Parameter> {
    if ps == [] then []
    else
      var last := ps[|ps| - 1];
      Outputs(ps[..|ps| - 1]) + if last.isOutput then [last] else []
  }

  lemma {:induction false} KnownsCount(ps: seq<Parameter>, x: Parameter)
    ensures multiset(Knowns(ps))[x] == if x.exist then multiset(ps)[x] else 0
    ensures |Knowns(ps)| <= |ps|
  {
    if ps != [] {
      KnownsCount(ps[1..], x);
      assert ps == [ps[0]] + ps[1..];
    }
  }

  lemma {:induction false} OutputsCount(ps: seq<Parameter>, x: Parameter)
    ensures multiset(Outputs(ps))[x] == if x.isOutput then multiset(ps)[x] else 0
  {
    if ps != [] {
      OutputsCount(ps[..|ps| - 1], x);
      assert ps == ps[..|ps| - 1] + [ps[|ps| - 1]];
    }
  }

  lemma {:induction false} TotalSizeAppend(s: seq<Parameter>, t: seq<Parameter>)
    ensures TotalSize(s + t) == TotalSize(s) + TotalSize(t)
  {
    if s == [] {
      assert s + t == t;
    } else {
      assert (s + t)[1..] == s[1..] + t;
      TotalSizeAppend(s[1..], t);
    }
  }

  lemma {:induction false} TotalSizePermuted(s: seq<Parameter>, t: seq<Parameter>)
    requires multiset(s) == multiset(t)
    ensures TotalSize(s) == TotalSize(t) && |s| == |t|
  {
    assert |multiset(s)| == |s| && |multiset(t)| == |t|;
    if s != [] {
      var i := RemoveBoth(s, t);
      TotalSizePermuted(s[1..], t[..i] + t[i + 1..]);
      TotalSizeAppend(t[..i], t[i + 1..]);
      TotalSizeAppend(t[..i], t[i..]);
      assert t == t[..i] + t[i..] && t[i..][1..] == t[i + 1..];
    }
  }

  lemma RemoveBoth<T>(s: seq<T>, t: seq<T>) returns (i: nat)
    requires s != [] && multiset(s) == multiset(t)
    ensures i < |t| && t[i] == s[0] && multiset(s[1..]) == multiset(t[..i] + t[i + 1..])
  {
    assert s[0] in multiset(t);
    i :| 0 <= i < |t| && t[i] == s[0];
    Removed(t, i);
    assert s == [s[0]] + s[1..];
    assert multiset(s[1..]) == multiset(s) - multiset{s[0]};
  }

  /** Consecutive offsets from start on. */
  function Place(ps: seq<Parameter>, start: int): seq<Parameter> {
    if ps == [] then [] else [ps[0].(exist := true, offset := start)] + Place(ps[1..], start + ps[0].size)
  }

  lemma {:induction false} PlaceRestores(ps: seq<Parameter>, lo: int, hi: int)
    requires Tiles(ps, lo, hi)
    ensures Place(ForgetAll(ps), lo) == ps && hi == lo + TotalSize(ps)
  {
    if ps != [] {
      PlaceRestores(ps[1..], lo + ps[0].size, hi);
      assert ForgetAll(ps)[1..] == ForgetAll(ps[1..]);
      assert ps[0] == ForgetAll(ps)[0].(exist := true, offset := lo);
    }
  }

  lemma {:induction false} TilesOrder(ps: seq<Parameter>, lo: int, hi: int)
    requires Tiles(ps, lo, hi)
    ensures StrictlySorted(ps, Before) && Knowns(ps) == ps
    ensures forall i :: 0 <= i < |ps| ==> ps[i].exist && lo <= ps[i].offset && ps[i].offset + ps[i].size <= hi
    ensures lo <= hi
  {
    if ps != [] {
      TilesOrder(ps[1..], lo + ps[0].size, hi);
      forall i, j | 0 <= i < j < |ps|
        ensures Before(ps[i], ps[j])
      {
        assert ps[j] == ps[1..][j - 1];
        if i > 0 {
          assert Before(ps[1..][i - 1], ps[1..][j - 1]);
        }
      }
    }
  }

  lemma {:induction false} TilesConcat(s: seq<Parameter>, t: seq<Parameter>, lo: int, hi: int)
    requires Tiles(s + t, lo, hi)
    ensures Tiles(s, lo, lo + TotalSize(s)) && Tiles(t, lo + TotalSize(s), hi)
  {
    if s == [] {
      assert s + t == t;
    } else {
      assert (s + t)[1..] == s[1..] + t && (s + t)[0] == s[0];
      TilesConcat(s[1..], t, lo + s[0].size, hi);
    }
  }

  // ----- output parameters

  predicate Distinct(order: seq<nat>) {
    forall a, b :: 0 <= a < b < |order| ==> order[a] != order[b]
  }

  predicate IndexesOf(order: seq<nat>, n: nat) {
    forall k :: 0 <= k < |order| ==> order[k] < n
  }

  function Pick(ps: seq<Parameter>, order: seq<nat>): seq<Parameter>
    requires IndexesOf(order, |ps|)
  {
    seq(|order|, k requires 0 <= k < |order| => ps[order[k]])
  }

  /** Consecutive offsets for the elements with the given indexes. */
  function Fill(ps: seq<Parameter>, order: seq<nat>, start: int): (filled: seq<Parameter>)
    requires IndexesOf(order, |ps|)
    ensures |filled| == |ps|
    decreases |order|
  {
    if order == [] then ps
    else Fill(ps[order[0] := ps[order[0]].(exist := true, offset := start)], order[1..], start + ps[order[0]].size)
  }

  lemma Updated<T>(s: seq<T>, i: nat, x: T)
    requires i < |s|
    ensures multiset(s[i := x]) == multiset(s) - multiset{s[i]} + multiset{x}
  {
  }

  lemma PickFirst(ps: seq<Parameter>, order: seq<nat>, p: Parameter)
    requires IndexesOf(order, |ps|) && Distinct(order) && order != []
    ensures Pick(ps[order[0] := p], order[1..]) == Pick(ps, order[1..])
    ensures Pick(ps, order) == [ps[order[0]]] + Pick(ps, order[1..])
  {
  }

  lemma FillFirst(ps: seq<Parameter>, order: seq<nat>, start: int)
    requires IndexesOf(order, |ps|) && order != []
    ensures var i := order[0];
            Fill(ps, order, start)
            == Fill(ps[i := ps[i].(exist := true, offset := start)], order[1..], start + ps[i].size)
  {
  }

  lemma PlaceFirst(p: Parameter, rest: seq<Parameter>, start: int)
    ensures Place([p] + rest, start) == [p.(exist := true, offset := start)] + Place(rest, start + p.size)
  {
    assert ([p] + rest)[1..] == rest;
  }

  lemma Exchange<T>(a: multiset<T>, x: T, y: T, b: multiset<T>, c: multiset<T>)
    requires multiset{x} + b <= a
    ensures a - multiset{x} + multiset{y} - b + c == a - (multiset{x} + b) + (multiset{y} + c)
  {
    assert b <= a - multiset{x};
  }

  /** Seen as a collection, filling replaces the picked elements by the placed ones. */
  lemma {:induction false} FillExchanges(ps: seq<Parameter>, order: seq<nat>, start: int)
    requires IndexesOf(order, |ps|) && Distinct(order)
    ensures multiset(Fill(ps, order, start))
            == multiset(ps) - multiset(Pick(ps, order)) + multiset(Place(Pick(ps, order), start))
    decreases |order|
  {
    hide Pick, Place, Fill;
    if order != [] {
      var i := order[0];
      var p := ps[i].(exist := true, offset := start);
      var rest := Pick(ps, order[1..]);
      FillFirst(ps, order, start);
      PickFirst(ps, order, p);
      PlaceFirst(ps[i], rest, start);
      Updated(ps, i, p);
      FillExchanges(ps[i := p], order[1..], start + ps[i].size);
      forall x
        ensures multiset(Pick(ps, order))[x] <= multiset(ps)[x]
      {
        PickedWithin(ps, order, x);
      }
      Exchange(multiset(ps), ps[i], p, multiset(rest), multiset(Place(rest, start + ps[i].size)));
    } else {
      PickNone(ps, start);
    }
  }

  lemma PickNone(ps: seq<Parameter>, start: int)
    ensures Pick(ps, []) == [] && Place([], start) == [] && Fill(ps, [], start) == ps
  {
  }

  lemma {:induction false} PickedWithin(ps: seq<Parameter>, order: seq<nat>, x: Parameter)
    requires IndexesOf(order, |ps|) && Distinct(order)
    ensures multiset(Pick(ps, order))[x] <= multiset(ps)[x]
    decreases |order|
  {
    if order != [] {
      var i, rest := order[0], order[1..];
      var q := ps[i := x.(size := x.size + 1)];
      PickedWithin(q, rest, x);
      assert Pick(q, rest) == Pick(ps, rest);
      assert Pick(ps, order) == [ps[i]] + Pick(ps, rest);
    }
  }

  function OutputIndexes(ps: seq<Parameter>): (order: seq<nat>)
    ensures IndexesOf(order, |ps|) && Distinct(order)
  {
    if ps == [] then []
    else OutputIndexes(ps[..|ps| - 1]) + if ps[|ps| - 1].isOutput then [|ps| - 1] else []
  }

  lemma {:induction false} OutputsPicked(ps: seq<Parameter>)
    ensures Pick(ps, OutputIndexes(ps)) == Outputs(ps)
  {
    if ps != [] {
      OutputsPicked(ps[..|ps| - 1]);
    }
  }

  lemma PutBack<T>(a: multiset<T>, x: T)
    requires x in a
    ensures a - multiset{x} + multiset{x} == a
  {
  }

  lemma PickRemoved(ps: seq<Parameter>, order: seq<nat>, i: nat)
    requires IndexesOf(order, |ps|) && i < |order|
    ensures multiset(Pick(ps, order)) == multiset(Pick(ps, order[..i] + order[i + 1..])) + multiset{ps[order[i]]}
  {
    var picked := Pick(ps, order);
    Removed(picked, i);
    assert Pick(ps, order[..i] + order[i + 1..]) == picked[..i] + picked[i + 1..];
    PutBack(multiset(picked), picked[i]);
  }

  lemma {:induction false} PickPermuted(ps: seq<Parameter>, o1: seq<nat>, o2: seq<nat>)
    requires IndexesOf(o1, |ps|) && IndexesOf(o2, |ps|) && multiset(o1) == multiset(o2)
    ensures multiset(Pick(ps, o1)) == multiset(Pick(ps, o2))
  {
    hide Pick;
    if o1 != [] {
      var i := RemoveBoth(o1, o2);
      PickPermuted(ps, o1[1..], o2[..i] + o2[i + 1..]);
      assert o1[..0] + o1[1..] == o1[1..];
      PickRemoved(ps, o1, 0);
      PickRemoved(ps, o2, i);
    } else {
      assert |multiset(o2)| == |o2|;
    }
  }

  lemma PermutedIndexes(o1: seq<nat>, o2: seq<nat>, n: nat)
    requires multiset(o1) == multiset(o2) && IndexesOf(o2, n) && Distinct(o2)
    ensures IndexesOf(o1, n) && Distinct(o1)
  {
    forall k | 0 <= k < |o1|
      ensures o1[k] < n
    {
      assert o1[k] in multiset(o2);
    }
    forall a, b | 0 <= a < b < |o1|
      ensures o1[a] != o1[b]
    {
      OnceOnly(o2, o1[a]);
      assert o1 == o1[..b] + o1[b..] && o1[a] in o1[..b];
      assert o1[b..][0] == o1[b];
      assert multiset(o1) == multiset(o1[..b]) + multiset(o1[b..]);
    }
  }

  lemma {:induction false} OnceOnly(order: seq<nat>, x: nat)
    requires Distinct(order)
    ensures multiset(order)[x] <= 1
  {
    if order != [] {
      OnceOnly(order[1..], x);
      assert order == [order[0]] + order[1..];
      assert order[0] !in order[1..];
    }
  }

  function NameOf(ps: seq<Parameter>, i: nat): string {
    if i < |ps| then ps[i].name else ""
  }

  lemma NamesOrder(ps: seq<Parameter>)
    ensures StrictWeakOrder((i: nat, j: nat) => NameLess(NameOf(ps, i), NameOf(ps, j)))
  {
    forall i: nat, j: nat, k: nat
      ensures NameLess(NameOf(ps, i), NameOf(ps, j)) ==> !NameLess(NameOf(ps, j), NameOf(ps, i))
      ensures NameLess(NameOf(ps, i), NameOf(ps, k)) ==>
                NameLess(NameOf(ps, i), NameOf(ps, j)) || NameLess(NameOf(ps, j), NameOf(ps, k))
    {
      NamesAreOrdered(NameOf(ps, i), NameOf(ps, j), NameOf(ps, k));
    }
  }

  /** The collection with its outputs placed, in the order of their names, behind everything else. */
  ghost predicate OutputsFilled(before: seq<Parameter>, outs: seq<Parameter>, after: multiset<Parameter>) {
    && Sorted(outs, ByName) && multiset(outs) == multiset(Outputs(before))
    && var start := TotalSize(before) - TotalSize(Outputs(before));
       after == multiset(before) - multiset(outs) + multiset(Place(outs, start))
  }

  method CollectOutputs(params: array<Parameter>)
    returns (outputIndexes: seq<nat>, totalSize: int, totalOutputSize: int)
    ensures outputIndexes == OutputIndexes(params[..])
    ensures totalSize == TotalSize(params[..]) && totalOutputSize == TotalSize(Outputs(params[..]))
  {
    hide TotalSize, Outputs, OutputIndexes;
    outputIndexes, totalSize, totalOutputSize := [], 0, 0;
    EmptySizes();
    for i := 0 to params.Length
      invariant outputIndexes == OutputIndexes(params[..i])
      invariant totalSize == TotalSize(params[..i]) && totalOutputSize == TotalSize(Outputs(params[..i]))
    {
      var param := params[i];
      assert params[..i + 1][..i] == params[..i];
      SizesGrow(params[..i + 1]);
      if param.isOutput {
        outputIndexes := outputIndexes + [i];
        totalOutputSize := totalOutputSize + param.size;
      }
      totalSize := totalSize + param.size;
    }
    assert params[..params.Length] == params[..];
  }

  lemma EmptySizes()
    ensures TotalSize([]) == 0 && TotalSize(Outputs([])) == 0 && OutputIndexes([]) == []
  {
  }

  lemma FillFills(ps: seq<Parameter>, order: seq<nat>, start: int)
    requires IndexesOf(order, |ps|) && Distinct(order) && multiset(order) == multiset(OutputIndexes(ps))
    requires Sorted(order, (i: nat, j: nat) => NameLess(NameOf(ps, i), NameOf(ps, j)))
    requires start == TotalSize(ps) - TotalSize(Outputs(ps))
    ensures OutputsFilled(ps, Pick(ps, order), multiset(Fill(ps, order, start)))
  {
    hide ByName, Pick, Place, Fill, TotalSize, Outputs, OutputIndexes, Sorted, NameOf, Distinct;
    FillExchanges(ps, order, start);
    OutputsPicked(ps);
    PickPermuted(ps, order, OutputIndexes(ps));
    PickedByName(ps, order);
  }

  method DoFillInOutputParameters(params: array<Parameter>) returns (ghost outs: seq<Parameter>)
    modifies params
    ensures OutputsFilled(old(params[..]), outs, multiset(params[..]))
  {
    hide Sorted, StrictWeakOrder, NameLess, Pick, TotalSize, Outputs, OutputIndexes, OutputsFilled, Fill, Distinct;
    var outputIndexes, totalSize, totalOutputSize := CollectOutputs(params);
    var ps := params[..];
    NamesOrder(ps);
    var order := SortSlice(outputIndexes, (i: nat, j: nat) => NameLess(NameOf(ps, i), NameOf(ps, j)));
    PermutedIndexes(order, outputIndexes, |ps|);
    FillFills(ps, order, totalSize - totalOutputSize);
    outs := Pick(ps, order);
    PlaceAll(params, order, totalSize - totalOutputSize);
  }

  lemma SizesGrow(ps: seq<Parameter>)
    requires ps != []
    ensures var init, last := ps[..|ps| - 1], ps[|ps| - 1];
            && TotalSize(ps) == TotalSize(init) + last.size
            && OutputIndexes(ps) == OutputIndexes(init) + (if last.isOutput then [|init|] else [])
            && TotalSize(Outputs(ps)) == TotalSize(Outputs(init)) + if last.isOutput then last.size else 0
  {
    var init, last := ps[..|ps| - 1], ps[|ps| - 1];
    assert ps == init + [last];
    TotalSizeAppend(init, [last]);
    TotalSizeAppend(Outputs(init), [last]);
    assert Outputs(init) + [] == Outputs(init);
  }

  lemma PickedByName(ps: seq<Parameter>, order: seq<nat>)
    requires IndexesOf(order, |ps|) && Sorted(order, (i: nat, j: nat) => NameLess(NameOf(ps, i), NameOf(ps, j)))
    ensures Sorted(Pick(ps, order), ByName)
  {
  }

  method PlaceAll(params: array<Parameter>, outputIndexes: seq<nat>, start: int)
    requires IndexesOf(outputIndexes, params.Length)
    modifies params
    ensures params[..] == Fill(old(params[..]), outputIndexes, start)
  {
    var currOffset := start;
    for k := 0 to |outputIndexes|
      invariant Fill(params[..], outputIndexes[k..], currOffset) == Fill(old(params[..]), outputIndexes, start)
    {
      var i := outputIndexes[k];
      assert outputIndexes[k..][1..] == outputIndexes[k + 1..];
      ghost var ps := params[..];
      params[i] := params[i].(exist := true, offset := currOffset);
      assert params[..] == ps[i := params[i]];
      currOffset := currOffset + params[i].size;
    }
  }

  predicate HasPrefix(s: string, prefix: string) {
    |prefix| <= |s| && s[..|prefix|] == prefix
  }

  predicate NoPadding(ps: seq<Parameter>, argsSize: Option<nat>) {
    argsSize == Some(TotalSize(ps))
  }

  /** No output is located yet, all have the names the compiler makes up, and there is no padding. */
  predicate CanFillInOutputParameters(ps: seq<Parameter>, argsSize: Option<nat>) {
    && (forall i :: 0 <= i < |ps| && ps[i].isOutput ==> !ps[i].exist && HasPrefix(ps[i].name, "~r"))
    && NoPadding(ps, argsSize)
  }

  method SortByOffset(params: array<Parameter>)
    modifies params
    ensures Sorted(params[..], Before) && multiset(params[..]) == old(multiset(params[..]))
  {
    hide Sorted;
    Orders();
    var sorted := SortSlice(params[..], Before);
    assert |multiset(sorted)| == |sorted| && |multiset(params[..])| == params.Length;
    for i := 0 to params.Length
      invariant params[..i] == sorted[..i]
    {
      params[i] := sorted[i];
    }
    assert params[..] == params[..params.Length] && sorted == sorted[..params.Length];
  }

  /** argsSize is the size of the arguments that the function table gives, if there is an entry. */
  method FillInOutputParameters(params: array<Parameter>, argsSize: Option<nat>) returns (ghost outs: seq<Parameter>)
    modifies params
    ensures if CanFillInOutputParameters(old(params[..]), argsSize)
            then Sorted(params[..], Before) && OutputsFilled(old(params[..]), outs, multiset(params[..]))
            else params[..] == old(params[..])
  {
    outs := [];
    if CanFillInOutputParameters(params[..], argsSize) {
      outs := DoFillInOutputParameters(params);
      SortByOffset(params);
    }
  }

  // ----- the parameter that is missing

  /** The end of the first of these that is not followed immediately, and zero if there is none. */
  function FirstGap(ps: seq<Parameter>, argsSize: int): int {
    if ps == [] then 0
    else
      var next := if |ps| == 1 then argsSize else ps[1].offset;
      if ps[0].offset + ps[0].size != next then ps[0].offset + ps[0].size else FirstGap(ps[1..], argsSize)
  }

  predicate OneUnknown(ps: seq<Parameter>) {
    |Knowns(ps)| == |ps| - 1
  }

  method ArgsSize(ps: seq<Parameter>) returns (argsSize: nat)
    ensures argsSize == TotalSize(ps)
  {
    argsSize := 0;
    for i := 0 to |ps|
      invariant argsSize == TotalSize(ps[..i])
    {
      SizesGrow(ps[..i + 1]);
      assert ps[..i + 1][..i] == ps[..i];
      argsSize := argsSize + ps[i].size;
    }
    assert ps[..|ps|] == ps;
  }

  /** Each located parameter is compared with the next located one; a sentinel stands behind the last. */
  method CalculateUnknownParameterOffset(ps: seq<Parameter>) returns (offset: int)
    ensures OneUnknown(ps) ==> offset == FirstGap(Knowns(ps), TotalSize(ps))
  {
    hide Knowns, TotalSize;
    var argsSize := ArgsSize(ps);
    var params := ps + [Parameter("", 0, argsSize, false, true)];
    for i := 0 to |ps|
      invariant OneUnknown(ps) ==> |Knowns(ps[i..])| >= |ps| - i - 1
      invariant OneUnknown(ps) ==> FirstGap(Knowns(ps), argsSize) == FirstGap(Knowns(ps[i..]), argsSize)
    {
      KnownsStep(ps, i);
      if params[i].exist {
        var j := i + 1;
        if !params[j].exist {
          j := j + 1;
        }
        var nextOffset := params[i].offset + params[i].size;
        if OneUnknown(ps) {
          NextKnown(ps, i);
        }
        if nextOffset != params[j].offset {
          return nextOffset;
        }
      }
    }
    KnownsStep(ps, |ps|);
    offset := 0;
  }

  lemma KnownsStep(ps: seq<Parameter>, i: nat)
    requires i <= |ps|
    ensures i < |ps| ==> Knowns(ps[i..]) == if ps[i].exist then [ps[i]] + Knowns(ps[i + 1..]) else Knowns(ps[i + 1..])
    ensures i == |ps| ==> Knowns(ps[i..]) == []
    ensures |Knowns(ps[i..])| <= |ps| - i
    ensures ps[0..] == ps
  {
    if i < |ps| {
      assert ps[i..][1..] == ps[i + 1..];
      KnownsCount(ps[i..], ps[i]);
    }
  }

  lemma NextKnown(ps: seq<Parameter>, i: nat)
    requires i < |ps| && ps[i].exist && |Knowns(ps[i..])| >= |ps| - i - 1
    ensures var rest := Knowns(ps[i + 1..]);
            && Knowns(ps[i..]) == [ps[i]] + rest && Knowns(ps[i..])[1..] == rest
            && (i + 1 == |ps| ==> rest == [])
            && (i + 1 < |ps| && ps[i + 1].exist ==> rest != [] && rest[0] == ps[i + 1])
            && (i + 2 == |ps| && !ps[i + 1].exist ==> rest == [])
            && (i + 2 < |ps| && !ps[i + 1].exist ==> rest != [] && rest[0] == ps[i + 2])
  {
    assert ps[i..][1..] == ps[i + 1..];
    if i + 1 < |ps| {
      assert ps[i + 1..][1..] == ps[i + 2..];
      if i + 2 < |ps| {
        assert ps[i + 2..][1..] == ps[i + 3..];
        KnownsCount(ps[i + 3..], ps[i]);
      }
    }
  }

  predicate CanFillInUnknownParameter(ps: seq<Parameter>, argsSize: Option<nat>) {
    OneUnknown(ps) && NoPadding(ps, argsSize)
  }

  method NumNonExistParams(ps: seq<Parameter>) returns (n: nat, last: nat)
    ensures n + |Knowns(ps)| == |ps|
    ensures n > 0 ==> last < |ps| && !ps[last].exist
  {
    hide Knowns;
    n, last := 0, 0;
    for i := 0 to |ps|
      invariant n + |Knowns(ps)| == i + |Knowns(ps[i..])|
      invariant n > 0 ==> last < |ps| && !ps[last].exist
    {
      KnownsStep(ps, i);
      if !ps[i].exist {
        n, last := n + 1, i;
      }
    }
    KnownsStep(ps, |ps|);
  }

  method FillInUnknownParameter(params: array<Parameter>, argsSize: Option<nat>) returns (ghost u: nat)
    modifies params
    ensures if CanFillInUnknownParameter(old(params[..]), argsSize)
            then && u < params.Length && !old(params[u]).exist && Sorted(params[..], Before)
                 && var offset := FirstGap(Knowns(old(params[..])), TotalSize(old(params[..])));
                    multiset(params[..])
                    == multiset(old(params[..])[u := old(params[u]).(exist := true, offset := offset)])
            else params[..] == old(params[..])
  {
    hide Sorted, Knowns, TotalSize, FirstGap;
    var ps := params[..];
    u := 0;
    var unknown, unknownParamIndex := NumNonExistParams(ps);
    if unknown != 1 || !NoPadding(ps, argsSize) {
      return;
    }
    u := unknownParamIndex;
    var offset := CalculateUnknownParameterOffset(ps);
    params[unknownParamIndex] := ps[unknownParamIndex].(exist := true, offset := offset);
    assert params[..] == ps[unknownParamIndex := params[unknownParamIndex]];
    SortByOffset(params);
  }

  // ----- the inferred locations are the right ones

  lemma {:induction false} PlaceTiles(ps: seq<Parameter>, start: int)
    requires forall i :: 0 <= i < |ps| ==> ps[i].size > 0
    ensures Tiles(Place(ps, start), start, start + TotalSize(ps))
    ensures |Place(ps, start)| == |ps| && forall i :: 0 <= i < |ps| ==> Place(ps, start)[i].name == ps[i].name
  {
    if ps != [] {
      PlaceTiles(ps[1..], start + ps[0].size);
      assert Place(ps, start)[1..] == Place(ps[1..], start + ps[0].size);
    }
  }

  lemma {:induction false} ForgetCount(ps: seq<Parameter>, x: Parameter)
    ensures multiset(ForgetAll(ps))[x] > 0 ==> exists i :: 0 <= i < |ps| && x == Forget(ps[i])
    ensures TotalSize(ForgetAll(ps)) == TotalSize(ps)
  {
    if x in multiset(ForgetAll(ps)) {
      assert x in ForgetAll(ps);
    }
    if ps != [] {
      assert ForgetAll(ps)[1..] == ForgetAll(ps[1..]);
      ForgetCount(ps[1..], x);
    }
  }

  /** Inputs and outputs in the order of their locations, without a gap. */
  predicate Layout(ins: seq<Parameter>, outs: seq<Parameter>, argsSize: int) {
    && Tiles(ins + outs, 0, argsSize)
    && (forall i :: 0 <= i < |ins| ==> !ins[i].isOutput)
    && (forall i :: 0 <= i < |outs| ==> outs[i].isOutput)
  }

  /** At most one location is forgotten. */
  function Masked(ps: seq<Parameter>, hidden: Option<nat>): (r: seq<Parameter>)
    ensures |r| == |ps|
  {
    if hidden.Some? && hidden.value < |ps| then ps[hidden.value := Forget(ps[hidden.value])] else ps
  }

  lemma MaskedSize(ps: seq<Parameter>, hidden: Option<nat>)
    ensures TotalSize(Masked(ps, hidden)) == TotalSize(ps)
  {
    if hidden.Some? && hidden.value < |ps| {
      var k := hidden.value;
      assert ps == ps[..k] + ([ps[k]] + ps[k + 1..]);
      assert Masked(ps, hidden) == ps[..k] + ([Forget(ps[k])] + ps[k + 1..]);
      TotalSizeAppend(ps[..k], [ps[k]] + ps[k + 1..]);
      TotalSizeAppend(ps[..k], [Forget(ps[k])] + ps[k + 1..]);
      assert ([ps[k]] + ps[k + 1..])[1..] == ps[k + 1..];
      assert ([Forget(ps[k])] + ps[k + 1..])[1..] == ps[k + 1..];
    }
  }

  /** The outputs among the parameters, when all of theirs are forgotten, and where they are put. */
  lemma ForgottenOutputs(ins: seq<Parameter>, outs: seq<Parameter>, argsSize: int, hidden: Option<nat>,
                         ps: seq<Parameter>)
    requires Layout(ins, outs, argsSize)
    requires multiset(ps) == multiset(Masked(ins, hidden)) + multiset(ForgetAll(outs))
    ensures multiset(Outputs(ps)) == multiset(ForgetAll(outs))
    ensures TotalSize(ps) == argsSize && TotalSize(ps) - TotalSize(Outputs(ps)) == TotalSize(ins)
  {
    hide Tiles, TotalSize, Outputs, ForgetAll;
    forall x
      ensures multiset(Outputs(ps))[x] == multiset(ForgetAll(outs))[x]
    {
      OutputsCount(ps, x);
      ForgetCount(outs, x);
      if x.isOutput {
        assert x !in Masked(ins, hidden);
      }
    }
    var all := Masked(ins, hidden) + ForgetAll(outs);
    TotalSizePermuted(ps, all);
    TotalSizePermuted(Outputs(ps), ForgetAll(outs));
    TotalSizeAppend(Masked(ins, hidden), ForgetAll(outs));
    MaskedSize(ins, hidden);
    if outs != [] {
      ForgetCount(outs, outs[0]);
    } else {
      ForgetCount(outs, Parameter("", 0, 0, false, false));
    }
    TotalSizeAppend(ins, outs);
    PlaceRestores(ins + outs, 0, argsSize);
  }

  ghost predicate DistinctNames(ps: seq<Parameter>) {
    forall i, j :: 0 <= i < j < |ps| ==> ByName(ps[i], ps[j]) || ByName(ps[j], ps[i])
  }

  lemma StrictIsSorted<T(!new)>(s: seq<T>, less: (T, T) -> bool)
    requires StrictWeakOrder(less) && StrictlySorted(s, less)
    ensures Sorted(s, less)
  {
  }

  lemma Cancel<T>(a: multiset<T>, b: multiset<T>, c: multiset<T>)
    ensures a + b - b + c == a + c
    ensures a + c - a == c
  {
  }

  lemma ForgetNames(ps: seq<Parameter>)
    ensures StrictlySorted(ps, ByName) <==> StrictlySorted(ForgetAll(ps), ByName)
  {
    hide NameLess;
    forall i, j | 0 <= i < j < |ps|
      ensures ByName(ps[i], ps[j]) == ByName(ForgetAll(ps)[i], ForgetAll(ps)[j])
    {
    }
  }

  lemma PlacedPositive(outs: seq<Parameter>, placed: seq<Parameter>, start: int, argsSize: int)
    requires Tiles(outs, start, argsSize) && multiset(placed) == multiset(ForgetAll(outs))
    ensures forall i :: 0 <= i < |placed| ==> placed[i].size > 0
  {
    PositiveSizes(outs, start, argsSize);
    forall i | 0 <= i < |placed|
      ensures placed[i].size > 0
    {
      assert placed[i] in multiset(placed);
      ForgetCount(outs, placed[i]);
    }
  }

  lemma PlacedIs(outs: seq<Parameter>, placed: seq<Parameter>, start: int, argsSize: int)
    requires Tiles(outs, start, argsSize) && multiset(placed) == multiset(ForgetAll(outs))
    requires multiset(Place(placed, start)) == multiset(outs)
    ensures Place(placed, start) == outs
  {
    hide Place, ForgetAll, Tiles, StrictlySorted, Sorted, StrictWeakOrder;
    TilesOrder(outs, start, argsSize);
    PlacedPositive(outs, placed, start, argsSize);
    PlaceTiles(placed, start);
    TilesOrder(Place(placed, start), start, start + TotalSize(placed));
    Orders();
    StrictIsSorted(Place(placed, start), Before);
    OnlyOneOrder(Place(placed, start), outs, Before);
  }

  /** Outputs that were put back where they belong have names in ascending order. */
  lemma NamesAscend(outs: seq<Parameter>, placed: seq<Parameter>, start: int)
    requires DistinctNames(outs) && Sorted(placed, ByName) && |outs| == |placed|
    requires forall i :: 0 <= i < |placed| ==> outs[i].name == placed[i].name
    ensures StrictlySorted(outs, ByName)
  {
    hide NameLess;
    forall i, j | 0 <= i < j < |outs|
      ensures ByName(outs[i], outs[j])
    {
      assert !ByName(placed[j], placed[i]);
    }
  }

  /** All outputs get their own locations back exactly when their names are in ascending order. */
  lemma OutputsRecovered(ins: seq<Parameter>, outs: seq<Parameter>, argsSize: int, hidden: Option<nat>,
                         ps: seq<Parameter>, placed: seq<Parameter>, after: multiset<Parameter>)
    requires Layout(ins, outs, argsSize) && DistinctNames(outs)
    requires multiset(ps) == multiset(Masked(ins, hidden)) + multiset(ForgetAll(outs))
    requires OutputsFilled(ps, placed, after)
    ensures StrictlySorted(outs, ByName) <==> after == multiset(Masked(ins, hidden)) + multiset(outs)
  {
    hide *;
    var m, there := multiset(Masked(ins, hidden)), Place(placed, TotalSize(ins));
    FilledIs(ins, outs, argsSize, hidden, ps, placed, after);
    SameLayout(ins, outs, argsSize, placed);
    CancelBoth(m, multiset(there), multiset(outs));
    SameOutputs(ins, outs, argsSize, placed);
  }

  lemma FilledIs(ins: seq<Parameter>, outs: seq<Parameter>, argsSize: int, hidden: Option<nat>,
                 ps: seq<Parameter>, placed: seq<Parameter>, after: multiset<Parameter>)
    requires Layout(ins, outs, argsSize)
    requires multiset(ps) == multiset(Masked(ins, hidden)) + multiset(ForgetAll(outs))
    requires OutputsFilled(ps, placed, after)
    ensures Sorted(placed, ByName) && multiset(placed) == multiset(ForgetAll(outs))
    ensures after == multiset(Masked(ins, hidden)) + multiset(Place(placed, TotalSize(ins)))
  {
    hide Outputs, TotalSize, Place, ForgetAll, Masked, Layout, Sorted, ByName;
    ForgottenOutputs(ins, outs, argsSize, hidden, ps);
    Cancel(multiset(Masked(ins, hidden)), multiset(placed), multiset(Place(placed, TotalSize(ins))));
  }

  lemma CancelBoth<T>(m: multiset<T>, a: multiset<T>, b: multiset<T>)
    ensures m + a == m + b <==> a == b
  {
    assert m + a - m == a && m + b - m == b;
  }

  lemma SameOutputs(ins: seq<Parameter>, outs: seq<Parameter>, argsSize: int, placed: seq<Parameter>)
    requires Layout(ins, outs, argsSize) && multiset(placed) == multiset(ForgetAll(outs))
    ensures var there := Place(placed, TotalSize(ins));
            multiset(there) == multiset(outs) <==> ins + there == ins + outs
  {
    hide Tiles, TotalSize, Place, ForgetAll;
    var there := Place(placed, TotalSize(ins));
    TilesConcat(ins, outs, 0, argsSize);
    if multiset(there) == multiset(outs) {
      PlacedIs(outs, placed, TotalSize(ins), argsSize);
    }
    if ins + there == ins + outs {
      SameTail(ins, there, outs);
    }
  }

  lemma {:induction false} PositiveSizes(ps: seq<Parameter>, lo: int, hi: int)
    requires Tiles(ps, lo, hi)
    ensures forall i :: 0 <= i < |ps| ==> ps[i].size > 0
  {
    if ps != [] {
      PositiveSizes(ps[1..], lo + ps[0].size, hi);
      assert forall i :: 0 < i < |ps| ==> ps[i] == ps[1..][i - 1];
    }
  }

  function Without(ps: seq<Parameter>, k: nat): seq<Parameter>
    requires k < |ps|
  {
    ps[..k] + ps[k + 1..]
  }

  lemma {:induction false} NoGap(ps: seq<Parameter>, lo: int, argsSize: int)
    requires Tiles(ps, lo, argsSize)
    ensures FirstGap(ps, argsSize) == 0
    ensures ps != [] ==> ps[0].offset == lo
    ensures ps == [] ==> lo == argsSize
  {
    if ps != [] {
      NoGap(ps[1..], lo + ps[0].size, argsSize);
    }
  }

  /** With one parameter taken out of a layout the first gap is where it was, or there is none before
      the first one, which is at zero. */
  lemma {:induction false} GapIsHole(ps: seq<Parameter>, k: nat, lo: int, argsSize: int)
    requires Tiles(ps, lo, argsSize) && k < |ps| && (k == 0 ==> lo == 0)
    ensures FirstGap(Without(ps, k), argsSize) == ps[k].offset
  {
    var rest := ps[1..];
    if k == 0 {
      assert Without(ps, 0) == rest;
      NoGap(rest, lo + ps[0].size, argsSize);
    } else {
      var w := Without(ps, k);
      assert w[0] == ps[0];
      if k == 1 {
        assert w[1..] == rest[1..];
        NoGap(rest, lo + ps[0].size, argsSize);
        NoGap(rest[1..], lo + ps[0].size + rest[0].size, argsSize);
      } else {
        assert w[1..] == Without(rest, k - 1) && w[1] == rest[0];
        GapIsHole(rest, k - 1, lo + ps[0].size, argsSize);
      }
    }
  }

  lemma {:induction false} KnownsSorted(ps: seq<Parameter>)
    requires Sorted(ps, Before)
    ensures Sorted(Knowns(ps), Before)
    ensures forall p :: p in Knowns(ps) ==> p in ps
  {
    if ps != [] {
      KnownsSorted(ps[1..]);
      forall p | p in Knowns(ps[1..])
        ensures !Before(p, ps[0])
      {
        var i :| 0 <= i < |ps[1..]| && ps[1..][i] == p;
        assert ps[i + 1] == p;
      }
    }
  }

  lemma WithoutSorted(ps: seq<Parameter>, k: nat)
    requires k < |ps| && StrictlySorted(ps, Before)
    ensures StrictlySorted(Without(ps, k), Before)
  {
  }

  lemma HoleCounts(ps: seq<Parameter>, k: nat)
    requires k < |ps| && forall i :: 0 <= i < |ps| ==> ps[i].exist
    ensures multiset(Masked(ps, Some(k))) == multiset(Without(ps, k)) + multiset{Forget(ps[k])}
    ensures multiset(ps) == multiset(Without(ps, k)) + multiset{ps[k]}
    ensures forall p :: p in Without(ps, k) ==> p.exist
  {
    Removed(ps, k);
    Updated(ps, k, Forget(ps[k]));
    PutBack(multiset(ps), ps[k]);
  }

  /** The located parameters are those of the layout without the forgotten one, in the same order. */
  lemma KnownsAre(ps: seq<Parameter>, k: nat, argsSize: int, s: seq<Parameter>)
    requires Tiles(ps, 0, argsSize) && k < |ps| && Sorted(s, Before)
    requires multiset(s) == multiset(Masked(ps, Some(k)))
    ensures Knowns(s) == Without(ps, k) && OneUnknown(s) && TotalSize(s) == argsSize
    ensures forall u :: 0 <= u < |s| && !s[u].exist ==> s[u] == Forget(ps[k])
  {
    hide Tiles, TotalSize, Masked, Sorted, StrictlySorted, StrictWeakOrder, Knowns, Without;
    TilesOrder(ps, 0, argsSize);
    HoleCounts(ps, k);
    var w := Without(ps, k);
    forall x
      ensures multiset(Knowns(s))[x] == multiset(w)[x]
    {
      KnownsCount(s, x);
    }
    KnownsSorted(s);
    WithoutSorted(ps, k);
    Orders();
    OnlyOneOrder(Knowns(s), w, Before);
    WithoutLength(ps, k);
    TotalSizePermuted(s, Masked(ps, Some(k)));
    MaskedSize(ps, Some(k));
    PlaceRestores(ps, 0, argsSize);
    forall u | 0 <= u < |s| && !s[u].exist
      ensures s[u] == Forget(ps[k])
    {
      assert s[u] in multiset(s);
    }
  }

  lemma WithoutLength(ps: seq<Parameter>, k: nat)
    requires k < |ps|
    ensures |Without(ps, k)| == |ps| - 1
  {
  }

  /** A single forgotten location is found again, wherever its parameter stands in the sorted list. */
  lemma UnknownRecovered(ps: seq<Parameter>, k: nat, argsSize: int, s: seq<Parameter>, u: nat, t: seq<Parameter>)
    requires Tiles(ps, 0, argsSize) && k < |ps| && Sorted(s, Before)
    requires multiset(s) == multiset(Masked(ps, Some(k)))
    requires u < |s| && !s[u].exist && Sorted(t, Before)
    requires multiset(t) == multiset(s[u := s[u].(exist := true, offset := FirstGap(Knowns(s), TotalSize(s)))])
    ensures t == ps
  {
    hide Tiles, TotalSize, Masked, Sorted, StrictlySorted, StrictWeakOrder, Knowns, Without, FirstGap;
    KnownsAre(ps, k, argsSize, s);
    GapIsHole(ps, k, 0, argsSize);
    TilesOrder(ps, 0, argsSize);
    Updated(s, u, ps[k]);
    HoleCounts(ps, k);
    Cancel(multiset(Without(ps, k)), multiset{Forget(ps[k])}, multiset{ps[k]});
    Orders();
    OnlyOneOrder(t, ps, Before);
  }

  /** What a caller can know to be forgotten: at most one location, after all outputs with made-up names
      have been put into the order of their names. */
  ghost predicate OutputsForgotten(ins: seq<Parameter>, outs: seq<Parameter>, hidden: Option<nat>, ps: seq<Parameter>) {
    && multiset(ps) == multiset(Masked(ins, hidden)) + multiset(ForgetAll(outs))
    && (forall i :: 0 <= i < |outs| ==> HasPrefix(outs[i].name, "~r"))
  }

  ghost predicate OneForgotten(all: seq<Parameter>, hidden: Option<nat>, ps: seq<Parameter>) {
    multiset(ps) == multiset(Masked(all, hidden))
  }

  lemma CanFill(ins: seq<Parameter>, outs: seq<Parameter>, argsSize: nat, hidden: Option<nat>, ps: seq<Parameter>)
    requires Layout(ins, outs, argsSize) && OutputsForgotten(ins, outs, hidden, ps)
    ensures CanFillInOutputParameters(ps, Some(argsSize))
  {
    ForgottenOutputs(ins, outs, argsSize, hidden, ps);
    forall i | 0 <= i < |ps| && ps[i].isOutput
      ensures !ps[i].exist && HasPrefix(ps[i].name, "~r")
    {
      OutputsCount(ps, ps[i]);
      assert ps[i] in multiset(ps);
      assert ps[i] in multiset(ForgetAll(outs));
      ForgetCount(outs, ps[i]);
    }
  }

  lemma MaskedAll(ins: seq<Parameter>, outs: seq<Parameter>, hidden: Option<nat>)
    requires hidden.Some? ==> hidden.value < |ins|
    ensures multiset(Masked(ins + outs, hidden)) == multiset(Masked(ins, hidden)) + multiset(outs)
  {
    assert Masked(ins + outs, hidden) == Masked(ins, hidden) + outs;
  }

  /** Both passes, as they are applied to the parameters of a function that was found. Let the real layout
      have all inputs before all outputs and no padding. If the locations of all outputs and at most one input
      are missing, the inputs come back to their places and the outputs fill the rest in the order of their
      names, so that all parameters are apart from each other and within the arguments; and the layout is the
      real one exactly when the names ascend. If at most one location is missing at all, it is found again. */
  method FillIn(params: array<Parameter>, argsSize: Option<nat>,
                ghost ins: seq<Parameter>, ghost outs: seq<Parameter>, ghost hidden: Option<nat>)
    returns (ghost placed: seq<Parameter>)
    modifies params
    ensures argsSize.Some? && Layout(ins, outs, argsSize.value)
            && OutputsForgotten(ins, outs, hidden, old(params[..])) && (hidden.Some? ==> hidden.value < |ins|) ==>
              && Sorted(placed, ByName) && multiset(placed) == multiset(ForgetAll(outs))
              && params[..] == ins + Place(placed, TotalSize(ins)) && Tiles(params[..], 0, argsSize.value)
              && (DistinctNames(outs) ==> (params[..] == ins + outs <==> StrictlySorted(outs, ByName)))
    ensures argsSize.Some? && Layout(ins, outs, argsSize.value) && Sorted(old(params[..]), Before)
            && OneForgotten(ins + outs, hidden, old(params[..]))
            && !CanFillInOutputParameters(old(params[..]), argsSize) ==>
              params[..] == ins + outs
    ensures argsSize != Some(TotalSize(old(params[..]))) ==> params[..] == old(params[..])
    ensures KnownOtherwise(old(params[..])) && |Knowns(old(params[..]))| != params.Length - 1 ==>
              params[..] == old(params[..])
    ensures forall x: Parameter :: x.exist ==> multiset(params[..])[x] >= multiset(old(params[..]))[x]
  {
    hide *;
    ghost var ps := params[..];
    placed := FillInOutputParameters(params, argsSize);
    ghost var s := params[..];
    ghost var u := FillInUnknownParameter(params, argsSize);
    if argsSize.Some? && Layout(ins, outs, argsSize.value) {
      if OutputsForgotten(ins, outs, hidden, ps) && (hidden.Some? ==> hidden.value < |ins|) {
        FirstPass(ins, outs, argsSize.value, hidden, ps, placed, s);
        SecondPass(ins, Place(placed, TotalSize(ins)), argsSize.value, hidden, s, u, params[..]);
        LayoutTiles(ins, Place(placed, TotalSize(ins)), argsSize.value);
        if DistinctNames(outs) {
          SameLayout(ins, outs, argsSize.value, placed);
        }
      }
      if Sorted(ps, Before) && OneForgotten(ins + outs, hidden, ps) && !CanFillInOutputParameters(ps, argsSize) {
        SecondPass(ins, outs, argsSize.value, hidden, s, u, params[..]);
      }
    }
    FirstKeeps(ps, placed, s, argsSize);
    SecondKeeps(s, u, params[..], argsSize);
  }

  /** An output whose location is known, or whose name the programmer chose: the locations of the outputs are not
      guessed then. */
  predicate KnownOtherwise(ps: seq<Parameter>) {
    exists i :: 0 <= i < |ps| && ps[i].isOutput && (ps[i].exist || |ps[i].name| < 2 || ps[i].name[..2] != "~r")
  }

  /** Nothing is guessed when the sizes do not add up, and what is known stays. */
  lemma FirstKeeps(ps: seq<Parameter>, placed: seq<Parameter>, s: seq<Parameter>, argsSize: Option<nat>)
    requires if CanFillInOutputParameters(ps, argsSize)
             then Sorted(s, Before) && OutputsFilled(ps, placed, multiset(s)) else s == ps
    ensures argsSize != Some(TotalSize(ps)) || KnownOtherwise(ps) ==> s == ps
    ensures forall x: Parameter :: x.exist ==> multiset(s)[x] >= multiset(ps)[x]
  {
    hide Place, TotalSize, Sorted, ByName, Outputs;
    if CanFillInOutputParameters(ps, argsSize) {
      forall x: Parameter | x.exist
        ensures multiset(placed)[x] == 0
      {
        OutputsCount(ps, x);
        assert x in ps ==> !x.isOutput;
      }
      forall i | 0 <= i < |ps| && ps[i].isOutput
        ensures !ps[i].exist && |ps[i].name| >= 2 && ps[i].name[..2] == "~r"
      {
        assert |"~r"| == 2;
      }
    }
  }

  lemma SecondKeeps(s: seq<Parameter>, u: nat, t: seq<Parameter>, argsSize: Option<nat>)
    requires if CanFillInUnknownParameter(s, argsSize)
             then && u < |s| && !s[u].exist && Sorted(t, Before)
                  && var offset := FirstGap(Knowns(s), TotalSize(s));
                     multiset(t) == multiset(s[u := s[u].(exist := true, offset := offset)])
             else t == s
    ensures argsSize != Some(TotalSize(s)) || |Knowns(s)| != |s| - 1 ==> t == s
    ensures forall x: Parameter :: x.exist ==> multiset(t)[x] >= multiset(s)[x]
  {
    hide TotalSize, Sorted, Knowns, FirstGap;
    if CanFillInUnknownParameter(s, argsSize) {
      Updated(s, u, s[u].(exist := true, offset := FirstGap(Knowns(s), TotalSize(s))));
    }
  }

  lemma LayoutTiles(ins: seq<Parameter>, outs: seq<Parameter>, argsSize: nat)
    requires Layout(ins, outs, argsSize)
    ensures Tiles(ins + outs, 0, argsSize)
  {
  }

  lemma {:induction false} TilesJoin(s: seq<Parameter>, t: seq<Parameter>, lo: int, mid: int, hi: int)
    requires Tiles(s, lo, mid) && Tiles(t, mid, hi)
    ensures Tiles(s + t, lo, hi)
  {
    if s == [] {
      assert s + t == t;
    } else {
      assert (s + t)[1..] == s[1..] + t;
      TilesJoin(s[1..], t, lo + s[0].size, mid, hi);
    }
  }

  lemma {:induction false} PlaceKeepsOutputs(ps: seq<Parameter>, start: int)
    requires forall i :: 0 <= i < |ps| ==> ps[i].isOutput
    ensures forall i :: 0 <= i < |Place(ps, start)| ==> Place(ps, start)[i].isOutput
  {
    if ps != [] {
      PlaceKeepsOutputs(ps[1..], start + ps[0].size);
    }
  }

  /** The outputs behind the inputs, in any order, are a layout as well. */
  lemma OtherLayout(ins: seq<Parameter>, outs: seq<Parameter>, argsSize: nat, placed: seq<Parameter>)
    requires Layout(ins, outs, argsSize) && multiset(placed) == multiset(ForgetAll(outs))
    ensures Layout(ins, Place(placed, TotalSize(ins)), argsSize)
  {
    hide TotalSize, Place, Tiles;
    var start := TotalSize(ins);
    TilesConcat(ins, outs, 0, argsSize);
    PlacedPositive(outs, placed, start, argsSize);
    PlaceTiles(placed, start);
    PlaceRestores(outs, start, argsSize);
    TotalSizePermuted(placed, ForgetAll(outs));
    ForgetCount(outs, Parameter("", 0, 0, false, false));
    TilesJoin(ins, Place(placed, start), 0, start, argsSize);
    forall i | 0 <= i < |placed|
      ensures placed[i].isOutput
    {
      assert placed[i] in multiset(placed);
      ForgetCount(outs, placed[i]);
    }
    PlaceKeepsOutputs(placed, start);
  }

  /** It is the real one exactly when the names ascend. */
  lemma SameLayout(ins: seq<Parameter>, outs: seq<Parameter>, argsSize: int, placed: seq<Parameter>)
    requires Layout(ins, outs, argsSize) && DistinctNames(outs)
    requires Sorted(placed, ByName) && multiset(placed) == multiset(ForgetAll(outs))
    ensures ins + Place(placed, TotalSize(ins)) == ins + outs <==> StrictlySorted(outs, ByName)
  {
    hide TotalSize, NameLess, Place, ForgetAll, Tiles, StrictlySorted, Sorted, StrictWeakOrder, DistinctNames;
    var start := TotalSize(ins);
    TilesConcat(ins, outs, 0, argsSize);
    Orders();
    if StrictlySorted(outs, ByName) {
      ForgetNames(outs);
      OnlyOneOrder(placed, ForgetAll(outs), ByName);
      PlaceRestores(outs, start, argsSize);
    }
    if ins + Place(placed, start) == ins + outs {
      SameTail(ins, Place(placed, start), outs);
      PlacedPositive(outs, placed, start, argsSize);
      PlaceTiles(placed, start);
      NamesAscend(outs, placed, start);
    }
  }

  lemma SameTail<T>(s: seq<T>, t: seq<T>, u: seq<T>)
    requires s + t == s + u
    ensures t == u
  {
    assert (s + t)[|s|..] == t && (s + u)[|s|..] == u;
  }

  lemma FirstPass(ins: seq<Parameter>, outs: seq<Parameter>, argsSize: nat, hidden: Option<nat>,
                  ps: seq<Parameter>, placed: seq<Parameter>, s: seq<Parameter>)
    requires Layout(ins, outs, argsSize) && OutputsForgotten(ins, outs, hidden, ps)
    requires hidden.Some? ==> hidden.value < |ins|
    requires if CanFillInOutputParameters(ps, Some(argsSize))
             then Sorted(s, Before) && OutputsFilled(ps, placed, multiset(s)) else s == ps
    ensures Sorted(placed, ByName) && multiset(placed) == multiset(ForgetAll(outs))
    ensures Layout(ins, Place(placed, TotalSize(ins)), argsSize)
    ensures Sorted(s, Before) && OneForgotten(ins + Place(placed, TotalSize(ins)), hidden, s)
  {
    hide Layout, CanFillInOutputParameters, OutputsFilled, ByName, Sorted, Masked, ForgetAll, Place, TotalSize, Outputs;
    CanFill(ins, outs, argsSize, hidden, ps);
    FilledIs(ins, outs, argsSize, hidden, ps, placed, multiset(s));
    OtherLayout(ins, outs, argsSize, placed);
    MaskedAll(ins, Place(placed, TotalSize(ins)), hidden);
  }

  lemma SecondPass(ins: seq<Parameter>, outs: seq<Parameter>, argsSize: nat, hidden: Option<nat>,
                   s: seq<Parameter>, u: nat, t: seq<Parameter>)
    requires Layout(ins, outs, argsSize) && Sorted(s, Before) && OneForgotten(ins + outs, hidden, s)
    requires if CanFillInUnknownParameter(s, Some(argsSize))
             then && u < |s| && !s[u].exist && Sorted(t, Before)
                  && var offset := FirstGap(Knowns(s), TotalSize(s));
                     multiset(t) == multiset(s[u := s[u].(exist := true, offset := offset)])
             else t == s
    ensures t == ins + outs
  {
    hide Tiles, TotalSize, Sorted, StrictlySorted, StrictWeakOrder, Knowns, FirstGap, Masked;
    var all := ins + outs;
    if hidden.Some? && hidden.value < |all| {
      KnownsAre(all, hidden.value, argsSize, s);
      UnknownRecovered(all, hidden.value, argsSize, s, u, t);
    } else {
      NothingHidden(all, hidden);
      TilesOrder(all, 0, argsSize);
      Orders();
      OnlyOneOrder(s, all, Before);
    }
  }

  lemma NothingHidden(ps: seq<Parameter>, hidden: Option<nat>)
    requires hidden.Some? ==> hidden.value >= |ps|
    ensures Masked(ps, hidden) == ps
  {
  }

  // ----- eleven parameters are too many for names in the order of locations

  function Words(n: nat, at: int): seq<Parameter> {
    if n == 0 then [] else [Parameter("x", 8, at, false, true)] + Words(n - 1, at + 8)
  }

  const R9 := Parameter("~r9", 8, 72, true, true)
  const R10 := Parameter("~r10", 8, 80, true, true)

  lemma WordsFirst(n: nat, at: int)
    requires n > 0
    ensures Words(n, at) == [Parameter("x", 8, at, false, true)] + Words(n - 1, at + 8)
  {
  }

  lemma {:induction false} WordsTile(n: nat, at: int, rest: seq<Parameter>, hi: int)
    requires Tiles(rest, at + 8 * n, hi)
    ensures Tiles(Words(n, at) + rest, at, hi)
  {
    if n == 0 {
      assert Words(n, at) + rest == rest;
    } else {
      hide Words;
      WordsTile(n - 1, at + 8, rest, hi);
      WordsFirst(n, at);
      assert (Words(n, at) + rest)[1..] == Words(n - 1, at + 8) + rest;
    }
  }

  lemma {:induction false} WordsAreInputs(n: nat, at: int)
    ensures forall i :: 0 <= i < |Words(n, at)| ==> !Words(n, at)[i].isOutput
  {
    if n > 0 {
      WordsAreInputs(n - 1, at + 8);
    }
  }

  lemma NamesOfResults()
    ensures DistinctNames([R9, R10]) && !StrictlySorted([R9, R10], ByName) && NameLess("~r10", "~r9")
  {
    assert "~r10"[1..] == "r10" && "~r9"[1..] == "r9" && "r10"[1..] == "10" && "r9"[1..] == "9";
    assert NameLess("10", "9") && NameLess("r10", "r9") && ByName(R10, R9);
    NamesAreOrdered("~r10", "~r9", "");
    var outs := [R9, R10];
    assert !ByName(outs[0], outs[1]);
  }

  lemma LayoutOfResults()
    ensures Layout(Words(9, 0), [R9, R10], 88)
  {
    assert [R9, R10][1..] == [R10] && [R10][1..] == [];
    assert Tiles([R9, R10], 72, 88);
    WordsTile(9, 0, [R9, R10], 88);
    WordsAreInputs(9, 0);
  }

  /** A function with nine inputs and two results of one word each: the compiler's names for the results
      are ~r9 and ~r10, as strings they are in the other order, and each gets the location of the other. */
  lemma TwoResultsSwapped()
    ensures Layout(Words(9, 0), [R9, R10], 88)
    ensures OutputsFilled(Words(9, 0) + ForgetAll([R9, R10]), ForgetAll([R10, R9]),
                          multiset(Words(9, 0)) + multiset([R10.(offset := 72), R9.(offset := 80)]))
  {
    hide *;
    var ins, outs := Words(9, 0), [R9, R10];
    LayoutOfResults();
    MaskedNone(ins);
    ForgottenOutputs(ins, outs, 88, None, ins + ForgetAll(outs));
    NineWords();
    OtherOrder();
    PlacedResults();
    Filled(ins + ForgetAll(outs), ForgetAll([R10, R9]), multiset(ins), [R10.(offset := 72), R9.(offset := 80)]);
  }

  lemma MaskedNone(ps: seq<Parameter>)
    ensures Masked(ps, None) == ps
  {
  }

  lemma OtherOrder()
    ensures multiset(ForgetAll([R10, R9])) == multiset(ForgetAll([R9, R10]))
    ensures Sorted(ForgetAll([R10, R9]), ByName)
  {
    var placed := ForgetAll([R10, R9]);
    assert placed == [Forget(R10), Forget(R9)] && ForgetAll([R9, R10]) == [Forget(R9), Forget(R10)];
    NamesOfResults();
    NamesAreOrdered("~r10", "~r9", "");
  }

  lemma Filled(before: seq<Parameter>, outs: seq<Parameter>, rest: multiset<Parameter>, placed: seq<Parameter>)
    requires Sorted(outs, ByName) && multiset(outs) == multiset(Outputs(before))
    requires multiset(before) == rest + multiset(outs)
    requires Place(outs, TotalSize(before) - TotalSize(Outputs(before))) == placed
    ensures OutputsFilled(before, outs, rest + multiset(placed))
  {
    Cancel(rest, multiset(outs), multiset(placed));
  }

  lemma NineWords()
    ensures TotalSize(Words(9, 0)) == 72
  {
    WordsTile(9, 0, [], 72);
    assert Words(9, 0) + [] == Words(9, 0);
    PlaceRestores(Words(9, 0), 0, 72);
  }

  lemma PlacedResults()
    ensures Place(ForgetAll([R10, R9]), 72) == [R10.(offset := 72), R9.(offset := 80)]
  {
    var placed := ForgetAll([R10, R9]);
    assert placed == [Forget(R10), Forget(R9)] && placed[1..] == [Forget(R9)] && placed[1..][1..] == [];
    assert Place(placed[1..], 80) == [R9.(offset := 80)];
    assert Forget(R10).(exist := true, offset := 72) == R10.(offset := 72);
  }

  /** However the outputs are filled in, they are not where they belong. */
  lemma ResultsNotRecovered(placed: seq<Parameter>, after: multiset<Parameter>)
    requires OutputsFilled(Words(9, 0) + ForgetAll([R9, R10]), placed, after)
    ensures after != multiset(Words(9, 0)) + multiset([R9, R10])
  {
    hide Words, Layout, OutputsFilled, ForgetAll, DistinctNames, StrictlySorted, ByName;
    NamesOfResults();
    LayoutOfResults();
    NothingHidden(Words(9, 0), None);
    OutputsRecovered(Words(9, 0), [R9, R10], 88, None, Words(9, 0) + ForgetAll([R9, R10]), placed, after);
  }
}

/**
 Sequence helpers that give MongoDB's array update operators their meaning.
 A document's array field is a `seq`; `$push` appends, `$set` replaces, and
 `$addToSet` appends only the values not already present.
 */
module Lists {

  datatype Option<T> = None | Some(value: T) {
    /** JavaScript's `a ?? b` when `None` stands for `null` */
    function OrElse(other: Option<T>): Option<T> {
      if Some? then this else other
    }
  }

  /** The values held by an array field, forgetting order and multiplicity */
  function Elems<T>(xs: seq<T>): set<T> {
    set x | x in xs
  }

  /** No value occurs twice: each element is new to the elements before it */
  predicate NoDup<T(==)>(xs: seq<T>) {
    forall i :: 0 <= i < |xs| ==> xs[i] !in xs[..i]
  }

  /** `b` is `a` after adding the values `ys` as a set: the old entries keep
      their places and the values held become those of `a` and `ys` */
  ghost predicate SetAdded<T>(a: seq<T>, b: seq<T>, ys: set<T>) {
    && a <= b
    && Elems(b) == Elems(a) + ys
  }

  /** Every entry of `b` after the prefix `a` is new to all entries before it:
      an `$addToSet` never writes a value twice */
  ghost predicate FreshTail<T>(a: seq<T>, b: seq<T>)
    requires a <= b
  {
    forall i :: |a| <= i < |b| ==> b[i] !in b[..i]
  }

  /** `b` is `a` after an `$addToSet` of the single value `x`: `x` is
      appended when it is missing, and nothing happens when it is there */
  ghost predicate AddedOnce<T>(a: seq<T>, b: seq<T>, x: T) {
    && SetAdded(a, b, {x})
    && |b| <= |a| + 1
    && (x in a ==> b == a)
  }

  /** `$addToSet: { field: x }` */
  function AddToSet<T(==)>(xs: seq<T>, x: T): (r: seq<T>)
    ensures AddedOnce(xs, r, x)
    ensures x in xs <==> r == xs
    ensures FreshTail(xs, r)
  {
    if x in xs then xs else xs + [x]
  }

  /** `$addToSet: { field: { $each: ys } }`, adding the values of `ys` in order */
  function AddAllToSet<T(==)>(xs: seq<T>, ys: seq<T>): (r: seq<T>)
    ensures SetAdded(xs, r, Elems(ys))
    decreases |ys|
  {
    if ys == [] then xs
    else
      var m := AddToSet(xs, ys[0]);
      var r := AddAllToSet(m, ys[1..]);
      ElemsCons(ys);
      assert xs <= m <= r;
      r
  }

  lemma ElemsCons<T>(ys: seq<T>)
    requires |ys| > 0
    ensures Elems(ys) == {ys[0]} + Elems(ys[1..])
  {
    assert ys == [ys[0]] + ys[1..];
  }

  /** `$addToSet` with `$each` never writes a value twice */
  lemma {:induction false} AddAllToSetFresh<T>(xs: seq<T>, ys: seq<T>)
    ensures xs <= AddAllToSet(xs, ys) && FreshTail(xs, AddAllToSet(xs, ys))
    decreases |ys|
  {
    if ys != [] {
      var m := AddToSet(xs, ys[0]);
      AddAllToSetFresh(m, ys[1..]);
      FreshTailChain(xs, m, AddAllToSet(xs, ys));
    }
  }

  /** `$addToSet` with `$each` leaves the array alone exactly when it already
      holds every value */
  lemma {:induction false} AddAllToSetSettled<T>(xs: seq<T>, ys: seq<T>)
    ensures Elems(ys) <= Elems(xs) <==> AddAllToSet(xs, ys) == xs
    decreases |ys|
  {
    if ys != [] {
      var m := AddToSet(xs, ys[0]);
      AddAllToSetSettled(m, ys[1..]);
      ElemsCons(ys);
    }
  }

  /** Two fresh extensions in a row are one fresh extension */
  lemma FreshTailChain<T>(a: seq<T>, b: seq<T>, c: seq<T>)
    requires a <= b && FreshTail(a, b)
    requires b <= c && FreshTail(b, c)
    ensures a <= c && FreshTail(a, c)
  {
    forall i | |a| <= i < |c|
      ensures c[i] !in c[..i]
    {
      if i < |b| {
        assert c[..i] == b[..i];
      }
    }
  }

  /** MongoDB's `distinct` over the values of `xs`, in first-occurrence order */
  function Distinct<T(==)>(xs: seq<T>): (r: seq<T>)
    ensures Elems(r) == Elems(xs)
    ensures NoDup(r)
  {
    var r := AddAllToSet([], xs);
    AddAllToSetFresh([], xs);
    assert r[0..] == r;
    r
  }

  /** Adding to a repeat-free array with `$addToSet` keeps it repeat-free */
  lemma FreshTailKeepsNoDup<T>(a: seq<T>, b: seq<T>)
    requires a <= b && FreshTail(a, b)
    requires NoDup(a)
    ensures NoDup(b)
  {
    forall i | 0 <= i < |a|
      ensures b[i] !in b[..i]
    {
      assert b[..i] == a[..i];
    }
  }

  /** `xs` joined with `sep` between consecutive elements, as `Array.prototype.join` */
  function Join(xs: seq<string>, sep: string): (r: string)
    ensures |xs| == 0 ==> r == []
    ensures |xs| == 1 ==> r == xs[0]
  {
    if |xs| == 0 then []
    else if |xs| == 1 then xs[0]
    else xs[0] + sep + Join(xs[1..], sep)
  }

  /** The elements of `xs` that satisfy `p`, in order */
  function Filter<T>(xs: seq<T>, p: T -> bool): (r: seq<T>)
    ensures forall i :: 0 <= i < |r| ==> r[i] in xs && p(r[i])
    ensures forall i :: 0 <= i < |xs| && p(xs[i]) ==> xs[i] in r
    ensures |r| <= |xs|
  {
    if |xs| == 0 then []
    else if p(xs[0]) then [xs[0]] + Filter(xs[1..], p)
    else Filter(xs[1..], p)
  }

  /** Index of the first element satisfying `p`: what `findOne` and
      `updateOne` select in a collection held in document order */
  function FirstIndex<T>(xs: seq<T>, p: T -> bool): (r: Option<nat>)
    ensures r.Some? ==> r.value < |xs| && p(xs[r.value])
    ensures r.Some? ==> forall j :: 0 <= j < r.value ==> !p(xs[j])
    ensures r.None? <==> forall j :: 0 <= j < |xs| ==> !p(xs[j])
  {
    if |xs| == 0 then None
    else if p(xs[0]) then Some(0)
    else match FirstIndex(xs[1..], p)
      case None => None
      case Some(i) => Some(i + 1)
  }
}

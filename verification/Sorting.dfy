/**
 The library operations the engine leans on: the stable `slice::sort_by`, `retain` over a set of
 seen ids, and in-order traversal of a `BTreeMap`.
 */
module Sorting {
  import opened Order

  function Last<T>(xs: seq<T>): T
    requires xs != []
  {
    xs[|xs| - 1]
  }

  function Init<T>(xs: seq<T>): seq<T>
    requires xs != []
  {
    xs[..|xs| - 1]
  }

  // ----- stable sort -----

  ghost predicate Sorted<T>(key: T -> Key, xs: seq<T>) {
    forall i, j :: 0 <= i < j < |xs| ==> KeyLe(key(xs[i]), key(xs[j]))
  }

  ghost predicate StrictlySorted<T>(key: T -> Key, xs: seq<T>) {
    forall i, j :: 0 <= i < j < |xs| ==> KeyLt(key(xs[i]), key(xs[j]))
  }

  /** Places `x` after every element of the sorted `ys` that is not greater than it. */
  function Insert<T>(key: T -> Key, ys: seq<T>, x: T): seq<T> {
    if ys == [] || KeyLe(key(Last(ys)), key(x)) then ys + [x] else Insert(key, Init(ys), x) + [Last(ys)]
  }

  function Sort<T>(key: T -> Key, xs: seq<T>): seq<T> {
    if xs == [] then [] else Insert(key, Sort(key, Init(xs)), Last(xs))
  }

  lemma {:induction false} InsertPermutes<T>(key: T -> Key, ys: seq<T>, x: T)
    ensures multiset(Insert(key, ys, x)) == multiset(ys) + multiset{x}
  {
    if ys != [] && !KeyLe(key(Last(ys)), key(x)) {
      InsertPermutes(key, Init(ys), x);
      SplitLast(ys);
    }
  }

  /** The sort is a permutation. */
  lemma {:induction false} SortPermutes<T>(key: T -> Key, xs: seq<T>)
    ensures multiset(Sort(key, xs)) == multiset(xs)
  {
    if xs != [] {
      SortPermutes(key, Init(xs));
      InsertPermutes(key, Sort(key, Init(xs)), Last(xs));
      SplitLast(xs);
    }
  }

  lemma SameElements<T>(xs: seq<T>, ys: seq<T>)
    requires multiset(xs) == multiset(ys)
    ensures |xs| == |ys|
    ensures forall x :: x in xs <==> x in ys
  {
    assert |multiset(xs)| == |multiset(ys)|;
    forall x ensures x in xs <==> x in ys {
      assert x in xs <==> x in multiset(xs);
      assert x in ys <==> x in multiset(ys);
    }
  }

  lemma SortElements<T>(key: T -> Key, xs: seq<T>)
    ensures |Sort(key, xs)| == |xs|
    ensures forall x :: x in Sort(key, xs) <==> x in xs
  {
    SortPermutes(key, xs);
    SameElements(Sort(key, xs), xs);
  }

  lemma InsertFrom<T>(key: T -> Key, ys: seq<T>, x: T, y: T)
    requires y in Insert(key, ys, x)
    ensures y in ys || y == x
  {
    InsertPermutes(key, ys, x);
    assert multiset(ys) + multiset{x} == multiset(ys + [x]);
    SameElements(Insert(key, ys, x), ys + [x]);
  }

  lemma SortedSnoc<T>(key: T -> Key, xs: seq<T>, x: T)
    requires Sorted(key, xs)
    requires forall y :: y in xs ==> KeyLe(key(y), key(x))
    ensures Sorted(key, xs + [x])
  {
    assert forall i :: 0 <= i < |xs| ==> xs[i] in xs;
  }

  lemma {:induction false} InsertSorted<T>(key: T -> Key, ys: seq<T>, x: T)
    requires Sorted(key, ys)
    ensures Sorted(key, Insert(key, ys, x))
  {
    if ys == [] {
    } else {
      var init, last := Init(ys), Last(ys);
      KeyOrderIsTotal(key(last), key(x), key(last));
      if KeyLe(key(last), key(x)) {
        forall y | y in ys ensures KeyLe(key(y), key(x)) {
          KeyOrderIsTotal(key(y), key(last), key(x));
        }
        SortedSnoc(key, ys, x);
      } else {
        InsertSorted(key, init, x);
        forall y | y in Insert(key, init, x) ensures KeyLe(key(y), key(last)) {
          InsertFrom(key, init, x, y);
        }
        SortedSnoc(key, Insert(key, init, x), last);
      }
    }
  }

  lemma {:induction false} SortSorted<T>(key: T -> Key, xs: seq<T>)
    ensures Sorted(key, Sort(key, xs))
  {
    if xs != [] {
      SortSorted(key, Init(xs));
      InsertSorted(key, Sort(key, Init(xs)), Last(xs));
    }
  }

  /** No element of `xs` sorts after `x`. */
  ghost predicate Precede<T>(key: T -> Key, xs: seq<T>, x: T) {
    forall y :: y in xs ==> KeyLe(key(y), key(x))
  }

  lemma AfterAll<T>(key: T -> Key, xs: seq<T>)
    requires xs != [] && Sorted(key, xs)
    ensures Sorted(key, Init(xs)) && Precede(key, Init(xs), Last(xs))
    ensures xs == Init(xs) + [Last(xs)]
  {
    forall x | x in Init(xs) ensures KeyLe(key(x), key(Last(xs))) {
      var i :| 0 <= i < |xs| - 1 && xs[i] == x;
    }
  }

  // ----- stability, and what determines a sort -----

  /** The elements with key `k`, in order. */
  ghost function AtKey<T>(key: T -> Key, k: Key, xs: seq<T>): seq<T> {
    if xs == [] then [] else
      AtKey(key, k, Init(xs)) + if key(Last(xs)) == k then [Last(xs)] else []
  }

  lemma {:induction false} AtKeyHas<T>(key: T -> Key, xs: seq<T>, i: nat)
    requires i < |xs|
    ensures xs[i] in AtKey(key, key(xs[i]), xs)
  {
    if i < |xs| - 1 {
      AtKeyHas(key, Init(xs), i);
    }
  }

  lemma {:induction false} AtKeyFrom<T>(key: T -> Key, k: Key, xs: seq<T>, x: T)
    requires x in AtKey(key, k, xs)
    ensures x in xs && key(x) == k
  {
    if x in AtKey(key, k, Init(xs)) {
      AtKeyFrom(key, k, Init(xs), x);
    }
  }

  lemma {:induction false} AtKeyAppend<T>(key: T -> Key, k: Key, xs: seq<T>, ys: seq<T>)
    ensures AtKey(key, k, xs + ys) == AtKey(key, k, xs) + AtKey(key, k, ys)
  {
    if ys == [] {
      assert xs + ys == xs;
    } else {
      AtKeyAppend(key, k, xs, Init(ys));
      assert Init(xs + ys) == xs + Init(ys);
    }
  }

  lemma AtKeySwap<T>(key: T -> Key, k: Key, xs: seq<T>, x: T, y: T)
    requires key(x) != key(y)
    ensures AtKey(key, k, xs + [x] + [y]) == AtKey(key, k, xs + [y] + [x])
  {
    assert Init(xs + [x] + [y]) == xs + [x] && Init(xs + [y] + [x]) == xs + [y];
    assert Init(xs + [x]) == xs && Init(xs + [y]) == xs;
  }

  lemma {:induction false} InsertStable<T>(key: T -> Key, k: Key, ys: seq<T>, x: T)
    ensures AtKey(key, k, Insert(key, ys, x)) == AtKey(key, k, ys + [x])
  {
    if ys != [] && !KeyLe(key(Last(ys)), key(x)) {
      var init, last := Init(ys), Last(ys);
      KeyOrderIsTotal(key(last), key(x), key(last));
      calc {
        AtKey(key, k, Insert(key, init, x) + [last]);
        { AtKeyAppend(key, k, Insert(key, init, x), [last]); }
        AtKey(key, k, Insert(key, init, x)) + AtKey(key, k, [last]);
        { InsertStable(key, k, init, x); }
        AtKey(key, k, init + [x]) + AtKey(key, k, [last]);
        { AtKeyAppend(key, k, init + [x], [last]); }
        AtKey(key, k, init + [x] + [last]);
        { AtKeySwap(key, k, init, x, last); assert ys == init + [last]; }
        AtKey(key, k, ys + [x]);
      }
    }
  }

  /** The sort is stable: elements with equal keys keep their order. */
  lemma {:induction false} SortStable<T>(key: T -> Key, k: Key, xs: seq<T>)
    ensures AtKey(key, k, Sort(key, xs)) == AtKey(key, k, xs)
  {
    if xs != [] {
      var init, last := Init(xs), Last(xs);
      calc {
        AtKey(key, k, Insert(key, Sort(key, init), last));
        { InsertStable(key, k, Sort(key, init), last); }
        AtKey(key, k, Sort(key, init) + [last]);
        { AtKeyAppend(key, k, Sort(key, init), [last]); }
        AtKey(key, k, Sort(key, init)) + AtKey(key, k, [last]);
        { SortStable(key, k, init); }
        AtKey(key, k, init) + AtKey(key, k, [last]);
        { AtKeyAppend(key, k, init, [last]); assert xs == init + [last]; }
        AtKey(key, k, xs);
      }
    }
  }

  lemma LastBelow<T>(key: T -> Key, xs: seq<T>, ys: seq<T>)
    requires xs != [] && Sorted(key, ys)
    requires AtKey(key, key(Last(xs)), xs) == AtKey(key, key(Last(xs)), ys)
    ensures ys != [] && KeyLe(key(Last(xs)), key(Last(ys)))
  {
    var x := Last(xs);
    AtKeyHas(key, xs, |xs| - 1);
    AtKeyFrom(key, key(x), ys, x);
    KeyOrderIsTotal(key(x), key(x), key(x));
  }

  /** There is only one stable sort: sortedness and the order within each key fix the sequence. */
  lemma {:induction false} StableSortUnique<T>(key: T -> Key, xs: seq<T>, ys: seq<T>)
    requires Sorted(key, xs) && Sorted(key, ys)
    requires forall k :: AtKey(key, k, xs) == AtKey(key, k, ys)
    ensures xs == ys
    decreases |xs|
  {
    if xs != [] { LastBelow(key, xs, ys); }
    if ys != [] { LastBelow(key, ys, xs); }
    if xs != [] {
      var x, y := Last(xs), Last(ys);
      KeyOrderIsTotal(key(x), key(y), key(x));
      var common := AtKey(key, key(x), xs);
      assert common == AtKey(key, key(x), Init(xs)) + [x];
      assert common == AtKey(key, key(x), Init(ys)) + [y];
      assert x == common[|common| - 1] == y;
      forall k ensures AtKey(key, k, Init(xs)) == AtKey(key, k, Init(ys)) {
        assert AtKey(key, k, xs) == AtKey(key, k, ys);
        DropSame(AtKey(key, k, Init(xs)), AtKey(key, k, Init(ys)), if key(x) == k then [x] else []);
      }
      StableSortUnique(key, Init(xs), Init(ys));
      assert xs == Init(xs) + [x] && ys == Init(ys) + [y];
    }
  }

  lemma DropSame<T>(a: seq<T>, b: seq<T>, c: seq<T>)
    requires a + c == b + c
    ensures a == b
  {
    assert |a| == |b|;
    assert a == (a + c)[..|a|] && b == (b + c)[..|b|];
  }

  /** Sorting a part first makes no difference. */
  lemma SortAppend<T>(key: T -> Key, xs: seq<T>, ys: seq<T>)
    ensures Sort(key, Sort(key, xs) + ys) == Sort(key, xs + ys)
  {
    var left, right := Sort(key, Sort(key, xs) + ys), Sort(key, xs + ys);
    SortSorted(key, Sort(key, xs) + ys);
    SortSorted(key, xs + ys);
    forall k ensures AtKey(key, k, left) == AtKey(key, k, right) {
      SortStable(key, k, Sort(key, xs) + ys);
      SortStable(key, k, xs + ys);
      SortStable(key, k, xs);
      AtKeyAppend(key, k, Sort(key, xs), ys);
      AtKeyAppend(key, k, xs, ys);
    }
    StableSortUnique(key, left, right);
  }

  lemma SortOfSorted<T>(key: T -> Key, xs: seq<T>)
    requires Sorted(key, xs)
    ensures Sort(key, xs) == xs
  {
    SortSorted(key, xs);
    forall k ensures AtKey(key, k, Sort(key, xs)) == AtKey(key, k, xs) {
      SortStable(key, k, xs);
    }
    StableSortUnique(key, Sort(key, xs), xs);
  }

  /** No two different elements share a key. */
  ghost predicate KeysIdentify<T>(key: T -> Key, xs: seq<T>) {
    forall x, y :: x in xs && y in xs && key(x) == key(y) ==> x == y
  }

  lemma SplitLast<T>(xs: seq<T>)
    requires xs != []
    ensures xs == Init(xs) + [Last(xs)]
    ensures multiset(xs) == multiset(Init(xs)) + multiset{Last(xs)}
  {
    assert xs == Init(xs) + [Last(xs)];
  }

  lemma BelowLast<T>(key: T -> Key, xs: seq<T>, x: T)
    requires Sorted(key, xs) && x in xs
    ensures KeyLe(key(x), key(Last(xs)))
  {
    KeyOrderIsTotal(key(x), key(x), key(x));
    var i :| 0 <= i < |xs| && xs[i] == x;
  }

  /** Sequences with the same elements, sorted, end in the same element when keys identify them. */
  lemma SameLast<T>(key: T -> Key, xs: seq<T>, ys: seq<T>)
    requires xs != [] && Sorted(key, xs) && Sorted(key, ys) && multiset(xs) == multiset(ys) && KeysIdentify(key, xs)
    ensures ys != [] && Last(ys) == Last(xs)
  {
    SameElements(xs, ys);
    assert Last(xs) in ys && Last(ys) in xs;
    BelowLast(key, ys, Last(xs));
    BelowLast(key, xs, Last(ys));
    KeyOrderIsTotal(key(Last(xs)), key(Last(ys)), key(Last(xs)));
  }

  lemma SameInit<T>(xs: seq<T>, ys: seq<T>)
    requires xs != [] && ys != [] && multiset(xs) == multiset(ys) && Last(xs) == Last(ys)
    ensures multiset(Init(xs)) == multiset(Init(ys))
  {
    SplitLast(xs);
    SplitLast(ys);
    assert multiset(Init(xs)) == multiset(xs) - multiset{Last(xs)};
    assert multiset(Init(ys)) == multiset(ys) - multiset{Last(ys)};
  }

  lemma InitIdentifies<T>(key: T -> Key, xs: seq<T>)
    requires xs != [] && KeysIdentify(key, xs)
    ensures KeysIdentify(key, Init(xs))
  {
    assert forall x :: x in Init(xs) ==> x in xs;
  }

  lemma {:induction false} SortedPermutationUnique<T>(key: T -> Key, xs: seq<T>, ys: seq<T>)
    requires Sorted(key, xs) && Sorted(key, ys) && multiset(xs) == multiset(ys)
    requires KeysIdentify(key, xs)
    ensures xs == ys
    decreases |xs|
  {
    if xs == [] {
      SameElements(xs, ys);
    } else {
      SameLast(key, xs, ys);
      SameInit(xs, ys);
      InitIdentifies(key, xs);
      SortedPermutationUnique(key, Init(xs), Init(ys));
      assert xs == Init(xs) + [Last(xs)] && ys == Init(ys) + [Last(ys)];
    }
  }

  /** When keys identify elements, arrival order cannot be seen in the sorted sequence. */
  lemma SortIgnoresOrder<T>(key: T -> Key, xs: seq<T>, ys: seq<T>)
    requires multiset(xs) == multiset(ys)
    requires KeysIdentify(key, xs)
    ensures Sort(key, xs) == Sort(key, ys)
  {
    SortSorted(key, xs);
    SortSorted(key, ys);
    SortPermutes(key, xs);
    SortPermutes(key, ys);
    assert KeysIdentify(key, Sort(key, xs)) by {
      SortElements(key, xs);
    }
    SortedPermutationUnique(key, Sort(key, xs), Sort(key, ys));
  }

  lemma EmptyTogether<T>(xs: seq<T>, ys: seq<T>)
    requires forall x :: x in xs <==> x in ys
    ensures xs == [] <==> ys == []
  {
    if |xs| > 0 { var x := xs[0]; assert x in xs; }
    if |ys| > 0 { var y := ys[0]; assert y in ys; }
  }

  lemma StrictlyBelowLast<T>(key: T -> Key, xs: seq<T>, x: T)
    requires StrictlySorted(key, xs) && x in xs
    ensures x == Last(xs) || KeyLt(key(x), key(Last(xs)))
  {
    var i :| 0 <= i < |xs| && xs[i] == x;
  }

  lemma InitHas<T>(key: T -> Key, xs: seq<T>, x: T)
    requires xs != [] && StrictlySorted(key, xs)
    ensures x in Init(xs) <==> x in xs && x != Last(xs)
  {
    SplitLast(xs);
    if x in Init(xs) {
      var i :| 0 <= i < |xs| - 1 && xs[i] == x;
      assert KeyLt(key(x), key(Last(xs)));
      CompareKeysAgree(key(x), key(x));
    }
  }

  lemma SameGreatest<T>(key: T -> Key, xs: seq<T>, ys: seq<T>)
    requires xs != [] && ys != [] && StrictlySorted(key, xs) && StrictlySorted(key, ys)
    requires Last(xs) in ys && Last(ys) in xs
    ensures Last(xs) == Last(ys)
  {
    StrictlyBelowLast(key, ys, Last(xs));
    StrictlyBelowLast(key, xs, Last(ys));
    CompareKeysAgree(key(Last(xs)), key(Last(ys)));
  }

  /** A strictly sorted sequence is determined by its elements. */
  lemma {:induction false} StrictlySortedUnique<T>(key: T -> Key, xs: seq<T>, ys: seq<T>)
    requires StrictlySorted(key, xs) && StrictlySorted(key, ys)
    requires forall x :: x in xs <==> x in ys
    ensures xs == ys
    decreases |xs|
  {
    if |xs| != 0 || |ys| != 0 {
      EmptyTogether(xs, ys);
      assert Last(xs) in xs && Last(ys) in ys;
      SameGreatest(key, xs, ys);
      forall z ensures z in Init(xs) <==> z in Init(ys) {
        InitHas(key, xs, z);
        InitHas(key, ys, z);
      }
      StrictlySortedUnique(key, Init(xs), Init(ys));
      assert xs == Init(xs) + [Last(xs)] && ys == Init(ys) + [Last(ys)];
    }
  }

  // ----- retain the first element with each id -----

  function Ids<T>(id: T -> string, xs: seq<T>): set<string> {
    if xs == [] then {} else Ids(id, Init(xs)) + {id(Last(xs))}
  }

  /** An id stands for one element only. */
  ghost predicate IdsIdentify<T>(id: T -> string, xs: seq<T>) {
    forall x, y :: x in xs && y in xs && id(x) == id(y) ==> x == y
  }

  lemma {:induction false} IdsHas<T>(id: T -> string, xs: seq<T>, x: T)
    requires x in xs
    ensures id(x) in Ids(id, xs)
  {
    SplitLast(xs);
    if x in Init(xs) {
      IdsHas(id, Init(xs), x);
    }
  }

  lemma {:induction false} IdsFrom<T>(id: T -> string, xs: seq<T>, i: string) returns (x: T)
    requires i in Ids(id, xs)
    ensures x in xs && id(x) == i
  {
    if i == id(Last(xs)) {
      x := Last(xs);
    } else {
      x := IdsFrom(id, Init(xs), i);
    }
  }

  lemma {:induction false} SameIds<T>(id: T -> string, xs: seq<T>, ys: seq<T>)
    requires forall x :: x in xs ==> x in ys
    ensures Ids(id, xs) <= Ids(id, ys)
  {
    if xs != [] {
      SplitLast(xs);
      SameIds(id, Init(xs), ys);
      IdsHas(id, ys, Last(xs));
    }
  }

  /** `retain(|x| seen.insert(id(x)))`, starting from the ids in `seen`. */
  function Firsts<T>(id: T -> string, seen: set<string>, xs: seq<T>): seq<T> {
    if xs == [] then [] else
      Firsts(id, seen, Init(xs)) +
      if id(Last(xs)) in seen + Ids(id, Init(xs)) then [] else [Last(xs)]
  }

  ghost predicate DistinctIds<T>(id: T -> string, xs: seq<T>) {
    xs == [] || (DistinctIds(id, Init(xs)) && id(Last(xs)) !in Ids(id, Init(xs)))
  }

  lemma {:induction false} FirstsDistinct<T>(id: T -> string, seen: set<string>, xs: seq<T>)
    ensures DistinctIds(id, Firsts(id, seen, xs))
    ensures Ids(id, Firsts(id, seen, xs)) == Ids(id, xs) - seen
  {
    if xs != [] {
      FirstsDistinct(id, seen, Init(xs));
      var init, x := Firsts(id, seen, Init(xs)), Last(xs);
      if id(x) !in seen + Ids(id, Init(xs)) {
        var r := init + [x];
        assert Firsts(id, seen, xs) == r && Init(r) == init && Last(r) == x;
      } else {
        assert Firsts(id, seen, xs) == init;
      }
    }
  }

  lemma {:induction false} FirstsOfDistinct<T>(id: T -> string, xs: seq<T>)
    requires DistinctIds(id, xs)
    ensures Firsts(id, {}, xs) == xs
  {
    if xs != [] {
      FirstsOfDistinct(id, Init(xs));
      SplitLast(xs);
      assert {} + Ids(id, Init(xs)) == Ids(id, Init(xs));
      assert Firsts(id, {}, xs) == Firsts(id, {}, Init(xs)) + [Last(xs)];
    }
  }

  /** Ids are distinct exactly when there are as many ids as elements. */
  lemma {:induction false} IdsCount<T>(id: T -> string, xs: seq<T>)
    ensures |Ids(id, xs)| <= |xs|
    ensures DistinctIds(id, xs) <==> |Ids(id, xs)| == |xs|
  {
    if xs != [] {
      IdsCount(id, Init(xs));
      var ids, i := Ids(id, Init(xs)), id(Last(xs));
      if i in ids {
        assert ids + {i} == ids;
      }
    }
  }

  lemma {:induction false} FirstsFrom<T>(id: T -> string, seen: set<string>, xs: seq<T>, x: T)
    requires x in Firsts(id, seen, xs)
    ensures x in xs && id(x) !in seen
  {
    if x in Firsts(id, seen, Init(xs)) {
      FirstsFrom(id, seen, Init(xs), x);
    }
  }

  lemma {:induction false} FirstsSorted<T>(key: T -> Key, id: T -> string, seen: set<string>, xs: seq<T>)
    requires Sorted(key, xs)
    ensures Sorted(key, Firsts(id, seen, xs))
  {
    if xs != [] {
      FirstsSorted(key, id, seen, Init(xs));
      var init := Firsts(id, seen, Init(xs));
      forall y | y in init ensures KeyLe(key(y), key(Last(xs))) {
        FirstsFrom(id, seen, Init(xs), y);
      }
      SortedSnoc(key, init, Last(xs));
    }
  }

  /** With one element per id, what is retained is every element whose id was not seen before. */
  lemma {:induction false} FirstsHas<T>(id: T -> string, seen: set<string>, xs: seq<T>, x: T)
    requires IdsIdentify(id, xs)
    ensures x in Firsts(id, seen, xs) <==> x in xs && id(x) !in seen
  {
    if xs != [] {
      SplitLast(xs);
      var init, last := Init(xs), Last(xs);
      FirstsHas(id, seen, init, x);
      if x == last && id(x) in Ids(id, init) {
        var y := IdsFrom(id, init, id(x));
        assert y in xs && x in xs;
      }
    }
  }

  /** A sorted sequence without a repeated id is strictly sorted, when equal keys mean equal ids. */
  lemma {:induction false} DistinctSortedStrict<T>(key: T -> Key, id: T -> string, xs: seq<T>)
    requires Sorted(key, xs) && DistinctIds(id, xs)
    requires forall x, y :: x in xs && y in xs && key(x) == key(y) ==> id(x) == id(y)
    ensures StrictlySorted(key, xs)
  {
    if xs != [] {
      var init, x := Init(xs), Last(xs);
      DistinctSortedStrict(key, id, init);
      forall i | 0 <= i < |init| ensures KeyLt(key(xs[i]), key(x)) {
        IdsHas(id, init, init[i]);
        KeyOrderIsTotal(key(xs[i]), key(x), key(x));
      }
    }
  }

  /** Sorting the part that comes second first makes no difference either. */
  lemma SortAppendRight<T>(key: T -> Key, xs: seq<T>, ys: seq<T>)
    ensures Sort(key, xs + Sort(key, ys)) == Sort(key, xs + ys)
  {
    var left, right := Sort(key, xs + Sort(key, ys)), Sort(key, xs + ys);
    SortSorted(key, xs + Sort(key, ys));
    SortSorted(key, xs + ys);
    forall k ensures AtKey(key, k, left) == AtKey(key, k, right) {
      SortStable(key, k, xs + Sort(key, ys));
      SortStable(key, k, xs + ys);
      SortStable(key, k, ys);
      AtKeyAppend(key, k, xs, Sort(key, ys));
      AtKeyAppend(key, k, xs, ys);
    }
    StableSortUnique(key, left, right);
  }

  function NameSet(names: seq<string>): set<string> {
    set name | name in names
  }

  lemma SubsetSize<T>(a: set<T>, b: set<T>)
    requires a <= b
    ensures |a| <= |b|
    ensures |a| == |b| ==> a == b
  {
    assert b == a + (b - a);
  }

  /** A set with one element more, or not. */
  lemma OneMore<T>(before: set<T>, after: set<T>, x: T, more: bool)
    requires forall y :: y in after <==> y in before || (more && y == x)
    requires x !in before
    ensures |after| == |before| + if more then 1 else 0
  {
    if more {
      assert after == before + {x};
    } else {
      assert after == before;
    }
  }

  // ----- in-order traversal of a BTreeMap -----

  lemma {:induction false} LeastExists(s: set<string>)
    requires s != {}
    ensures exists k :: k in s && forall j :: j in s ==> StrLe(k, j)
  {
    var x :| x in s;
    CompareStringsAgree(x, x);
    if s == {x} {
    } else {
      var rest := s - {x};
      LeastExists(rest);
      var k :| k in rest && forall j :: j in rest ==> StrLe(k, j);
      CompareStringsAgree(x, k);
      var least := if StrLe(k, x) then k else x;
      forall j | j in s ensures StrLe(least, j) {
        if j in rest && !StrLe(k, x) { StrLeTransitive(x, k, j); }
      }
    }
  }

  /** The keys in ascending order. */
  function Ascending(s: set<string>): (r: seq<string>)
    ensures forall k :: k in r <==> k in s
  {
    if s == {} then [] else
      LeastExists(s);
      StrLeAntisymmetric();
      var k :| k in s && forall j :: j in s ==> StrLe(k, j);
      [k] + Ascending(s - {k})
  }

  lemma {:induction false} AscendingSize(s: set<string>)
    ensures |Ascending(s)| == |s|
  {
    if s != {} {
      AscendingSize(s - {Ascending(s)[0]});
    }
  }

  ghost predicate StrictlyAscending(xs: seq<string>) {
    forall i, j :: 0 <= i < j < |xs| ==> StrLe(xs[i], xs[j]) && xs[i] != xs[j]
  }

  lemma AscendingCons(k: string, tail: seq<string>)
    requires StrictlyAscending(tail)
    requires forall j :: j in tail ==> StrLe(k, j) && k != j
    ensures StrictlyAscending([k] + tail)
  {
    var r := [k] + tail;
    forall i, j | 0 <= i < j < |r| ensures StrLe(r[i], r[j]) && r[i] != r[j] {
      assert r[j] == tail[j - 1] && tail[j - 1] in tail;
      if i > 0 { assert r[i] == tail[i - 1]; }
    }
  }

  lemma {:induction false} AscendingSorted(s: set<string>)
    ensures StrictlyAscending(Ascending(s))
  {
    if s != {} {
      LeastExists(s);
      var r := Ascending(s);
      var k := r[0];
      AscendingSorted(s - {k});
      assert r == [k] + Ascending(s - {k});
      assert forall j :: j in s ==> StrLe(k, j);
      AscendingCons(k, Ascending(s - {k}));
    }
  }
}

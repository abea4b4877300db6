/**
 The orders the engine sorts by: strings code point by code point (the order Rust gives `str`)
 and the four-part key of `compare_protocol_events` and `compare_coordinator_events`.
 */
module Order {

  datatype Ordering = Less | Equal | Greater {
    /** `Ordering::then_with`, with the second comparison already made. */
    function Then(next: Ordering): Ordering {
      if Equal? then next else this
    }
  }

  function CompareInts(a: int, b: int): Ordering {
    if a < b then Less else if a == b then Equal else Greater
  }

  function CompareStrings(a: string, b: string): Ordering {
    if a == [] then (if b == [] then Equal else Less)
    else if b == [] then Greater
    else if a[0] != b[0] then (if a[0] < b[0] then Less else Greater)
    else CompareStrings(a[1..], b[1..])
  }

  predicate StrLe(a: string, b: string) {
    !CompareStrings(a, b).Greater?
  }

  predicate StrLt(a: string, b: string) {
    CompareStrings(a, b).Less?
  }

  /** A string is less than another when it is a proper prefix of it, or smaller where they first differ. */
  lemma {:induction false} StringsByCodePoint(a: string, b: string)
    ensures StrLt(a, b) <==>
              || (|a| < |b| && a == b[..|a|])
              || exists i :: 0 <= i < |a| && i < |b| && a[..i] == b[..i] && a[i] < b[i]
    ensures StrLe(a, b) <==> StrLt(a, b) || a == b
  {
    CompareStringsAgree(a, b);
    if a != [] && b != [] {
      if a[0] == b[0] {
        StringsByCodePoint(a[1..], b[1..]);
        SameHeads(a, b);
      } else {
        assert a[..0] == b[..0];
        assert forall i :: 0 < i < |a| && i < |b| ==> a[..i][0] != b[..i][0];
        assert |a| < |b| ==> b[..|a|][0] != a[0];
      }
    }
  }

  lemma SameHeads(a: string, b: string)
    requires a != [] && b != [] && a[0] == b[0]
    ensures |a| <= |b| ==> (a == b[..|a|] <==> a[1..] == b[1..][..|a| - 1])
    ensures (exists i :: 0 <= i < |a| && i < |b| && a[..i] == b[..i] && a[i] < b[i]) <==>
              exists i :: 0 <= i < |a[1..]| && i < |b[1..]| && a[1..][..i] == b[1..][..i] && a[1..][i] < b[1..][i]
  {
    var c, d := a[1..], b[1..];
    if |a| <= |b| {
      assert b[..|a|] == [b[0]] + d[..|a| - 1] && a == [a[0]] + c;
    }
    forall i | 0 <= i < |c| && i < |d| ensures c[..i] == d[..i] <==> a[..i + 1] == b[..i + 1] {
      assert a[..i + 1] == [a[0]] + c[..i] && b[..i + 1] == [b[0]] + d[..i];
      assert c[..i] == a[..i + 1][1..] && d[..i] == b[..i + 1][1..];
    }
    if i :| 0 <= i < |a| && i < |b| && a[..i] == b[..i] && a[i] < b[i] {
      assert i > 0 && c[i - 1] < d[i - 1] && c[..i - 1] == d[..i - 1];
    }
    if i :| 0 <= i < |c| && i < |d| && c[..i] == d[..i] && c[i] < d[i] {
      assert a[i + 1] < b[i + 1] && a[..i + 1] == b[..i + 1];
    }
  }

  lemma {:induction false} CompareStringsAgree(a: string, b: string)
    ensures CompareStrings(a, b).Equal? <==> a == b
    ensures CompareStrings(a, b).Less? <==> CompareStrings(b, a).Greater?
  {
    if a != [] && b != [] {
      CompareStringsAgree(a[1..], b[1..]);
      assert a == [a[0]] + a[1..] && b == [b[0]] + b[1..];
    }
  }

  lemma {:induction false} StrLeTransitive(a: string, b: string, c: string)
    requires StrLe(a, b) && StrLe(b, c)
    ensures StrLe(a, c)
  {
    if a != [] && b != [] && c != [] && a[0] == b[0] == c[0] {
      StrLeTransitive(a[1..], b[1..], c[1..]);
    }
  }

  lemma StrLeAntisymmetric()
    ensures forall a, b {:trigger StrLe(a, b), StrLe(b, a)} :: StrLe(a, b) && StrLe(b, a) ==> a == b
  {
    forall a, b | StrLe(a, b) && StrLe(b, a) ensures a == b {
      CompareStringsAgree(a, b);
    }
  }

  /** The part of an event the replay order looks at. */
  datatype Key = Key(rank: int, epoch: int, at: int, id: string)

  /** The four comparisons, each consulted when the ones before it tie. */
  function CompareKeys(a: Key, b: Key): Ordering {
    CompareInts(a.rank, b.rank)
      .Then(CompareInts(a.epoch, b.epoch))
      .Then(CompareInts(a.at, b.at))
      .Then(CompareStrings(a.id, b.id))
  }

  predicate KeyLe(a: Key, b: Key) {
    !CompareKeys(a, b).Greater?
  }

  predicate KeyLt(a: Key, b: Key) {
    CompareKeys(a, b).Less?
  }

  /** Two keys compare equal only when they are equal, and swapping the arguments swaps the answer. */
  lemma CompareKeysAgree(a: Key, b: Key)
    ensures CompareKeys(a, b).Equal? <==> a == b
    ensures CompareKeys(a, b).Less? <==> CompareKeys(b, a).Greater?
  {
    CompareStringsAgree(a.id, b.id);
  }

  /** Lower ranks first, then lower epochs, then earlier times, then lower ids. */
  lemma KeysCompared(a: Key, b: Key)
    ensures KeyLt(a, b) <==>
              || a.rank < b.rank
              || (a.rank == b.rank && a.epoch < b.epoch)
              || (a.rank == b.rank && a.epoch == b.epoch && a.at < b.at)
              || (a.rank == b.rank && a.epoch == b.epoch && a.at == b.at && StrLt(a.id, b.id))
    ensures KeyLe(a, b) <==> KeyLt(a, b) || a == b
  {
    CompareKeysAgree(a, b);
  }

  lemma KeyLeTransitive(a: Key, b: Key, c: Key)
    requires KeyLe(a, b) && KeyLe(b, c)
    ensures KeyLe(a, c)
  {
    if a.rank == b.rank == c.rank && a.epoch == b.epoch == c.epoch && a.at == b.at == c.at {
      StrLeTransitive(a.id, b.id, c.id);
    }
  }

  /** The key comparison is a total order. */
  lemma KeyOrderIsTotal(a: Key, b: Key, c: Key)
    ensures KeyLe(a, a)
    ensures KeyLe(a, b) || KeyLe(b, a)
    ensures KeyLe(a, b) && KeyLe(b, a) ==> a == b
    ensures KeyLe(a, b) && KeyLe(b, c) ==> KeyLe(a, c)
    ensures KeyLt(a, b) <==> KeyLe(a, b) && a != b
  {
    CompareKeysAgree(a, a);
    CompareKeysAgree(a, b);
    if KeyLe(a, b) && KeyLe(b, c) {
      KeyLeTransitive(a, b, c);
    }
  }
}

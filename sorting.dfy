/** `sorted(system_drives)` of src/disks/disks.py: a stable sort under
    `Drive.__lt__`, which compares the entry names as Python strings. Every
    stable sort gives the same output, so it is modelled as insertion sort
    over a key function. */
module Sorting {
  import opened Strings

  /** Non-decreasing by key: no later element's key is less than an earlier one's. */
  predicate SortedBy<T>(s: seq<T>, key: T -> string) {
    forall i, j :: 0 <= i < j < |s| ==> !LexLess(key(s[j]), key(s[i]))
  }

  /** The keys of the elements, in order. */
  function KeysOf<T>(s: seq<T>, key: T -> string): (r: seq<string>)
    ensures |r| == |s|
    ensures forall i :: 0 <= i < |s| ==> r[i] == key(s[i])
  {
    seq(|s|, i requires 0 <= i < |s| => key(s[i]))
  }

  /** Puts `x` in front of the first element whose key is not less than its own. */
  function Insert<T>(x: T, s: seq<T>, key: T -> string): (r: seq<T>)
    ensures |r| == |s| + 1
    ensures multiset(r) == multiset(s) + multiset{x}
  {
    if s == [] || !LexLess(key(s[0]), key(x)) then [x] + s
    else
      assert s == [s[0]] + s[1..];
      [s[0]] + Insert(x, s[1..], key)
  }

  /** Insertion sort: the last element is inserted first, so that of two
      elements with equal keys the earlier stays in front. */
  function SortBy<T>(s: seq<T>, key: T -> string): (r: seq<T>)
    ensures |r| == |s|
    ensures multiset(r) == multiset(s)
  {
    if s == [] then []
    else
      assert s == [s[0]] + s[1..];
      Insert(s[0], SortBy(s[1..], key), key)
  }

  lemma KeysOfCons<T>(x: T, s: seq<T>, key: T -> string)
    ensures KeysOf([x] + s, key) == [key(x)] + KeysOf(s, key)
  {
  }

  lemma {:induction false} InsertKeys<T>(x: T, s: seq<T>, key: T -> string)
    ensures multiset(KeysOf(Insert(x, s, key), key)) == multiset(KeysOf(s, key)) + multiset{key(x)}
    decreases |s|
  {
    KeysOfCons(x, s, key);
    if s != [] {
      InsertKeys(x, s[1..], key);
      KeysOfCons(s[0], s[1..], key);
      KeysOfCons(s[0], Insert(x, s[1..], key), key);
      assert s == [s[0]] + s[1..];
    }
  }

  /** Sorting permutes the keys as well as the elements. */
  lemma {:induction false} SortByKeys<T>(s: seq<T>, key: T -> string)
    ensures multiset(KeysOf(SortBy(s, key), key)) == multiset(KeysOf(s, key))
    decreases |s|
  {
    if s != [] {
      SortByKeys(s[1..], key);
      InsertKeys(s[0], SortBy(s[1..], key), key);
      KeysOfCons(s[0], s[1..], key);
      assert s == [s[0]] + s[1..];
    }
  }

  /** `a <= b <= c` implies `a <= c`, with `<=` meaning "not greater". */
  lemma NotLessTransitive(a: string, b: string, c: string)
    requires !LexLess(b, a) && !LexLess(c, b)
    ensures !LexLess(c, a)
  {
    LexLessTotal(b, c);
    if LexLess(b, c) && LexLess(c, a) {
      LexLessTransitive(b, c, a);
    }
  }

  /** Inserting into a sorted sequence keeps it sorted. */
  lemma {:induction false} InsertSorted<T>(x: T, s: seq<T>, key: T -> string)
    requires SortedBy(s, key)
    ensures SortedBy(Insert(x, s, key), key)
    decreases |s|
  {
    if s == [] || !LexLess(key(s[0]), key(x)) {
      InsertInFront(x, s, key);
    } else {
      InsertSorted(x, s[1..], key);
      InsertBehind(x, s, key);
    }
  }

  lemma InsertInFront<T>(x: T, s: seq<T>, key: T -> string)
    requires SortedBy(s, key)
    requires s == [] || !LexLess(key(s[0]), key(x))
    ensures SortedBy([x] + s, key)
  {
    var r := [x] + s;
    forall i, j | 0 <= i < j < |r| ensures !LexLess(key(r[j]), key(r[i])) {
      if i == 0 && j > 1 {
        NotLessTransitive(key(x), key(s[0]), key(s[j - 1]));
      }
    }
  }

  lemma InsertBehind<T>(x: T, s: seq<T>, key: T -> string)
    requires SortedBy(s, key)
    requires s != [] && LexLess(key(s[0]), key(x))
    requires SortedBy(Insert(x, s[1..], key), key)
    ensures SortedBy([s[0]] + Insert(x, s[1..], key), key)
  {
    var rest := Insert(x, s[1..], key);
    var r := [s[0]] + rest;
    forall j | 1 <= j < |r| ensures !LexLess(key(r[j]), key(r[0])) {
      var e := rest[j - 1];
      assert e in multiset(rest);
      if e == x {
        LexLessAsymmetric(key(s[0]), key(x));
      } else {
        assert e in multiset(s[1..]);
        var k :| 0 <= k < |s[1..]| && s[1..][k] == e;
        assert s[k + 1] == e;
      }
    }
  }

  lemma LexLessAsymmetric(a: string, b: string)
    requires LexLess(a, b)
    ensures !LexLess(b, a)
  {
    if LexLess(b, a) {
      LexLessTransitive(a, b, a);
      LexLessIrreflexive(a);
    }
  }

  lemma {:induction false} SortBySorted<T>(s: seq<T>, key: T -> string)
    ensures SortedBy(SortBy(s, key), key)
    decreases |s|
  {
    if s != [] {
      SortBySorted(s[1..], key);
      InsertSorted(s[0], SortBy(s[1..], key), key);
    }
  }

  /** `sorted` on names that are not numbers: "sda10" comes before "sda2". */
  lemma NamesSortAsText<T>(a: T, b: T, key: T -> string)
    requires key(a) == "sda2" && key(b) == "sda10"
    ensures SortBy([a, b], key) == [b, a]
  {
    LexLessNotNumeric();
    assert [a, b][1..] == [b];
  }
}

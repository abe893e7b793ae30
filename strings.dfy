/** The handful of Python `str` operations the inventory relies on:
    `startswith`, `split(sep)`, `sep.join(parts)`, `rstrip("1234567890")`
    and the `<` ordering of strings. */
module Strings {
  import opened Wrappers

  predicate IsDigit(c: char) {
    '0' <= c <= '9'
  }

  predicate EndsInDigit(s: string) {
    |s| > 0 && IsDigit(s[|s| - 1])
  }

  /** `s.startswith(prefix)` */
  predicate StartsWith(s: string, prefix: string) {
    |prefix| <= |s| && s[..|prefix|] == prefix
  }

  /** `s.rstrip("1234567890")`: the longest prefix of `s` that does not end
      in an ASCII digit and after which only digits follow. */
  function StripDigits(s: string): (r: string)
    ensures |r| <= |s| && r == s[..|r|]
    ensures !EndsInDigit(r)
    ensures forall i :: |r| <= i < |s| ==> IsDigit(s[i])
  {
    if EndsInDigit(s) then StripDigits(s[..|s| - 1]) else s
  }

  /** The three facts in StripDigits' contract pin its result down: any
      prefix with those properties is the stripped string. */
  lemma StripDigitsUnique(s: string, p: string)
    requires |p| <= |s| && p == s[..|p|]
    requires !EndsInDigit(p)
    requires forall i :: |p| <= i < |s| ==> IsDigit(s[i])
    ensures p == StripDigits(s)
  {
    var r := StripDigits(s);
    assert |r| > 0 ==> r[|r| - 1] == s[|r| - 1];
    assert |p| > 0 ==> p[|p| - 1] == s[|p| - 1];
  }

  predicate OccursAt(s: string, pat: string, i: nat) {
    i + |pat| <= |s| && s[i..i + |pat|] == pat
  }

  predicate Contains(s: string, pat: string) {
    exists i: nat :: i <= |s| && OccursAt(s, pat, i)
  }

  /** The first position at or after `i` where `pat` occurs in `s`. */
  function FindFrom(s: string, pat: string, i: nat): (r: Option<nat>)
    requires i <= |s|
    ensures r.Some? ==> i <= r.value <= |s| && OccursAt(s, pat, r.value)
    ensures r.Some? ==> forall j: nat :: i <= j < r.value ==> !OccursAt(s, pat, j)
    ensures r.None? ==> forall j: nat :: i <= j <= |s| ==> !OccursAt(s, pat, j)
    decreases |s| - i
  {
    if OccursAt(s, pat, i) then Some(i)
    else if i == |s| then None
    else FindFrom(s, pat, i + 1)
  }

  /** The first position where `pat` occurs in `s`. */
  function Find(s: string, pat: string): (r: Option<nat>)
    ensures r.Some? ==> r.value <= |s| && OccursAt(s, pat, r.value)
    ensures r.Some? ==> forall j: nat :: j < r.value ==> !OccursAt(s, pat, j)
    ensures r.None? ==> forall j: nat :: j <= |s| ==> !OccursAt(s, pat, j)
  {
    FindFrom(s, pat, 0)
  }

  /** `s.split(sep)` for a non-empty separator: cut at every occurrence of
      `sep`, scanning left to right without overlap. */
  function Split(s: string, sep: string): (r: seq<string>)
    requires |sep| > 0
    ensures |r| >= 1
    decreases |s|
  {
    match Find(s, sep)
    case None => [s]
    case Some(i) => [s[..i]] + Split(s[i + |sep|..], sep)
  }

  /** `sep.join(parts)` */
  function Join(parts: seq<string>, sep: string): string {
    if |parts| == 0 then ""
    else if |parts| == 1 then parts[0]
    else parts[0] + sep + Join(parts[1..], sep)
  }

  /** Splitting and joining back with the same separator gives the input. */
  lemma {:induction false} JoinSplit(s: string, sep: string)
    requires |sep| > 0
    ensures Join(Split(s, sep), sep) == s
    decreases |s|
  {
    var found := Find(s, sep);
    if found.Some? {
      var i := found.value;
      var head, rest := s[..i], s[i + |sep|..];
      JoinSplit(rest, sep);
      SplitAt(s, sep, i);
      JoinCons(head, Split(rest, sep), sep);
      assert s[i..i + |sep|] == sep;
      assert s == head + s[i..i + |sep|] + rest;
    }
  }

  /** Split takes the piece before the first separator, then splits the rest. */
  lemma SplitAt(s: string, sep: string, i: nat)
    requires |sep| > 0 && Find(s, sep) == Some(i)
    ensures Split(s, sep) == [s[..i]] + Split(s[i + |sep|..], sep)
  {
  }

  /** Joining a piece in front of at least one more. */
  lemma JoinCons(head: string, tail: seq<string>, sep: string)
    requires |tail| >= 1
    ensures Join([head] + tail, sep) == head + sep + Join(tail, sep)
  {
    assert ([head] + tail)[1..] == tail;
  }

  /** No piece produced by Split contains the separator. */
  lemma {:induction false} SplitPiecesFree(s: string, sep: string)
    requires |sep| > 0
    ensures forall k :: 0 <= k < |Split(s, sep)| ==> !Contains(Split(s, sep)[k], sep)
    decreases |s|
  {
    match Find(s, sep)
    case None =>
      forall j: nat | j <= |s| ensures !OccursAt(s, sep, j) { }
    case Some(i) =>
      var rest := s[i + |sep|..];
      SplitPiecesFree(rest, sep);
      var head := s[..i];
      forall j: nat | j <= |head| ensures !OccursAt(head, sep, j) {
        if j + |sep| <= |head| {
          assert head[j..j + |sep|] == s[j..j + |sep|];
          assert j < i && !OccursAt(s, sep, j);
        }
      }
      assert Split(s, sep) == [head] + Split(rest, sep);
  }

  /** The first occurrence of a one-character separator in `p + [c] + q`,
      when `p` holds no `c`, is right after `p`. */
  lemma FindAfterFreePrefix(p: string, c: char, q: string)
    requires c !in p
    ensures Find(p + [c] + q, [c]) == Some(|p|)
  {
    var s := p + [c] + q;
    assert OccursAt(s, [c], |p|);
    forall j: nat | j < |p| ensures !OccursAt(s, [c], j) {
      assert s[j..j + 1] == [p[j]];
      assert p[j] in p;
    }
  }

  /** For a one-character separator that no part contains, split undoes join. */
  lemma {:induction false} SplitJoin(parts: seq<string>, c: char)
    requires |parts| >= 1
    requires forall k :: 0 <= k < |parts| ==> c !in parts[k]
    ensures Split(Join(parts, [c]), [c]) == parts
  {
    if |parts| == 1 {
      var s := parts[0];
      forall j: nat | j < |s| ensures !OccursAt(s, [c], j) {
        assert s[j..j + 1] == [s[j]];
        assert s[j] in s;
      }
    } else {
      var head, rest := parts[0], Join(parts[1..], [c]);
      SplitJoin(parts[1..], c);
      assert parts == [head] + parts[1..];
      JoinCons(head, parts[1..], [c]);
      var s := head + [c] + rest;
      FindAfterFreePrefix(head, c, rest);
      SplitAt(s, [c], |head|);
      assert s[..|head|] == head;
      assert s[|head| + 1..] == rest;
    }
  }

  /** `a < b` on Python strings: code-point lexicographic order, in which a
      proper prefix comes first and digits are compared one by one. */
  predicate LexLess(a: string, b: string) {
    if |b| == 0 then false
    else if |a| == 0 then true
    else if a[0] != b[0] then a[0] < b[0]
    else LexLess(a[1..], b[1..])
  }

  lemma {:induction false} LexLessIrreflexive(a: string)
    ensures !LexLess(a, a)
  {
    if |a| > 0 {
      LexLessIrreflexive(a[1..]);
    }
  }

  lemma {:induction false} LexLessTransitive(a: string, b: string, c: string)
    requires LexLess(a, b) && LexLess(b, c)
    ensures LexLess(a, c)
  {
    if |a| > 0 && a[0] == b[0] && b[0] == c[0] {
      LexLessTransitive(a[1..], b[1..], c[1..]);
    }
  }

  /** Any two distinct strings are ordered one way or the other. */
  lemma {:induction false} LexLessTotal(a: string, b: string)
    ensures a == b || LexLess(a, b) || LexLess(b, a)
  {
    if |a| > 0 && |b| > 0 && a[0] == b[0] {
      LexLessTotal(a[1..], b[1..]);
      if a[1..] == b[1..] {
        assert a == [a[0]] + a[1..] && b == [b[0]] + b[1..];
      }
    }
  }

  /** The order is not numeric-aware: "sda10" sorts before "sda2". */
  lemma LexLessNotNumeric()
    ensures LexLess("sda10", "sda2") && !LexLess("sda2", "sda10")
  {
    assert "sda10"[1..] == "da10" && "sda2"[1..] == "da2";
    assert "da10"[1..] == "a10" && "da2"[1..] == "a2";
    assert "a10"[1..] == "10" && "a2"[1..] == "2";
  }
}

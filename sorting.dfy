/**
 * Go's `sort.Strings`: ascending order under Go's `<` on strings, which
 * compares byte by byte. On UTF-8 that is the same as comparing code points,
 * which is what `LessEq` does on Dafny characters.
 *
 * The model sorts by insertion. `SortedPermutationUnique` shows that any
 * algorithm producing a sorted permutation gives the same result, so the
 * choice of algorithm does not matter.
 */
module Sorting {

  /** Lexicographic order on strings; a prefix comes first. */
  predicate LessEq(a: string, b: string) {
    if a == [] then true
    else if b == [] then false
    else a[0] < b[0] || (a[0] == b[0] && LessEq(a[1..], b[1..]))
  }

  lemma {:induction false} LessEqReflexive(a: string)
    ensures LessEq(a, a)
  {
    if a != [] {
      LessEqReflexive(a[1..]);
    }
  }

  lemma {:induction false} LessEqTotal(a: string, b: string)
    ensures LessEq(a, b) || LessEq(b, a)
  {
    if a != [] && b != [] && a[0] == b[0] {
      LessEqTotal(a[1..], b[1..]);
    }
  }

  lemma {:induction false} LessEqTransitive(a: string, b: string, c: string)
    requires LessEq(a, b) && LessEq(b, c)
    ensures LessEq(a, c)
  {
    if a != [] && b != [] && c != [] && a[0] == b[0] == c[0] {
      LessEqTransitive(a[1..], b[1..], c[1..]);
    }
  }

  lemma {:induction false} LessEqAntisymmetric(a: string, b: string)
    requires LessEq(a, b) && LessEq(b, a)
    ensures a == b
  {
    if a != [] && b != [] {
      LessEqAntisymmetric(a[1..], b[1..]);
      assert a == [a[0]] + a[1..] && b == [b[0]] + b[1..];
    }
  }

  predicate Sorted(s: seq<string>) {
    forall i, j :: 0 <= i < j < |s| ==> LessEq(s[i], s[j])
  }

  predicate NoDuplicates(s: seq<string>) {
    forall i, j :: 0 <= i < j < |s| ==> s[i] != s[j]
  }

  /** Places `x` before the first element it does not exceed. */
  function Insert(x: string, s: seq<string>): seq<string> {
    if s == [] then [x]
    else if LessEq(x, s[0]) then [x] + s
    else [s[0]] + Insert(x, s[1..])
  }

  /** The model of `sort.Strings`: insertion of the last element into the sorted rest. */
  function SortStrings(s: seq<string>): seq<string> {
    if s == [] then [] else Insert(s[|s| - 1], SortStrings(s[..|s| - 1]))
  }

  lemma {:induction false} InsertPermutation(x: string, s: seq<string>)
    ensures multiset(Insert(x, s)) == multiset(s) + multiset{x}
  {
    if s != [] && !LessEq(x, s[0]) {
      InsertPermutation(x, s[1..]);
      assert s == [s[0]] + s[1..];
    }
  }

  /** The first element of a sorted sequence is below every element. */
  lemma SortedHead(s: seq<string>, e: string)
    requires Sorted(s) && s != [] && e in s
    ensures LessEq(s[0], e)
  {
    var j :| 0 <= j < |s| && s[j] == e;
    if j == 0 {
      LessEqReflexive(e);
    }
  }

  lemma {:induction false} InsertSorted(x: string, s: seq<string>)
    requires Sorted(s)
    ensures Sorted(Insert(x, s))
  {
    if s == [] {
    } else if LessEq(x, s[0]) {
      var r := Insert(x, s);
      forall i, j | 0 <= i < j < |r| ensures LessEq(r[i], r[j]) {
        if i == 0 && j > 1 {
          LessEqTransitive(x, s[0], s[j - 1]);
        }
      }
    } else {
      var rest := Insert(x, s[1..]);
      assert Sorted(s[1..]);
      InsertSorted(x, s[1..]);
      InsertPermutation(x, s[1..]);
      LessEqTotal(x, s[0]);
      var r := [s[0]] + rest;
      forall i, j | 0 <= i < j < |r| ensures LessEq(r[i], r[j]) {
        if i == 0 {
          var e := rest[j - 1];
          assert e in multiset(rest);
          if e != x {
            assert e in s[1..];
            SortedHead(s, e);
          }
        } else {
          assert r[i] == rest[i - 1] && r[j] == rest[j - 1];
        }
      }
    }
  }

  /** A new element in front keeps a sequence duplicate-free. */
  lemma NoDuplicatesCons(a: string, s: seq<string>)
    requires NoDuplicates(s) && a !in s
    ensures NoDuplicates([a] + s)
  {
    var r := [a] + s;
    forall i, j | 0 <= i < j < |r| ensures r[i] != r[j] {
      assert r[j] == s[j - 1];
      if i > 0 {
        assert r[i] == s[i - 1];
      }
    }
  }

  /** A new element at the end keeps a sequence duplicate-free. */
  lemma NoDuplicatesSnoc(s: seq<string>, a: string)
    requires NoDuplicates(s) && a !in s
    ensures NoDuplicates(s + [a])
  {
    var r := s + [a];
    forall i, j | 0 <= i < j < |r| ensures r[i] != r[j] {
      assert r[i] == s[i];
    }
  }

  /** An element above every element of a sorted sequence can go at its end. */
  lemma SortedSnoc(s: seq<string>, a: string)
    requires Sorted(s) && forall e :: e in s ==> LessEq(e, a)
    ensures Sorted(s + [a])
  {
    var r := s + [a];
    forall i, j | 0 <= i < j < |r| ensures LessEq(r[i], r[j]) {
      assert r[i] == s[i] && r[i] in s;
    }
  }

  lemma {:induction false} InsertNoDuplicates(x: string, s: seq<string>)
    requires NoDuplicates(s) && x !in s
    ensures NoDuplicates(Insert(x, s))
  {
    if s == [] {
    } else if LessEq(x, s[0]) {
      NoDuplicatesCons(x, s);
    } else {
      var rest := Insert(x, s[1..]);
      assert s == [s[0]] + s[1..];
      assert NoDuplicates(s[1..]) && s[0] !in s[1..];
      InsertNoDuplicates(x, s[1..]);
      InsertPermutation(x, s[1..]);
      assert s[0] !in multiset(rest);
      NoDuplicatesCons(s[0], rest);
    }
  }

  /** sort.Strings returns a sorted rearrangement of its input. */
  lemma {:induction false} SortStringsCorrect(s: seq<string>)
    ensures Sorted(SortStrings(s))
    ensures multiset(SortStrings(s)) == multiset(s)
  {
    if s != [] {
      var init := s[..|s| - 1];
      SortStringsCorrect(init);
      InsertSorted(s[|s| - 1], SortStrings(init));
      InsertPermutation(s[|s| - 1], SortStrings(init));
      assert s == init + [s[|s| - 1]];
    }
  }

  /** Sorting a duplicate-free sequence keeps it duplicate-free. */
  lemma {:induction false} SortStringsNoDuplicates(s: seq<string>)
    requires NoDuplicates(s)
    ensures NoDuplicates(SortStrings(s))
  {
    if s != [] {
      var init := s[..|s| - 1];
      var last := s[|s| - 1];
      assert NoDuplicates(init);
      SortStringsNoDuplicates(init);
      SortStringsCorrect(init);
      assert last !in init;
      assert last !in multiset(SortStrings(init));
      InsertNoDuplicates(last, SortStrings(init));
    }
  }

  /** Sorting an extended sequence inserts the new element into the sorted old one. */
  lemma SortStringsAppend(s: seq<string>, x: string)
    ensures SortStrings(s + [x]) == Insert(x, SortStrings(s))
  {
    assert (s + [x])[..|s|] == s;
  }

  lemma MultisetTail(s: seq<string>)
    requires s != []
    ensures multiset(s[1..]) == multiset(s) - multiset{s[0]}
  {
    assert s == [s[0]] + s[1..];
  }

  lemma SortedTail(s: seq<string>)
    requires Sorted(s) && s != []
    ensures Sorted(s[1..])
  {
    var t := s[1..];
    forall i, j | 0 <= i < j < |t| ensures LessEq(t[i], t[j]) {
      assert t[i] == s[i + 1] && t[j] == s[j + 1];
    }
  }

  lemma SortedHeadsEqual(a: seq<string>, b: seq<string>)
    requires Sorted(a) && Sorted(b) && multiset(a) == multiset(b) && a != []
    ensures b != [] && a[0] == b[0]
  {
    assert |a| == |multiset(a)| == |multiset(b)| == |b|;
    assert a[0] in multiset(b) && b[0] in multiset(a);
    SortedHead(b, a[0]);
    SortedHead(a, b[0]);
    LessEqAntisymmetric(a[0], b[0]);
  }

  /** There is only one sorted arrangement of a multiset of strings. */
  lemma {:induction false} SortedPermutationUnique(a: seq<string>, b: seq<string>)
    requires Sorted(a) && Sorted(b) && multiset(a) == multiset(b)
    ensures a == b
  {
    if a != [] {
      SortedHeadsEqual(a, b);
      MultisetTail(a);
      MultisetTail(b);
      SortedTail(a);
      SortedTail(b);
      SortedPermutationUnique(a[1..], b[1..]);
      assert a == [a[0]] + a[1..] && b == [b[0]] + b[1..];
    }
  }
}

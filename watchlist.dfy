/**
 * internal/watchlist/watchlist.go: the watchlist service. Every operation
 * normalises its ticker (upper-case, then trim), loads the stored list,
 * changes it in memory and saves the whole list back.
 *
 * The service's state is the content of the watchlist file, `None` while
 * the file does not exist. Each operation is specified by a pure step
 * function on that state (AddStep, RemoveStep, UpdateStep); the methods of
 * `Service` are proved to perform exactly that step, and the lemmas below
 * state what the steps promise.
 */
module Watchlist {
  import opened Wrappers
  import opened Strings
  import opened Sorting
  import opened Config

  /** `strings.TrimSpace(strings.ToUpper(ticker))`. */
  function Normalize(raw: string): string {
    TrimSpace(ToUpper(raw))
  }

  /**
   * A normalised ticker is upper-case and trimmed, normalising it again
   * changes nothing, and normalising never introduces a comma.
   */
  lemma NormalizeFacts(raw: string)
    ensures IsUpper(Normalize(raw)) && Trimmed(Normalize(raw))
    ensures Normalize(Normalize(raw)) == Normalize(raw)
    ensures ',' !in raw ==> ',' !in Normalize(raw)
  {
    var t := Normalize(raw);
    ToUpperIsUpper(raw);
    TrimSpaceKeepsUpper(ToUpper(raw));
    TrimSpaceTrimmed(ToUpper(raw));
    ToUpperOfUpper(t);
    TrimSpaceOfTrimmed(t);
    if ',' !in raw {
      ToUpperKeepsCommaFree(raw);
      TrimSpaceChars(ToUpper(raw));
    }
  }

  datatype Error =
    | EmptyTicker                       // "ticker cannot be empty"
    | AlreadyInWatchlist(ticker: string)
    | NotInWatchlist(ticker: string)
    | LoadFailed(cause: IoError)        // "failed to load watchlist"
    | SaveFailed(cause: IoError)        // "failed to save watchlist"

  // ---------------------------------------------------------------------
  // The list operations

  /** AddTicker's new list: the ticker appended, then sorted. */
  function Added(l: seq<string>, t: string): seq<string> {
    SortStrings(l + [t])
  }

  /** RemoveTicker's new list: the old list without any entry equal to `t`, in order. */
  function Removed(l: seq<string>, t: string): seq<string> {
    if l == [] then []
    else Removed(l[..|l| - 1], t) + (if l[|l| - 1] != t then [l[|l| - 1]] else [])
  }

  /** UpdateWatchlist's normalisation pass: the non-empty normalised inputs, in order. */
  function NormalizedNonEmpty(raws: seq<string>): seq<string> {
    if raws == [] then []
    else
      var n := Normalize(raws[|raws| - 1]);
      NormalizedNonEmpty(raws[..|raws| - 1]) + (if n != "" then [n] else [])
  }

  /** UpdateWatchlist's new list. */
  function Replaced(raws: seq<string>): seq<string> {
    SortStrings(NormalizedNonEmpty(raws))
  }

  /**
   * Adding stores a sorted list holding the old entries and the new ticker;
   * adding a ticker that is absent keeps a duplicate-free list duplicate-free.
   */
  lemma AddedFacts(l: seq<string>, t: string)
    ensures Sorted(Added(l, t))
    ensures multiset(Added(l, t)) == multiset(l) + multiset{t}
    ensures NoDuplicates(l) && t !in l ==> NoDuplicates(Added(l, t))
  {
    SortStringsCorrect(l + [t]);
    if NoDuplicates(l) && t !in l {
      SortStringsAppend(l, t);
      SortStringsNoDuplicates(l);
      SortStringsCorrect(l);
      assert t !in multiset(SortStrings(l));
      InsertNoDuplicates(t, SortStrings(l));
    }
  }

  /** The loop step of RemoveTicker: one more entry of the prefix considered. */
  lemma RemovedPrefix(l: seq<string>, i: int, t: string)
    requires 0 <= i < |l|
    ensures Removed(l[..i + 1], t) == Removed(l[..i], t) + (if l[i] != t then [l[i]] else [])
  {
    assert l[..i + 1][..i] == l[..i];
  }

  /** Removal drops exactly the entries equal to `t`. */
  lemma RemovedMembers(l: seq<string>, t: string)
    ensures forall x :: x in Removed(l, t) <==> x in l && x != t
    ensures multiset(Removed(l, t)) == multiset(l)[t := 0]
    ensures |Removed(l, t)| <= |l|
  {
    RemovedCounts(l, t);
    var r := Removed(l, t);
    forall x ensures x in r <==> x in l && x != t {
      assert x in r <==> x in multiset(r);
      assert x in l <==> x in multiset(l);
    }
  }

  lemma {:induction false} RemovedCounts(l: seq<string>, t: string)
    ensures multiset(Removed(l, t)) == multiset(l)[t := 0]
    ensures |Removed(l, t)| <= |l|
  {
    if l != [] {
      var init, last := l[..|l| - 1], l[|l| - 1];
      RemovedCounts(init, t);
      assert l == init + [last];
      assert multiset(l) == multiset(init) + multiset{last};
    }
  }

  /** Removal keeps the rest in order, so it keeps a list sorted and duplicate-free. */
  lemma RemovedKeepsOrder(l: seq<string>, t: string)
    ensures Sorted(l) ==> Sorted(Removed(l, t))
    ensures NoDuplicates(l) ==> NoDuplicates(Removed(l, t))
  {
    if Sorted(l) {
      RemovedKeepsSorted(l, t);
    }
    if NoDuplicates(l) {
      RemovedKeepsUnique(l, t);
    }
  }

  lemma {:induction false} RemovedKeepsSorted(l: seq<string>, t: string)
    requires Sorted(l)
    ensures Sorted(Removed(l, t))
  {
    if l != [] {
      var init, last := l[..|l| - 1], l[|l| - 1];
      assert Sorted(init);
      RemovedKeepsSorted(init, t);
      RemovedMembers(init, t);
      var ri := Removed(init, t);
      if last != t {
        forall e | e in ri ensures LessEq(e, last) {
          var k :| 0 <= k < |init| && init[k] == e;
          assert l[k] == e;
        }
        SortedSnoc(ri, last);
      }
    }
  }

  lemma {:induction false} RemovedKeepsUnique(l: seq<string>, t: string)
    requires NoDuplicates(l)
    ensures NoDuplicates(Removed(l, t))
  {
    if l != [] {
      var init, last := l[..|l| - 1], l[|l| - 1];
      assert NoDuplicates(init);
      RemovedKeepsUnique(init, t);
      RemovedMembers(init, t);
      var ri := Removed(init, t);
      if last != t {
        forall k | 0 <= k < |init| ensures init[k] != last {
          assert init[k] == l[k];
        }
        NoDuplicatesSnoc(ri, last);
      }
    }
  }

  /** Removing a ticker that is not there changes nothing. */
  lemma {:induction false} RemovedAbsent(l: seq<string>, t: string)
    requires t !in l
    ensures Removed(l, t) == l
  {
    if l != [] {
      var init := l[..|l| - 1];
      RemovedAbsent(init, t);
      assert l == init + [l[|l| - 1]];
    }
  }

  /** Adding a new ticker to a sorted list and removing it again gives the list back. */
  lemma AddThenRemove(l: seq<string>, t: string)
    requires Sorted(l) && t !in l
    ensures Removed(Added(l, t), t) == l
  {
    var a := Added(l, t);
    AddedFacts(l, t);
    RemovedMembers(a, t);
    RemovedKeepsOrder(a, t);
    assert multiset(a)[t := 0] == multiset(l) by {
      assert multiset(l)[t] == 0;
    }
    SortedPermutationUnique(Removed(a, t), l);
  }

  /** Every entry the normalisation pass keeps is a non-empty normalised input. */
  lemma {:induction false} NormalizedNonEmptyFrom(raws: seq<string>)
    ensures forall x :: x in NormalizedNonEmpty(raws) ==>
      x != "" && exists i :: 0 <= i < |raws| && Normalize(raws[i]) == x
  {
    if raws != [] {
      var init := raws[..|raws| - 1];
      NormalizedNonEmptyFrom(init);
      forall x | x in NormalizedNonEmpty(raws)
        ensures x != "" && exists i :: 0 <= i < |raws| && Normalize(raws[i]) == x
      {
        if x in NormalizedNonEmpty(init) {
          var i :| 0 <= i < |init| && Normalize(init[i]) == x;
          assert raws[i] == init[i];
        } else {
          assert Normalize(raws[|raws| - 1]) == x;
        }
      }
    }
  }

  /** The normalisation pass keeps every input whose normalised form is not empty. */
  lemma {:induction false} NormalizedNonEmptyKeeps(raws: seq<string>)
    ensures forall i :: 0 <= i < |raws| && Normalize(raws[i]) != "" ==>
      Normalize(raws[i]) in NormalizedNonEmpty(raws)
  {
    if raws != [] {
      var init := raws[..|raws| - 1];
      NormalizedNonEmptyKeeps(init);
      forall i | 0 <= i < |raws| - 1 && Normalize(raws[i]) != ""
        ensures Normalize(raws[i]) in NormalizedNonEmpty(raws)
      {
        assert raws[i] == init[i];
      }
    }
  }

  /**
   * Each kept entry is already normalised, and it can be stored when no
   * input holds a comma.
   */
  lemma NormalizedNonEmptyNormal(raws: seq<string>)
    ensures forall x :: x in NormalizedNonEmpty(raws) ==> Normalize(x) == x
    ensures (forall i :: 0 <= i < |raws| ==> ',' !in raws[i]) ==>
      forall x :: x in NormalizedNonEmpty(raws) ==> Storable(x)
  {
    NormalizedNonEmptyFrom(raws);
    forall x | x in NormalizedNonEmpty(raws)
      ensures Normalize(x) == x
      ensures (forall i :: 0 <= i < |raws| ==> ',' !in raws[i]) ==> Storable(x)
    {
      var i :| 0 <= i < |raws| && Normalize(raws[i]) == x;
      NormalizeFacts(raws[i]);
    }
  }

  /**
   * UpdateWatchlist stores a sorted list of normalised, non-empty tickers
   * holding each normalised input as often as it occurs: it does not remove
   * duplicates.
   */
  lemma ReplacedFacts(raws: seq<string>)
    ensures Sorted(Replaced(raws))
    ensures multiset(Replaced(raws)) == multiset(NormalizedNonEmpty(raws))
    ensures forall x :: x in Replaced(raws) ==> x != "" && Normalize(x) == x
  {
    var n := NormalizedNonEmpty(raws);
    var r := SortStrings(n);
    SortStringsCorrect(n);
    NormalizedNonEmptyFrom(raws);
    NormalizedNonEmptyNormal(raws);
    forall x | x in r ensures x != "" && Normalize(x) == x {
      assert x in multiset(r);
      assert x in n;
    }
  }

  /** Two spellings of one ticker are both kept by UpdateWatchlist. */
  lemma ReplacedKeepsDuplicates()
    ensures Replaced(["aapl", "AAPL"]) == ["AAPL", "AAPL"]
    ensures !NoDuplicates(Replaced(["aapl", "AAPL"]))
  {
    var raws := ["aapl", "AAPL"];
    assert Normalize("aapl") == "AAPL";
    assert Normalize("AAPL") == "AAPL";
    assert raws[..1] == ["aapl"];
    assert NormalizedNonEmpty(raws) == ["AAPL", "AAPL"];
    LessEqReflexive("AAPL");
    assert SortStrings(["AAPL"]) == ["AAPL"];
    assert ["AAPL", "AAPL"][..1] == ["AAPL"];
  }

  // ---------------------------------------------------------------------
  // The steps on the stored file

  /** The list a load returns for the file content `st` (an absent file loads as `[]`). */
  function Listed(st: Option<string>): seq<string> {
    if st.Some? then ParseWatchlist(st.value) else []
  }

  /** A load creates an absent file with empty content. */
  function Created(st: Option<string>): Option<string> {
    if st.Some? then st else Some("")
  }

  /** An operation's returned error and the file content it leaves behind. */
  datatype Step = Step(outcome: Outcome<Error>, store: Option<string>)

  /** AddTicker on the watchlist file at `path`; `writable` is false when writes to it fail. */
  function AddStep(st: Option<string>, path: string, writable: bool, raw: string): Step {
    var t := Normalize(raw);
    if t == "" then Step(Fail(EmptyTicker), st)
    else if st.None? && !writable then Step(Fail(LoadFailed(CreateFileFailed(path))), st)
    else if t in Listed(st) then Step(Fail(AlreadyInWatchlist(t)), Created(st))
    else if !writable then Step(Fail(SaveFailed(WriteFileFailed(path))), Created(st))
    else Step(Pass, Some(Join(Added(Listed(st), t))))
  }

  /** RemoveTicker on the watchlist file. */
  function RemoveStep(st: Option<string>, path: string, writable: bool, raw: string): Step {
    var t := Normalize(raw);
    if t == "" then Step(Fail(EmptyTicker), st)
    else if st.None? && !writable then Step(Fail(LoadFailed(CreateFileFailed(path))), st)
    else if t !in Listed(st) then Step(Fail(NotInWatchlist(t)), Created(st))
    else if !writable then Step(Fail(SaveFailed(WriteFileFailed(path))), Created(st))
    else Step(Pass, Some(Join(Removed(Listed(st), t))))
  }

  /** UpdateWatchlist on the watchlist file: no load, one save. */
  function UpdateStep(st: Option<string>, path: string, writable: bool, raws: seq<string>): Step {
    if !writable then Step(Fail(SaveFailed(WriteFileFailed(path))), st)
    else Step(Pass, Some(Join(Replaced(raws))))
  }

  /** AddMultipleTickers: each ticker's AddStep in order, errors ignored. */
  function AddAll(st: Option<string>, path: string, writable: bool, raws: seq<string>): Option<string> {
    if raws == [] then st
    else AddStep(AddAll(st, path, writable, raws[..|raws| - 1]), path, writable, raws[|raws| - 1]).store
  }

  /** RemoveMultipleTickers: each ticker's RemoveStep in order, errors ignored. */
  function RemoveAll(st: Option<string>, path: string, writable: bool, raws: seq<string>): Option<string> {
    if raws == [] then st
    else RemoveStep(RemoveAll(st, path, writable, raws[..|raws| - 1]), path, writable, raws[|raws| - 1]).store
  }

  lemma AddAllSnoc(st: Option<string>, path: string, writable: bool, raws: seq<string>, raw: string)
    ensures AddAll(st, path, writable, raws + [raw]) == AddStep(AddAll(st, path, writable, raws), path, writable, raw).store
  {
    assert (raws + [raw])[..|raws|] == raws;
  }

  lemma RemoveAllSnoc(st: Option<string>, path: string, writable: bool, raws: seq<string>, raw: string)
    ensures RemoveAll(st, path, writable, raws + [raw]) == RemoveStep(RemoveAll(st, path, writable, raws), path, writable, raw).store
  {
    assert (raws + [raw])[..|raws|] == raws;
  }

  /** The invariant the service keeps: the stored list is sorted and has no duplicates. */
  predicate SortedUnique(st: Option<string>) {
    Sorted(Listed(st)) && NoDuplicates(Listed(st))
  }

  /**
   * Every add fails on an empty ticker, on a ticker already listed and on
   * a file that cannot be written, and then the listed tickers are as
   * before. It succeeds exactly otherwise, and then stores the joined
   * Added list.
   */
  lemma AddStepOutcome(st: Option<string>, path: string, writable: bool, raw: string)
    ensures var s, t := AddStep(st, path, writable, raw), Normalize(raw);
      && (t == "" ==> s == Step(Fail(EmptyTicker), st))
      && (t != "" && t in Listed(st) ==> s == Step(Fail(AlreadyInWatchlist(t)), st))
      && (s.outcome.Pass? <==> t != "" && writable && t !in Listed(st))
      && (s.outcome.Pass? ==> s.store == Some(Join(Added(Listed(st), t))))
      && (s.outcome.Fail? ==> Listed(s.store) == Listed(st) && (s.store == st || (st.None? && s.store == Some(""))))
  {
  }

  /**
   * A successful add of a comma-free ticker stores the Added list itself:
   * loading it back yields a sorted list whose multiset is the old one plus
   * the normalised ticker.
   */
  lemma AddStepStores(st: Option<string>, path: string, writable: bool, raw: string)
    requires ',' !in raw
    requires AddStep(st, path, writable, raw).outcome.Pass?
    ensures var l, t := Listed(st), Normalize(raw);
      && Listed(AddStep(st, path, writable, raw).store) == Added(l, t)
      && Sorted(Listed(AddStep(st, path, writable, raw).store))
      && multiset(Listed(AddStep(st, path, writable, raw).store)) == multiset(l) + multiset{t}
  {
    var l, t := Listed(st), Normalize(raw);
    var a := Added(l, t);
    AddedFacts(l, t);
    NormalizeFacts(raw);
    if st.Some? {
      ParseWatchlistStorable(st.value);
    }
    assert t in multiset(a);
    forall i | 0 <= i < |a| ensures Storable(a[i]) {
      assert a[i] in multiset(l + [t]);
      assert a[i] in l || a[i] == t;
    }
    SaveThenLoad(a);
  }

  /** An add of a comma-free ticker keeps the stored list sorted and duplicate-free. */
  lemma AddStepKeepsInvariant(st: Option<string>, path: string, writable: bool, raw: string)
    requires ',' !in raw
    requires SortedUnique(st)
    ensures SortedUnique(AddStep(st, path, writable, raw).store)
  {
    var s := AddStep(st, path, writable, raw);
    if s.outcome.Pass? {
      AddStepStores(st, path, writable, raw);
      AddedFacts(Listed(st), Normalize(raw));
    }
  }

  /** `add(x); add(x)`: for a comma-free ticker the second call fails and changes nothing. */
  lemma AddTwice(st: Option<string>, path: string, writable: bool, raw: string)
    requires ',' !in raw
    requires AddStep(st, path, writable, raw).outcome.Pass?
    ensures var once := AddStep(st, path, writable, raw).store;
      AddStep(once, path, writable, raw) == Step(Fail(AlreadyInWatchlist(Normalize(raw))), once)
  {
    AddStepStores(st, path, writable, raw);
    AddedFacts(Listed(st), Normalize(raw));
    assert Normalize(raw) in multiset(Added(Listed(st), Normalize(raw)));
  }

  lemma NormalizeCommaExample()
    ensures Normalize("a,b") == "A,B"
  {
    var u := ToUpper("a,b");
    assert u == "A,B" by {
      assert u[0] == 'A' && u[1] == ',' && u[2] == 'B';
    }
    TrimSpaceOfTrimmed(u);
  }

  /**
   * The service itself does not reject commas: a ticker holding one is
   * saved as two entries, so adding it a second time succeeds again.
   */
  lemma AddTwiceWithComma(path: string)
    ensures AddStep(Some(""), path, true, "a,b") == Step(Pass, Some("A,B"))
    ensures AddStep(Some("A,B"), path, true, "a,b") == Step(Pass, Some("A,A,B,B"))
  {
    NormalizeCommaExample();
    CommaFirstAdd(path);
    CommaSecondAdd(path);
  }

  lemma CommaFirstAdd(path: string)
    requires Normalize("a,b") == "A,B"
    ensures AddStep(Some(""), path, true, "a,b") == Step(Pass, Some("A,B"))
  {
    assert Listed(Some("")) == [];
    assert SortStrings(["A,B"]) == ["A,B"];
    assert Added([], "A,B") == ["A,B"];
  }

  lemma CommaSecondAdd(path: string)
    requires Normalize("a,b") == "A,B"
    ensures AddStep(Some("A,B"), path, true, "a,b") == Step(Pass, Some("A,A,B,B"))
  {
    CommaEntryLoadsAsTwo();
    CommaEntrySorted();
    assert Added(["A", "B"], "A,B") == ["A", "A,B", "B"] by {
      assert ["A", "B"] + ["A,B"] == ["A", "B", "A,B"];
    }
    CommaEntryJoined();
  }

  lemma CommaEntryJoined()
    ensures Join(["A", "A,B", "B"]) == "A,A,B,B"
  {
    var l := ["A", "A,B", "B"];
    assert Join(l) == l[0] + "," + Join(l[1..]);
    assert Join(l[1..]) == "A,B" + "," + Join(l[2..]);
    assert Join(l[2..]) == "B";
  }

  lemma CommaEntryLoadsAsTwo()
    ensures Listed(Some("A,B")) == ["A", "B"]
  {
    var ab := ["A", "B"];
    assert Join(ab) == "A,B" by {
      assert Join(ab) == ab[0] + "," + Join(ab[1..]);
      assert Join(ab[1..]) == "B";
    }
    assert Storable(ab[0]) && Storable(ab[1]);
    SaveThenLoad(ab);
  }

  lemma CommaEntrySorted()
    ensures SortStrings(["A", "B", "A,B"]) == ["A", "A,B", "B"]
  {
    var l := ["A", "B", "A,B"];
    assert l[..2] == ["A", "B"] && l[..2][..1] == ["A"];
    assert SortStrings(["A"]) == ["A"];
    assert LessEq("A", "B");
    assert SortStrings(["A", "B"]) == ["A", "B"];
    assert !LessEq("A,B", "A") && LessEq("A,B", "B");
    assert Insert("A,B", ["A", "B"]) == ["A", "A,B", "B"];
  }

  /**
   * Nor does the sorted order survive a comma: "b,a" is stored as the
   * single entry "B,A", which loads back as "B" before "A".
   */
  lemma AddCommaUnsorted(path: string)
    ensures SortedUnique(Some(""))
    ensures AddStep(Some(""), path, true, "b,a") == Step(Pass, Some("B,A"))
    ensures Listed(Some("B,A")) == ["B", "A"] && !Sorted(["B", "A"])
  {
    NormalizeReversedComma();
    assert Listed(Some("")) == [];
    assert SortStrings(["B,A"]) == ["B,A"];
    assert Added([], "B,A") == ["B,A"];
    ReversedCommaLoadsAsTwo();
    var ba := ["B", "A"];
    assert !LessEq(ba[0], ba[1]);
  }

  lemma NormalizeReversedComma()
    ensures Normalize("b,a") == "B,A"
  {
    var u := ToUpper("b,a");
    assert u == "B,A" by {
      assert u[0] == 'B' && u[1] == ',' && u[2] == 'A';
    }
    TrimSpaceOfTrimmed(u);
  }

  lemma ReversedCommaLoadsAsTwo()
    ensures Listed(Some("B,A")) == ["B", "A"]
  {
    var ba := ["B", "A"];
    assert Join(ba) == "B,A" by {
      assert Join(ba) == ba[0] + "," + Join(ba[1..]);
      assert Join(ba[1..]) == "A";
    }
    assert Storable(ba[0]) && Storable(ba[1]);
    SaveThenLoad(ba);
  }

  /**
   * A remove fails on an empty ticker, a ticker not listed and a file that
   * cannot be written, leaving the listed tickers as they were; otherwise it
   * stores the joined Removed list.
   */
  lemma RemoveStepOutcome(st: Option<string>, path: string, writable: bool, raw: string)
    ensures var s, t := RemoveStep(st, path, writable, raw), Normalize(raw);
      && (t == "" ==> s == Step(Fail(EmptyTicker), st))
      && (t != "" && t !in Listed(st) && (st.Some? || writable) ==> s == Step(Fail(NotInWatchlist(t)), Created(st)))
      && (s.outcome.Pass? <==> t != "" && writable && t in Listed(st))
      && (s.outcome.Pass? ==> s.store == Some(Join(Removed(Listed(st), t))))
      && (s.outcome.Fail? ==> Listed(s.store) == Listed(st) && (s.store == st || (st.None? && s.store == Some(""))))
  {
  }

  /**
   * After a successful remove the ticker is no longer listed, every other
   * entry is, and the stored list is the old one filtered, except that a
   * lone empty entry left over loads as nothing.
   */
  lemma RemoveStepStores(st: Option<string>, path: string, writable: bool, raw: string)
    requires RemoveStep(st, path, writable, raw).outcome.Pass?
    ensures var l, t, after := Listed(st), Normalize(raw), Listed(RemoveStep(st, path, writable, raw).store);
      && (after == Removed(l, t) || (Removed(l, t) == [""] && after == []))
      && t !in after
      && forall x :: x in after ==> x in l
  {
    var l, t := Listed(st), Normalize(raw);
    var r := Removed(l, t);
    ParseWatchlistStorable(st.value);
    RemovedMembers(l, t);
    if r != [""] {
      forall i | 0 <= i < |r| ensures Storable(r[i]) {
        assert r[i] in l;
      }
      SaveThenLoad(r);
    }
  }

  /** A remove keeps the stored list sorted and duplicate-free. */
  lemma RemoveStepKeepsInvariant(st: Option<string>, path: string, writable: bool, raw: string)
    requires SortedUnique(st)
    ensures SortedUnique(RemoveStep(st, path, writable, raw).store)
  {
    var s := RemoveStep(st, path, writable, raw);
    if s.outcome.Pass? {
      RemoveStepStores(st, path, writable, raw);
      RemovedKeepsOrder(Listed(st), Normalize(raw));
    }
  }

  /** A ticker just removed cannot be removed again. */
  lemma RemoveTwice(st: Option<string>, path: string, writable: bool, raw: string)
    requires RemoveStep(st, path, writable, raw).outcome.Pass?
    ensures var once := RemoveStep(st, path, writable, raw).store;
      RemoveStep(once, path, writable, raw) == Step(Fail(NotInWatchlist(Normalize(raw))), once)
  {
    RemoveStepStores(st, path, writable, raw);
  }

  /**
   * UpdateWatchlist succeeds exactly when the file can be written, and then
   * the stored list is Replaced(raws), provided no input holds a comma.
   */
  lemma UpdateStepStores(st: Option<string>, path: string, writable: bool, raws: seq<string>)
    requires forall i :: 0 <= i < |raws| ==> ',' !in raws[i]
    ensures var s := UpdateStep(st, path, writable, raws);
      && (s.outcome.Pass? <==> writable)
      && (!writable ==> s.store == st)
      && (writable ==> Listed(s.store) == Replaced(raws) && Sorted(Listed(s.store)))
  {
    if writable {
      var r := Replaced(raws);
      ReplacedFacts(raws);
      NormalizedNonEmptyNormal(raws);
      forall i | 0 <= i < |r| ensures Storable(r[i]) && r[i] != "" {
        assert r[i] in multiset(NormalizedNonEmpty(raws));
      }
      assert r != [""] by {
        assert forall i :: 0 <= i < |r| ==> r[i] != "";
      }
      SaveThenLoad(r);
    }
  }

  /** Comma-free batches of adds keep the stored list sorted and duplicate-free. */
  lemma {:induction false} AddAllKeepsInvariant(st: Option<string>, path: string, writable: bool, raws: seq<string>)
    requires forall i :: 0 <= i < |raws| ==> ',' !in raws[i]
    requires SortedUnique(st)
    ensures SortedUnique(AddAll(st, path, writable, raws))
  {
    if raws != [] {
      var init := raws[..|raws| - 1];
      AddAllKeepsInvariant(st, path, writable, init);
      AddStepKeepsInvariant(AddAll(st, path, writable, init), path, writable, raws[|raws| - 1]);
    }
  }

  /** Batches of removes keep the stored list sorted and duplicate-free. */
  lemma {:induction false} RemoveAllKeepsInvariant(st: Option<string>, path: string, writable: bool, raws: seq<string>)
    requires SortedUnique(st)
    ensures SortedUnique(RemoveAll(st, path, writable, raws))
  {
    if raws != [] {
      var init := raws[..|raws| - 1];
      RemoveAllKeepsInvariant(st, path, writable, init);
      RemoveStepKeepsInvariant(RemoveAll(st, path, writable, init), path, writable, raws[|raws| - 1]);
    }
  }

  /** A batch on a file that cannot be written changes nothing. */
  lemma {:induction false} BatchOnUnwritableFile(st: Option<string>, path: string, raws: seq<string>)
    ensures AddAll(st, path, false, raws) == st
    ensures RemoveAll(st, path, false, raws) == st
  {
    if raws != [] {
      BatchOnUnwritableFile(st, path, raws[..|raws| - 1]);
    }
  }

  // ---------------------------------------------------------------------
  // The service

  /** AddTicker's duplicate scan over the loaded list. */
  method Contains(watchlist: seq<string>, t: string) returns (found: bool)
    ensures found <==> t in watchlist
  {
    for i := 0 to |watchlist|
      invariant forall k :: 0 <= k < i ==> watchlist[k] != t
    {
      if watchlist[i] == t {
        return true;
      }
    }
    return false;
  }

  /** RemoveTicker's filtering pass: the entries other than `t`, and whether `t` was seen. */
  method Without(watchlist: seq<string>, t: string) returns (kept: seq<string>, found: bool)
    ensures kept == Removed(watchlist, t)
    ensures found <==> t in watchlist
  {
    found := false;
    kept := [];
    for i := 0 to |watchlist|
      invariant kept == Removed(watchlist[..i], t)
      invariant found ==> t in watchlist
      invariant !found ==> forall k :: 0 <= k < i ==> watchlist[k] != t
    {
      RemovedPrefix(watchlist, i, t);
      if watchlist[i] != t {
        kept := kept + [watchlist[i]];
      } else {
        found := true;
      }
    }
    assert watchlist[..|watchlist|] == watchlist;
  }

  class Service {
    const cfg: Config
    const disk: Disk

    /** NewService. */
    constructor (cfg: Config, disk: Disk)
      ensures this.cfg == cfg && this.disk == disk
    {
      this.cfg := cfg;
      this.disk := disk;
    }

    /** The content of the watchlist file, `None` while it does not exist. */
    function Stored(): Option<string>
      reads disk
    {
      if cfg.watchlistPath in disk.files then Some(disk.files[cfg.watchlistPath]) else None
    }

    predicate Writable() {
      cfg.watchlistPath !in disk.denied
    }

    /** GetWatchlist: a load. */
    method GetWatchlist() returns (r: Result<seq<string>, IoError>)
      modifies disk
      ensures disk.files - {cfg.watchlistPath} == old(disk.files) - {cfg.watchlistPath}
      ensures old(Stored()).None? && !Writable() ==>
        r == Err(CreateFileFailed(cfg.watchlistPath)) && Stored() == old(Stored())
      ensures old(Stored()).Some? || Writable() ==>
        r == Ok(Listed(old(Stored()))) && Stored() == Created(old(Stored()))
    {
      r := LoadWatchlist(cfg, disk);
    }

    method AddTicker(ticker: string) returns (res: Outcome<Error>)
      modifies disk
      ensures disk.files - {cfg.watchlistPath} == old(disk.files) - {cfg.watchlistPath}
      ensures Step(res, Stored()) == AddStep(old(Stored()), cfg.watchlistPath, Writable(), ticker)
    {
      ghost var st, path, w := Stored(), cfg.watchlistPath, Writable();
      var t := TrimSpace(ToUpper(ticker));
      assert t == Normalize(ticker);
      if t == "" {
        assert AddStep(st, path, w, ticker) == Step(Fail(EmptyTicker), st);
        return Fail(EmptyTicker);
      }
      var loaded := LoadWatchlist(cfg, disk);
      if loaded.Err? {
        assert AddStep(st, path, w, ticker) == Step(Fail(LoadFailed(loaded.error)), Stored());
        return Fail(LoadFailed(loaded.error));
      }
      var watchlist := loaded.value;
      assert watchlist == Listed(st) && Stored() == Created(st);
      var present := Contains(watchlist, t);
      if present {
        assert AddStep(st, path, w, ticker) == Step(Fail(AlreadyInWatchlist(t)), Stored());
        return Fail(AlreadyInWatchlist(t));
      }
      ghost var before := Stored();
      watchlist := watchlist + [t];
      watchlist := SortStrings(watchlist);
      assert watchlist == Added(Listed(st), t);
      var saved := SaveWatchlist(cfg, disk, watchlist);
      if saved.Fail? {
        assert AddStep(st, path, w, ticker) == Step(Fail(SaveFailed(saved.error)), Stored()) by {
          assert Stored() == before;
        }
        return Fail(SaveFailed(saved.error));
      }
      assert AddStep(st, path, w, ticker) == Step(Pass, Stored());
      return Pass;
    }

    method RemoveTicker(ticker: string) returns (res: Outcome<Error>)
      modifies disk
      ensures disk.files - {cfg.watchlistPath} == old(disk.files) - {cfg.watchlistPath}
      ensures Step(res, Stored()) == RemoveStep(old(Stored()), cfg.watchlistPath, Writable(), ticker)
    {
      ghost var st, path, w := Stored(), cfg.watchlistPath, Writable();
      var t := TrimSpace(ToUpper(ticker));
      assert t == Normalize(ticker);
      if t == "" {
        assert RemoveStep(st, path, w, ticker) == Step(Fail(EmptyTicker), st);
        return Fail(EmptyTicker);
      }
      var loaded := LoadWatchlist(cfg, disk);
      if loaded.Err? {
        assert RemoveStep(st, path, w, ticker) == Step(Fail(LoadFailed(loaded.error)), Stored());
        return Fail(LoadFailed(loaded.error));
      }
      var watchlist := loaded.value;
      assert watchlist == Listed(st) && Stored() == Created(st);
      var newWatchlist, found := Without(watchlist, t);
      if !found {
        assert RemoveStep(st, path, w, ticker) == Step(Fail(NotInWatchlist(t)), Stored());
        return Fail(NotInWatchlist(t));
      }
      ghost var before := Stored();
      var saved := SaveWatchlist(cfg, disk, newWatchlist);
      if saved.Fail? {
        assert RemoveStep(st, path, w, ticker) == Step(Fail(SaveFailed(saved.error)), Stored()) by {
          assert Stored() == before;
        }
        return Fail(SaveFailed(saved.error));
      }
      assert RemoveStep(st, path, w, ticker) == Step(Pass, Stored());
      return Pass;
    }

    /** Adds each ticker in turn; a failure for one does not stop the rest. */
    method AddMultipleTickers(tickers: seq<string>) returns (res: Outcome<Error>)
      modifies disk
      ensures res == Pass
      ensures disk.files - {cfg.watchlistPath} == old(disk.files) - {cfg.watchlistPath}
      ensures Stored() == AddAll(old(Stored()), cfg.watchlistPath, Writable(), tickers)
    {
      for i := 0 to |tickers|
        invariant disk.files - {cfg.watchlistPath} == old(disk.files) - {cfg.watchlistPath}
        invariant Stored() == AddAll(old(Stored()), cfg.watchlistPath, Writable(), tickers[..i])
      {
        assert tickers[..i + 1][..i] == tickers[..i];
        var _ := AddTicker(tickers[i]);
      }
      assert tickers[..|tickers|] == tickers;
      return Pass;
    }

    /** Removes each ticker in turn; a failure for one does not stop the rest. */
    method RemoveMultipleTickers(tickers: seq<string>) returns (res: Outcome<Error>)
      modifies disk
      ensures res == Pass
      ensures disk.files - {cfg.watchlistPath} == old(disk.files) - {cfg.watchlistPath}
      ensures Stored() == RemoveAll(old(Stored()), cfg.watchlistPath, Writable(), tickers)
    {
      for i := 0 to |tickers|
        invariant disk.files - {cfg.watchlistPath} == old(disk.files) - {cfg.watchlistPath}
        invariant Stored() == RemoveAll(old(Stored()), cfg.watchlistPath, Writable(), tickers[..i])
      {
        assert tickers[..i + 1][..i] == tickers[..i];
        var _ := RemoveTicker(tickers[i]);
      }
      assert tickers[..|tickers|] == tickers;
      return Pass;
    }

    /** Replaces the whole list with the normalised, sorted inputs. */
    method UpdateWatchlist(tickers: seq<string>) returns (res: Outcome<Error>)
      modifies disk
      ensures disk.files - {cfg.watchlistPath} == old(disk.files) - {cfg.watchlistPath}
      ensures Step(res, Stored()) == UpdateStep(old(Stored()), cfg.watchlistPath, Writable(), tickers)
    {
      var normalizedTickers: seq<string> := [];
      for i := 0 to |tickers|
        invariant normalizedTickers == NormalizedNonEmpty(tickers[..i])
      {
        assert tickers[..i + 1][..i] == tickers[..i];
        var normalized := TrimSpace(ToUpper(tickers[i]));
        if normalized != "" {
          normalizedTickers := normalizedTickers + [normalized];
        }
      }
      assert tickers[..|tickers|] == tickers;
      normalizedTickers := SortStrings(normalizedTickers);
      var saved := SaveWatchlist(cfg, disk, normalizedTickers);
      if saved.Fail? {
        return Fail(SaveFailed(saved.error));
      }
      return Pass;
    }
  }
}

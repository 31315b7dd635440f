/**
 * The few functions of Go's `strings` package that the watchlist code uses,
 * restricted to ASCII: `ToUpper`, `TrimSpace`, and `Split`/`Join` with the
 * separator ",".
 */
module Strings {

  /** The white space `unicode.IsSpace` reports below U+0080. */
  predicate IsSpace(c: char) {
    c == ' ' || c == '\t' || c == '\n' || c == '\U{000B}' || c == '\U{000C}' || c == '\r'
  }

  /** ASCII upper-casing of one character; every other character is kept. */
  function UpperChar(c: char): char {
    if 'a' <= c <= 'z' then (c as int - 32) as char else c
  }

  function ToUpper(s: string): string {
    seq(|s|, i requires 0 <= i < |s| => UpperChar(s[i]))
  }

  /** No character of `s` changes under upper-casing. */
  predicate IsUpper(s: string) {
    forall i :: 0 <= i < |s| ==> UpperChar(s[i]) == s[i]
  }

  /** `s` neither starts nor ends with white space. */
  predicate Trimmed(s: string) {
    s == [] || (!IsSpace(s[0]) && !IsSpace(s[|s| - 1]))
  }

  /** The length of the run of white space that starts `s`. */
  function LeadingSpaces(s: string): (n: nat)
    ensures n <= |s|
  {
    if s != [] && IsSpace(s[0]) then 1 + LeadingSpaces(s[1..]) else 0
  }

  /** The length of the run of white space that ends `s`. */
  function TrailingSpaces(s: string): (n: nat)
    ensures n <= |s|
  {
    if s != [] && IsSpace(s[|s| - 1]) then 1 + TrailingSpaces(s[..|s| - 1]) else 0
  }

  /** The leading run is white space and is followed by something else. */
  lemma {:induction false} LeadingSpacesRun(s: string)
    ensures forall i :: 0 <= i < LeadingSpaces(s) ==> IsSpace(s[i])
    ensures LeadingSpaces(s) < |s| ==> !IsSpace(s[LeadingSpaces(s)])
  {
    if s != [] && IsSpace(s[0]) {
      LeadingSpacesRun(s[1..]);
      forall i | 1 <= i < LeadingSpaces(s) ensures IsSpace(s[i]) {
        assert s[i] == s[1..][i - 1];
      }
    }
  }

  /** The trailing run is white space and is preceded by something else. */
  lemma {:induction false} TrailingSpacesRun(s: string)
    ensures forall i :: |s| - TrailingSpaces(s) <= i < |s| ==> IsSpace(s[i])
    ensures TrailingSpaces(s) < |s| ==> !IsSpace(s[|s| - TrailingSpaces(s) - 1])
  {
    if s != [] && IsSpace(s[|s| - 1]) {
      TrailingSpacesRun(s[..|s| - 1]);
      forall i | |s| - TrailingSpaces(s) <= i < |s| - 1 ensures IsSpace(s[i]) {
        assert s[i] == s[..|s| - 1][i];
      }
    }
  }

  /** Drops leading white space. */
  function TrimLeft(s: string): string {
    s[LeadingSpaces(s)..]
  }

  /** Drops trailing white space. */
  function TrimRight(s: string): string {
    s[..|s| - TrailingSpaces(s)]
  }

  /** Go's `strings.TrimSpace` on ASCII white space. */
  function TrimSpace(s: string): string {
    TrimRight(TrimLeft(s))
  }

  /** TrimSpace(s) is the slice of `s` that starts where TrimLeft stops. */
  lemma TrimSpaceIsSlice(s: string)
    ensures |s| - |TrimLeft(s)| + |TrimSpace(s)| <= |s|
    ensures TrimSpace(s) == s[|s| - |TrimLeft(s)|..|s| - |TrimLeft(s)| + |TrimSpace(s)|]
  {
    var l := TrimLeft(s);
    var k := LeadingSpaces(s);
    assert TrimSpace(s) == s[k..k + |TrimSpace(s)|];
  }

  /** The result of TrimSpace neither starts nor ends with white space. */
  lemma TrimSpaceTrimmed(s: string)
    ensures Trimmed(TrimSpace(s))
  {
    var l := TrimLeft(s);
    var r := TrimRight(l);
    LeadingSpacesRun(s);
    TrailingSpacesRun(l);
    if r != [] {
      assert l[0] == r[0] && l[0] == s[LeadingSpaces(s)];
      assert r[|r| - 1] == l[|l| - TrailingSpaces(l) - 1];
    }
  }

  /** TrimSpace drops only white space, at both ends. */
  lemma TrimSpaceDropsSpaces(s: string)
    ensures forall i :: 0 <= i < |s| - |TrimLeft(s)| ==> IsSpace(s[i])
    ensures forall i :: |s| - |TrimLeft(s)| + |TrimSpace(s)| <= i < |s| ==> IsSpace(s[i])
  {
    var l := TrimLeft(s);
    var r := TrimRight(l);
    var k := LeadingSpaces(s);
    LeadingSpacesRun(s);
    TrailingSpacesRun(l);
    forall i | k + |r| <= i < |s| ensures IsSpace(s[i]) {
      assert s[i] == l[i - k];
    }
  }

  /** Every character of TrimSpace(s) is a character of `s`. */
  lemma TrimSpaceChars(s: string)
    ensures forall c :: c in TrimSpace(s) ==> c in s
  {
    TrimSpaceIsSlice(s);
    var r, k := TrimSpace(s), |s| - |TrimLeft(s)|;
    forall c | c in r ensures c in s {
      var i :| 0 <= i < |r| && r[i] == c;
      assert s[k + i] == c;
    }
  }

  /** Trimming a string without surrounding white space changes nothing. */
  lemma TrimSpaceOfTrimmed(s: string)
    requires Trimmed(s)
    ensures TrimSpace(s) == s
  {
  }

  /** Trimming twice is trimming once. */
  lemma TrimSpaceIdempotent(s: string)
    ensures TrimSpace(TrimSpace(s)) == TrimSpace(s)
  {
    TrimSpaceTrimmed(s);
    TrimSpaceOfTrimmed(TrimSpace(s));
  }

  lemma UpperCharFacts(c: char)
    ensures IsSpace(UpperChar(c)) == IsSpace(c)
    ensures (UpperChar(c) == ',') == (c == ',')
    ensures UpperChar(UpperChar(c)) == UpperChar(c)
  {
  }

  lemma ToUpperIsUpper(s: string)
    ensures IsUpper(ToUpper(s))
  {
    forall i | 0 <= i < |s| ensures UpperChar(ToUpper(s)[i]) == ToUpper(s)[i] {
      UpperCharFacts(s[i]);
    }
  }

  lemma ToUpperOfUpper(s: string)
    requires IsUpper(s)
    ensures ToUpper(s) == s
  {
  }

  /** Upper-casing moves no white space, so it keeps a string trimmed. */
  lemma ToUpperKeepsTrimmed(s: string)
    requires Trimmed(s)
    ensures Trimmed(ToUpper(s))
  {
    if s != [] {
      UpperCharFacts(s[0]);
      UpperCharFacts(s[|s| - 1]);
    }
  }

  /** Trimming an upper-case string leaves it upper-case. */
  lemma TrimSpaceKeepsUpper(s: string)
    requires IsUpper(s)
    ensures IsUpper(TrimSpace(s))
  {
    TrimSpaceIsSlice(s);
    var r, k := TrimSpace(s), |s| - |TrimLeft(s)|;
    forall i | 0 <= i < |r| ensures UpperChar(r[i]) == r[i] {
      assert r[i] == s[k + i];
    }
  }

  lemma ToUpperKeepsCommaFree(s: string)
    requires ',' !in s
    ensures ',' !in ToUpper(s)
  {
    forall i | 0 <= i < |s| ensures ToUpper(s)[i] != ',' {
      UpperCharFacts(s[i]);
    }
  }

  /** The number of separators in `s`. */
  function CountCommas(s: string): nat {
    if s == [] then 0 else (if s[0] == ',' then 1 else 0) + CountCommas(s[1..])
  }

  /**
   * Go's `strings.Split(s, ",")`: the pieces between separators, in order.
   * `Split("")` is `[""]`, one empty piece.
   */
  function Split(s: string): seq<string> {
    if s == [] then [""]
    else
      var rest := Split(s[1..]);
      if s[0] == ',' then [""] + rest else [[s[0]] + rest[0]] + rest[1..]
  }

  /** Go's `strings.Join(l, ",")`. */
  function Join(l: seq<string>): string {
    if |l| == 0 then ""
    else if |l| == 1 then l[0]
    else l[0] + "," + Join(l[1..])
  }

  /** Split yields one piece per separator plus one, none holding a separator. */
  lemma {:induction false} SplitPieces(s: string)
    ensures |Split(s)| == CountCommas(s) + 1
    ensures forall i :: 0 <= i < |Split(s)| ==> ',' !in Split(s)[i]
  {
    if s != [] {
      SplitPieces(s[1..]);
      var rest := Split(s[1..]);
      if s[0] != ',' {
        var r := Split(s);
        assert r[0] == [s[0]] + rest[0];
        forall i | 0 <= i < |r| ensures ',' !in r[i] {
          if i > 0 {
            assert r[i] == rest[i];
          }
        }
      }
    }
  }

  /** Joining a piece in front of a non-empty list puts one separator between them. */
  lemma JoinCons(a: string, rest: seq<string>)
    requires |rest| >= 1
    ensures Join([a] + rest) == a + "," + Join(rest)
  {
    assert ([a] + rest)[1..] == rest;
  }

  /** A join is empty exactly for no pieces or one empty piece. */
  lemma JoinEmpty(l: seq<string>)
    ensures Join(l) == "" <==> l == [] || l == [""]
  {
    if |l| > 1 {
      assert [l[0]] + l[1..] == l;
      JoinCons(l[0], l[1..]);
    } else if |l| == 1 {
      assert l == [l[0]];
    }
  }

  /** Joining the pieces of a split gives back the original text. */
  lemma {:induction false} JoinSplit(s: string)
    ensures Join(Split(s)) == s
  {
    if s != [] {
      var rest := Split(s[1..]);
      JoinSplit(s[1..]);
      SplitPieces(s[1..]);
      assert s == [s[0]] + s[1..];
      if s[0] == ',' {
        JoinCons("", rest);
      } else if |rest| == 1 {
        assert Split(s) == [[s[0]] + rest[0]];
      } else {
        var first := [s[0]] + rest[0];
        assert Split(s) == [first] + rest[1..];
        JoinCons(first, rest[1..]);
        JoinCons(rest[0], rest[1..]);
        assert [rest[0]] + rest[1..] == rest;
      }
    }
  }

  /** A separator-free prefix sticks to the first piece. */
  lemma {:induction false} SplitPrefix(a: string, b: string)
    requires ',' !in a
    ensures Split(a + b) == [a + Split(b)[0]] + Split(b)[1..]
  {
    if a == [] {
      SplitPieces(b);
      var p := Split(b);
      assert a + b == b && a + p[0] == p[0];
      assert [p[0]] + p[1..] == p;
    } else {
      SplitPrefix(a[1..], b);
      assert (a + b)[0] == a[0];
      assert (a + b)[1..] == a[1..] + b;
      assert [a[0]] + (a[1..] + Split(b)[0]) == a + Split(b)[0];
    }
  }

  /** Splitting a join of separator-free pieces gives back the pieces. */
  lemma {:induction false} SplitJoin(l: seq<string>)
    requires |l| >= 1
    requires forall i :: 0 <= i < |l| ==> ',' !in l[i]
    ensures Split(Join(l)) == l
  {
    if |l| == 1 {
      SplitPrefix(l[0], "");
      assert l[0] + "" == l[0];
    } else {
      var tail := Join(l[1..]);
      SplitJoin(l[1..]);
      assert Join(l) == l[0] + ("," + tail);
      assert ("," + tail)[0] == ',' && ("," + tail)[1..] == tail;
      assert Split("," + tail) == [""] + l[1..];
      SplitPrefix(l[0], "," + tail);
      assert l[0] + "" == l[0];
    }
  }
}

/**
 * Reference extraction: `get_cell_dependencies` (the regular expression
 * `\b[a-z]\d{1,3}\b` over the lower-cased formula) and
 * `convert_location_to_cord` (a token such as `b12` names row 11, column 1).
 * Character classes are the ASCII ones.
 */
module References {
  import opened Values

  predicate IsLowerLetter(c: char) { 'a' <= c <= 'z' }
  predicate IsUpperLetter(c: char) { 'A' <= c <= 'Z' }
  predicate IsDigit(c: char) { '0' <= c <= '9' }

  /** Python's `\w`: a letter, a digit or the underscore. */
  predicate IsWordChar(c: char) { IsLowerLetter(c) || IsUpperLetter(c) || IsDigit(c) || c == '_' }

  function LowerChar(c: char): char
  {
    if IsUpperLetter(c) then (c as int - 'A' as int + 'a' as int) as char else c
  }

  function UpperChar(c: char): char
  {
    if IsLowerLetter(c) then (c as int - 'a' as int + 'A' as int) as char else c
  }

  /**
   * `str.lower()` on ASCII letters: no upper-case letter is left, every other
   * character stays in place, and each upper-case letter becomes the
   * lower-case letter that `UpperChar` maps back to it.
   */
  function Lower(s: string): (r: string)
    ensures |r| == |s|
    ensures forall k :: 0 <= k < |r| ==> !IsUpperLetter(r[k])
    ensures forall k :: 0 <= k < |s| && !IsUpperLetter(s[k]) ==> r[k] == s[k]
    ensures forall k :: 0 <= k < |s| && IsUpperLetter(s[k]) ==> IsLowerLetter(r[k]) && UpperChar(r[k]) == s[k]
  {
    seq(|s|, k requires 0 <= k < |s| => LowerChar(s[k]))
  }

  /** Lower-casing twice is lower-casing once. */
  lemma LowerIdempotent(s: string)
    ensures Lower(Lower(s)) == Lower(s)
  {
  }

  lemma LowerKeepsWordChars(s: string, k: nat)
    requires k < |s|
    ensures IsWordChar(Lower(s)[k]) <==> IsWordChar(s[k])
    ensures IsDigit(Lower(s)[k]) <==> IsDigit(s[k])
  {
  }

  /**
   * `s[i..j]` is a match of `\b[a-z]\d{1,3}\b`: a lower-case letter with no word
   * character before it, then one to three digits with no word character after.
   */
  predicate TokenAt(s: string, i: nat, j: nat)
  {
    && i + 2 <= j <= i + 4
    && j <= |s|
    && IsLowerLetter(s[i])
    && (i == 0 || !IsWordChar(s[i - 1]))
    && (forall k :: i < k < j ==> IsDigit(s[k]))
    && (j == |s| || !IsWordChar(s[j]))
  }

  /** The number of consecutive digits of `s` starting at `k`. */
  function DigitRun(s: string, k: nat): (n: nat)
    requires k <= |s|
    ensures k + n <= |s|
    ensures forall m :: k <= m < k + n ==> IsDigit(s[m])
    ensures k + n == |s| || !IsDigit(s[k + n])
    decreases |s| - k
  {
    if k < |s| && IsDigit(s[k]) then 1 + DigitRun(s, k + 1) else 0
  }

  /** A match starting at `i` always ends where the run of digits after `i` ends. */
  lemma TokenEndDetermined(s: string, i: nat, j: nat)
    requires TokenAt(s, i, j)
    ensures j == i + 1 + DigitRun(s, i + 1)
  {
  }

  /**
   * The scan `re.findall` performs from position `i` on: the spans of all
   * matches, left to right.
   */
  function SpansFrom(s: string, i: nat): seq<(nat, nat)>
    requires i <= |s|
    decreases |s| - i
  {
    if i == |s| then []
    else
      var j := i + 1 + DigitRun(s, i + 1);
      if TokenAt(s, i, j) then [(i, j)] + SpansFrom(s, i + 1) else SpansFrom(s, i + 1)
  }

  /** Every span of the scan is a match at or after `i`, and their starts increase strictly. */
  lemma {:induction false} SpansFromSound(s: string, i: nat)
    requires i <= |s|
    ensures forall x :: 0 <= x < |SpansFrom(s, i)| ==>
      i <= SpansFrom(s, i)[x].0 && TokenAt(s, SpansFrom(s, i)[x].0, SpansFrom(s, i)[x].1)
    ensures forall x, y :: 0 <= x < y < |SpansFrom(s, i)| ==> SpansFrom(s, i)[x].0 < SpansFrom(s, i)[y].0
    decreases |s| - i
  {
    if i < |s| {
      SpansFromSound(s, i + 1);
      var j := i + 1 + DigitRun(s, i + 1);
      var rest := SpansFrom(s, i + 1);
      var r := SpansFrom(s, i);
      if TokenAt(s, i, j) {
        assert r == [(i, j)] + rest;
        forall x | 0 < x < |r| ensures r[x] == rest[x - 1] && i < r[x].0 {
        }
      } else {
        assert r == rest;
      }
    }
  }

  /** Every match at or after `i` is found by the scan. */
  lemma {:induction false} SpansFromComplete(s: string, i: nat, a: nat, b: nat)
    requires i <= a
    requires TokenAt(s, a, b)
    ensures (a, b) in SpansFrom(s, i)
    decreases a - i
  {
    if i < a {
      SpansFromComplete(s, i + 1, a, b);
    } else {
      TokenEndDetermined(s, a, b);
    }
  }

  /** A reference token: one lower-case letter and one to three digits. */
  predicate IsRef(t: string)
  {
    2 <= |t| <= 4 && IsLowerLetter(t[0]) && forall k :: 1 <= k < |t| ==> IsDigit(t[k])
  }

  /** `get_cell_dependencies`: the matched tokens, in order, duplicates kept. */
  function Dependencies(formula: string): (deps: seq<string>)
    ensures forall k :: 0 <= k < |deps| ==> IsRef(deps[k])
  {
    var s := Lower(formula);
    var sp := SpansFrom(s, 0);
    SpansFromSound(s, 0);
    seq(|sp|, k requires 0 <= k < |sp| => s[sp[k].0 .. sp[k].1])
  }

  /**
   * A string is an extracted dependency exactly when it is a match of the
   * pattern somewhere in the lower-cased formula. Order and repetitions are
   * those of `SpansFrom`, whose spans are the matches from left to right
   * (`SpansFromSound`, `SpansFromComplete`).
   */
  lemma DependenciesCharacterized(formula: string, t: string)
    ensures t in Dependencies(formula) <==>
      exists i: nat, j: nat :: TokenAt(Lower(formula), i, j) && Lower(formula)[i..j] == t
  {
    var s := Lower(formula);
    var sp := SpansFrom(s, 0);
    var deps := Dependencies(formula);
    SpansFromSound(s, 0);
    if t in deps {
      var k :| 0 <= k < |deps| && deps[k] == t;
      assert TokenAt(s, sp[k].0, sp[k].1);
    }
    if exists i: nat, j: nat :: TokenAt(s, i, j) && s[i..j] == t {
      var i: nat, j: nat :| TokenAt(s, i, j) && s[i..j] == t;
      SpansFromComplete(s, 0, i, j);
      var k :| 0 <= k < |sp| && sp[k] == (i, j);
      assert deps[k] == t;
    }
  }

  /** Extraction ignores case: an upper-case reference is found in lower case. */
  lemma DependenciesIgnoreCase(formula: string)
    ensures Dependencies(formula) == Dependencies(Lower(formula))
  {
    assert Lower(Lower(formula)) == Lower(formula);
  }

  /** The decimal value of a string of digits. */
  function DigitsValue(ds: string): (n: nat)
    requires forall k :: 0 <= k < |ds| ==> IsDigit(ds[k])
    ensures n < Pow10(|ds|)
  {
    if |ds| == 0 then 0
    else
      assert IsDigit(ds[|ds| - 1]);
      DigitsValue(ds[..|ds| - 1]) * 10 + (ds[|ds| - 1] as int - '0' as int)
  }

  function Pow10(n: nat): (p: nat)
    ensures p >= 1
  {
    if n == 0 then 1 else 10 * Pow10(n - 1)
  }

  /**
   * `convert_location_to_cord`: the row is the number minus one, the column the
   * upper-cased letter minus 'A'. So the column is in [0, 25] and the row in
   * [-1, 998]; `a0` names row -1.
   */
  function Coord(t: string): (loc: Location)
    requires IsRef(t)
    ensures 0 <= loc.1 <= 25
    ensures -1 <= loc.0 <= 998
  {
    assert Pow10(|t[1..]|) <= 1000;
    (DigitsValue(t[1..]) - 1, UpperChar(t[0]) as int - 'A' as int)
  }

  /** Decimal digits of a positive number, without leading zeros. */
  function DigitsOf(n: nat): (ds: string)
    requires n >= 1
    ensures 1 <= |ds|
    ensures forall k :: 0 <= k < |ds| ==> IsDigit(ds[k])
    ensures n < 10 ==> |ds| == 1
    ensures n < 100 ==> |ds| <= 2
    ensures n < 1000 ==> |ds| <= 3
  {
    var d := [('0' as int + n % 10) as char];
    if n < 10 then d else DigitsOf(n / 10) + d
  }

  lemma {:induction false} DigitsOfValue(n: nat)
    requires n >= 1
    ensures DigitsValue(DigitsOf(n)) == n
  {
    var ds := DigitsOf(n);
    if n >= 10 {
      DigitsOfValue(n / 10);
      assert ds[..|ds| - 1] == DigitsOf(n / 10);
    }
  }

  /** The token a user types for an in-grid location, `(11, 1)` being `b12`. */
  function RefOf(loc: Location): (t: string)
    requires 0 <= loc.0 <= 998 && 0 <= loc.1 <= 25
    ensures IsRef(t)
  {
    [('a' as int + loc.1) as char] + DigitsOf(loc.0 + 1)
  }

  /** Converting the token of a location gives the location back. */
  lemma CoordOfRef(loc: Location)
    requires 0 <= loc.0 <= 998 && 0 <= loc.1 <= 25
    ensures Coord(RefOf(loc)) == loc
  {
    var t := RefOf(loc);
    assert t[1..] == DigitsOf(loc.0 + 1);
    DigitsOfValue(loc.0 + 1);
  }

  /** No lower-case letter from `i` on: nothing more to find. */
  lemma {:induction false} SpansFromNoLetter(s: string, i: nat)
    requires i <= |s|
    requires forall k :: i <= k < |s| ==> !IsLowerLetter(s[k])
    ensures SpansFrom(s, i) == []
    decreases |s| - i
  {
    if i < |s| {
      SpansFromNoLetter(s, i + 1);
    }
  }

  /** A formula `=` followed by one reference has exactly that dependency. */
  lemma SingleReference(loc: Location)
    requires 0 <= loc.0 <= 998 && 0 <= loc.1 <= 25
    ensures Dependencies("=" + RefOf(loc)) == [RefOf(loc)]
  {
    var t := RefOf(loc);
    var s := "=" + t;
    assert Lower(s) == s;
    assert TokenAt(s, 1, |s|);
    TokenEndDetermined(s, 1, |s|);
    SpansFromNoLetter(s, 2);
    assert SpansFrom(s, 1) == [(1, |s|)];
    assert SpansFrom(s, 0) == SpansFrom(s, 1);
    assert s[1..|s|] == t;
  }
}

/**
 * The string primitives the page's scripts lean on: `trim()`, the `\s`
 * character class, `String.prototype.indexOf`, `replace` with a string
 * pattern, and the decimal digits `parseFloat` reads.
 */
module Text {

  /**
   * The characters `trim()` strips and the regular-expression class `\s`
   * matches: ECMAScript's WhiteSpace (tab, vertical tab, form feed, space,
   * no-break space, byte order mark and the other Unicode space separators)
   * and LineTerminator (line feed, carriage return, line and paragraph
   * separators).
   */
  predicate IsSpace(c: char) {
    c == '\t' || c == '\n' || c == '\U{000B}' || c == '\U{000C}' || c == '\r'
    || c == ' ' || c == '\U{00A0}' || c == '\U{1680}'
    || ('\U{2000}' <= c <= '\U{200A}')
    || c == '\U{2028}' || c == '\U{2029}' || c == '\U{202F}' || c == '\U{205F}'
    || c == '\U{3000}' || c == '\U{FEFF}'
  }

  predicate AllSpace(s: string) {
    forall k | 0 <= k < |s| :: IsSpace(s[k])
  }

  /** `s` without its leading whitespace: a suffix of `s`, cut where the first non-space is. */
  function TrimStart(s: string): (r: string)
    ensures |r| <= |s| && r == s[|s| - |r|..]
    ensures forall k | 0 <= k < |s| - |r| :: IsSpace(s[k])
    ensures r != [] ==> !IsSpace(r[0])
  {
    if s != [] && IsSpace(s[0]) then TrimStart(s[1..]) else s
  }

  /** `s` without its trailing whitespace: a prefix of `s`, cut after the last non-space. */
  function TrimEnd(s: string): (r: string)
    ensures |r| <= |s| && r == s[..|r|]
    ensures forall k | |r| <= k < |s| :: IsSpace(s[k])
    ensures r != [] ==> !IsSpace(r[|r| - 1])
  {
    if s != [] && IsSpace(s[|s| - 1]) then TrimEnd(s[..|s| - 1]) else s
  }

  /**
   * `String.prototype.trim`: the piece of `s` left between its leading and
   * trailing whitespace. It is empty exactly when `s` is all whitespace, so
   * a form's `if (!value)` test rejects precisely the blank fields.
   */
  function Trim(s: string): string {
    TrimEnd(TrimStart(s))
  }

  /** A trimmed field is empty exactly when the raw field is all whitespace. */
  lemma TrimBlankIff(s: string)
    ensures Trim(s) == [] <==> AllSpace(s)
  {
    var t := TrimStart(s);
    if t == [] {
      assert forall k | 0 <= k < |s| :: IsSpace(s[k]);
    } else {
      assert s[|s| - |t|] == t[0];
      assert !IsSpace(t[0]);
      assert TrimEnd(t) != [];
    }
  }

  /** A non-empty trimmed string starts and ends with a non-space. */
  lemma TrimEdges(s: string)
    ensures var r := Trim(s);
            r != [] ==> !IsSpace(r[0]) && !IsSpace(r[|r| - 1])
  {
    var t := TrimStart(s);
    var r := TrimEnd(t);
    if r != [] {
      assert r[0] == t[0];
    }
  }

  /** What trimming leaves is the stretch of `s` between whitespace at either end. */
  lemma TrimIsInnerPiece(s: string)
    ensures var r := Trim(s);
            exists i | 0 <= i <= |s| - |r| :: r == s[i..i + |r|] && AllSpace(s[..i]) && AllSpace(s[i + |r|..])
  {
    var t := TrimStart(s);
    var r := TrimEnd(t);
    var i := InnerPiece(s, t, r);
    assert Trim(s) == r;
    assert 0 <= i <= |s| - |r| && r == s[i..i + |r|] && AllSpace(s[..i]) && AllSpace(s[i + |r|..]);
  }

  /**
   * A prefix `r` of a suffix `t` of `s`, with only whitespace cut away on
   * both sides, stands at `i` in `s`.
   */
  lemma InnerPiece(s: string, t: string, r: string) returns (i: nat)
    requires |t| <= |s| && t == s[|s| - |t|..]
    requires forall k | 0 <= k < |s| - |t| :: IsSpace(s[k])
    requires |r| <= |t| && r == t[..|r|]
    requires forall k | |r| <= k < |t| :: IsSpace(t[k])
    ensures i <= |s| - |r| && r == s[i..i + |r|] && AllSpace(s[..i]) && AllSpace(s[i + |r|..])
  {
    i := |s| - |t|;
    assert AllSpace(s[..i]) by {
      forall k | 0 <= k < i ensures IsSpace(s[..i][k]) {
        assert s[..i][k] == s[k];
      }
    }
    var tail := s[i + |r|..];
    assert r == s[i..i + |r|] && tail == t[|r|..];
    assert AllSpace(tail) by {
      forall k | 0 <= k < |tail| ensures IsSpace(tail[k]) {
        assert tail[k] == t[|r| + k];
      }
    }
  }

  /** Trimming twice is trimming once. */
  lemma TrimIdempotent(s: string)
    ensures Trim(Trim(s)) == Trim(s)
  {
    var r := Trim(s);
    TrimEdges(s);
    if r != [] {
      assert TrimStart(r) == r;
      assert TrimEnd(r) == r;
    }
  }

  /** `pat` occurs in `s` starting at position `k`. */
  predicate OccursAt(s: string, pat: string, k: nat) {
    k + |pat| <= |s| && s[k..k + |pat|] == pat
  }

  /**
   * `s.indexOf(pat, from)`: the first position at or after `from` where
   * `pat` occurs, or -1 when it occurs nowhere from there on.
   */
  function IndexFrom(s: string, pat: string, from: nat): (k: int)
    ensures k == -1 || (from <= k && OccursAt(s, pat, k))
    ensures k == -1 ==> forall j | from <= j :: !OccursAt(s, pat, j)
    ensures k != -1 ==> forall j | from <= j < k :: !OccursAt(s, pat, j)
    decreases |s| - from
  {
    if from + |pat| > |s| then -1
    else if s[from..from + |pat|] == pat then from
    else IndexFrom(s, pat, from + 1)
  }

  /**
   * `s.replace(pat, '')` with a string pattern: the first occurrence of
   * `pat`, as `indexOf` finds it, is cut out; without one `s` comes back
   * unchanged.
   */
  function RemoveFirst(s: string, pat: string): (r: string)
    requires pat != []
    ensures r == s || |r| == |s| - |pat|
  {
    var k := IndexFrom(s, pat, 0);
    if k == -1 then s else s[..k] + s[k + |pat|..]
  }

  /** Only the first occurrence is removed: what comes after it stays, further occurrences included. */
  lemma RemoveFirstOccurrence(s: string, pat: string, k: nat)
    requires pat != [] && OccursAt(s, pat, k)
    requires forall j | 0 <= j < k :: !OccursAt(s, pat, j)
    ensures RemoveFirst(s, pat) == s[..k] + s[k + |pat|..]
  {
    var found := IndexFrom(s, pat, 0);
    assert found != -1;
    assert !(found < k) && !(k < found);
  }

  /** Without an occurrence, nothing is removed. */
  lemma RemoveFirstAbsent(s: string, pat: string)
    requires pat != []
    requires forall j | 0 <= j :: !OccursAt(s, pat, j)
    ensures RemoveFirst(s, pat) == s
  {
  }

  /** `s` with every `c` taken out: what `s.replaceAll(c, '')` gives. */
  function Without(s: string, c: char): (r: string)
    ensures c !in r
    ensures forall x | x in r :: x in s
    ensures c !in s ==> r == s
  {
    if s == [] then []
    else if s[0] == c then Without(s[1..], c)
    else [s[0]] + Without(s[1..], c)
  }

  /** Taking characters out distributes over concatenation. */
  lemma {:induction false} WithoutAppend(a: string, b: string, c: char)
    ensures Without(a + b, c) == Without(a, c) + Without(b, c)
  {
    if a == [] {
      assert a + b == b;
    } else {
      assert (a + b)[0] == a[0];
      assert (a + b)[1..] == a[1..] + b;
      WithoutAppend(a[1..], b, c);
    }
  }

  /** Three separator-free groups joined by two separators: taking the separators out joins the groups. */
  lemma WithoutTwoSeparators(a: string, b: string, d: string, c: char)
    requires c !in a && c !in b && c !in d
    ensures Without(a + [c] + b + [c] + d, c) == a + b + d
  {
    var x, y := a + [c], b + [c];
    assert a + [c] + b + [c] + d == x + (y + d);
    WithoutAppend(x, y + d, c);
    WithoutAppend(y, d, c);
    WithoutTrailing(a, c);
    WithoutTrailing(b, c);
  }

  /** A separator after a separator-free group goes, the group stays. */
  lemma WithoutTrailing(a: string, c: char)
    requires c !in a
    ensures Without(a + [c], c) == a
  {
    WithoutAppend(a, [c], c);
    assert Without([c], c) == [];
  }

  predicate IsDigit(c: char) {
    '0' <= c <= '9'
  }

  predicate AllDigits(s: string) {
    forall k | 0 <= k < |s| :: IsDigit(s[k])
  }

  function DigitValue(c: char): (d: nat)
    requires IsDigit(c)
    ensures d < 10
  {
    c as int - '0' as int
  }

  /** The number a run of decimal digits denotes, most significant first. */
  function DigitsValue(d: string): nat
    requires AllDigits(d)
  {
    if d == [] then 0 else DigitsValue(d[..|d| - 1]) * 10 + DigitValue(d[|d| - 1])
  }

  /** The length of the run of decimal digits `s` starts with. */
  function DigitRunLength(s: string): (n: nat)
    ensures n <= |s| && AllDigits(s[..n])
    ensures n < |s| ==> !IsDigit(s[n])
  {
    if s != [] && IsDigit(s[0]) then
      var n := 1 + DigitRunLength(s[1..]);
      assert s[..n] == [s[0]] + s[1..][..n - 1];
      n
    else 0
  }

  /** The run of digits in front of `d + rest` is exactly `d` when `rest` does not start with a digit. */
  lemma {:induction false} DigitRunOfDigits(d: string, rest: string)
    requires AllDigits(d)
    requires rest == [] || !IsDigit(rest[0])
    ensures DigitRunLength(d + rest) == |d|
  {
    if d == [] {
      assert d + rest == rest;
    } else {
      assert (d + rest)[0] == d[0];
      assert (d + rest)[1..] == d[1..] + rest;
      DigitRunOfDigits(d[1..], rest);
    }
  }

  /** Taking the separators out of digits grouped by `c` leaves only digits, the first one first. */
  lemma {:induction false} WithoutSeparators(g: string, c: char)
    requires !IsDigit(c)
    requires forall k | 0 <= k < |g| :: IsDigit(g[k]) || g[k] == c
    ensures AllDigits(Without(g, c))
    ensures g != [] && IsDigit(g[0]) ==> Without(g, c) != [] && Without(g, c)[0] == g[0]
  {
    if g != [] {
      WithoutSeparators(g[1..], c);
      if g[0] != c {
        assert Without(g, c) == [g[0]] + Without(g[1..], c);
      }
    }
  }

  /** A one-character pattern occurs exactly where that character stands. */
  lemma OccursSingle(s: string, c: char, k: nat)
    ensures OccursAt(s, [c], k) <==> k < |s| && s[k] == c
  {
    if k < |s| {
      assert s[k..k + 1] == [s[k]];
    }
  }

  /** Removing the first `c` from `s`, where the first `c` stands at `k`. */
  lemma RemoveFirstCharAt(s: string, c: char, k: nat)
    requires k < |s| && s[k] == c
    requires forall j | 0 <= j < k :: s[j] != c
    ensures RemoveFirst(s, [c]) == s[..k] + s[k + 1..]
  {
    OccursSingle(s, c, k);
    forall j | 0 <= j < k ensures !OccursAt(s, [c], j) {
      OccursSingle(s, c, j);
    }
    RemoveFirstOccurrence(s, [c], k);
  }

  /** Removing the first `c` from a string without one changes nothing. */
  lemma RemoveFirstCharAbsent(s: string, c: char)
    requires c !in s
    ensures RemoveFirst(s, [c]) == s
  {
    forall j | 0 <= j ensures !OccursAt(s, [c], j) {
      OccursSingle(s, c, j);
    }
    RemoveFirstAbsent(s, [c]);
  }

  /** Taking every `c` out of a string whose only `c` stands at `k`. */
  lemma WithoutSingle(s: string, c: char, k: nat)
    requires k < |s| && s[k] == c
    requires forall j | 0 <= j < |s| && j != k :: s[j] != c
    ensures Without(s, c) == s[..k] + s[k + 1..]
  {
    assert c !in s[..k];
    assert c !in s[k + 1..] by {
      forall j | k + 1 <= j < |s| ensures s[j] != c { }
    }
    assert s == s[..k] + ([c] + s[k + 1..]);
    WithoutAppend(s[..k], [c] + s[k + 1..], c);
    WithoutAppend([c], s[k + 1..], c);
  }
}

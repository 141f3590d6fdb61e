/** Text normalisation applied to the time-of-day field before lookup:
    Kotlin's `trim()` followed by `lowercase()`, restricted to ASCII.

    `trim()` drops leading and trailing characters for which
    `Char.isWhitespace` holds; here that is its ASCII part (space, tab,
    line feed, vertical tab, form feed, carriage return and the four
    separators U+001C..U+001F). `lowercase()` maps `A`..`Z` to `a`..`z`
    and leaves every other character as it is. */
module Text {

  predicate IsWhitespace(c: char) {
    c == ' ' || c == '\t' || c == '\n' || c == '\r' ||
    c == '\U{B}' || c == '\U{C}' || ('\U{1C}' <= c <= '\U{1F}')
  }

  predicate AllWhitespace(s: string) {
    forall i :: 0 <= i < |s| ==> IsWhitespace(s[i])
  }

  /** Length of the longest all-whitespace prefix. */
  function LeadingWhitespace(s: string): (n: nat)
    ensures n <= |s|
    ensures forall k :: 0 <= k < n ==> IsWhitespace(s[k])
    ensures n < |s| ==> !IsWhitespace(s[n])
  {
    if |s| > 0 && IsWhitespace(s[0]) then 1 + LeadingWhitespace(s[1..]) else 0
  }

  /** Length of the longest all-whitespace suffix. */
  function TrailingWhitespace(s: string): (n: nat)
    ensures n <= |s|
    ensures forall k :: |s| - n <= k < |s| ==> IsWhitespace(s[k])
    ensures n < |s| ==> !IsWhitespace(s[|s| - n - 1])
  {
    if |s| > 0 && IsWhitespace(s[|s| - 1]) then 1 + TrailingWhitespace(s[..|s| - 1]) else 0
  }

  /** Kotlin's `trim()`: skip whitespace from the front and, unless that
      consumed everything, from the back. */
  function Trim(s: string): string {
    var start := LeadingWhitespace(s);
    if start == |s| then [] else s[start..|s| - TrailingWhitespace(s)]
  }

  function LowerChar(c: char): char {
    if 'A' <= c <= 'Z' then (c as int - 'A' as int + 'a' as int) as char else c
  }

  /** Kotlin's `lowercase()` on ASCII. */
  function Lower(s: string): (r: string)
    ensures |r| == |s|
    ensures forall k :: 0 <= k < |s| ==> r[k] == LowerChar(s[k])
  {
    if s == [] then [] else [LowerChar(s[0])] + Lower(s[1..])
  }

  /** The expression `text.trim().lowercase()` that reads the input field. */
  function Normalize(raw: string): string {
    Lower(Trim(raw))
  }

  // ---------------------------------------------------------------------
  // Trim: what it removes, what it keeps, and that the two determine it.

  /** `s[i..j]` is `s` with whitespace-only margins, and has none itself. */
  ghost predicate TrimmedAt(s: string, i: int, j: int) {
    0 <= i <= j <= |s| &&
    (forall k :: 0 <= k < i ==> IsWhitespace(s[k])) &&
    (forall k :: j <= k < |s| ==> IsWhitespace(s[k])) &&
    (i < j ==> !IsWhitespace(s[i]) && !IsWhitespace(s[j - 1]))
  }

  /** Trim cuts the input at margins of whitespace and keeps a text that
      starts and ends with a non-whitespace character. */
  lemma TrimSplits(s: string) returns (i: nat, j: nat)
    ensures TrimmedAt(s, i, j) && Trim(s) == s[i..j]
  {
    i := LeadingWhitespace(s);
    if i == |s| {
      j := i;
    } else {
      j := |s| - TrailingWhitespace(s);
    }
  }

  /** Margins of whitespace around a text without outer whitespace are
      unique: whatever such a split of `s` is, Trim finds it. */
  lemma TrimUnique(s: string, i: int, j: int)
    requires TrimmedAt(s, i, j)
    ensures Trim(s) == s[i..j]
  {
    var i', j' := TrimSplits(s);
  }

  /** Normalize of a text whose trimmed part is known. */
  lemma NormalizeAt(raw: string, i: int, j: int, key: string)
    requires TrimmedAt(raw, i, j) && Lower(raw[i..j]) == key
    ensures Normalize(raw) == key
  {
    TrimUnique(raw, i, j);
  }

  lemma TrimIdempotent(s: string)
    ensures Trim(Trim(s)) == Trim(s)
  {
    var i, j := TrimSplits(s);
    var r := Trim(s);
    assert TrimmedAt(r, 0, |r|);
    TrimUnique(r, 0, |r|);
  }

  /** Surrounding whitespace is ignored by Trim. */
  lemma TrimIgnoresPadding(p: string, s: string, q: string)
    requires AllWhitespace(p) && AllWhitespace(q)
    ensures Trim(p + s + q) == Trim(s)
  {
    var i, j := TrimSplits(s);
    var t := p + s + q;
    forall k | 0 <= k < |s| ensures t[|p| + k] == s[k] { }
    assert TrimmedAt(t, |p| + i, |p| + j) by {
      forall k | 0 <= k < |p| + i ensures IsWhitespace(t[k]) {
        if k >= |p| { assert t[k] == s[k - |p|]; }
      }
      forall k | |p| + j <= k < |t| ensures IsWhitespace(t[k]) {
        if k >= |p| + |s| { assert t[k] == q[k - |p| - |s|]; } else { assert t[k] == s[k - |p|]; }
      }
    }
    TrimUnique(t, |p| + i, |p| + j);
    assert t[|p| + i..|p| + j] == s[i..j];
  }

  // ---------------------------------------------------------------------
  // Lower: idempotent, and it commutes with Trim.

  lemma LowerIdempotent(s: string)
    ensures Lower(Lower(s)) == Lower(s)
  {
    assert forall k :: 0 <= k < |s| ==> LowerChar(LowerChar(s[k])) == LowerChar(s[k]);
  }

  lemma LowerSlice(s: string, i: int, j: int)
    requires 0 <= i <= j <= |s|
    ensures Lower(s[i..j]) == Lower(s)[i..j]
  {
    var a, b, t := Lower(s[i..j]), Lower(s)[i..j], Lower(s);
    assert |a| == |b| == j - i;
    forall k | 0 <= k < j - i ensures a[k] == b[k] {
      calc {
        a[k];
        LowerChar(s[i..j][k]);
        LowerChar(s[i + k]);
        t[i + k];
      }
    }
  }

  lemma TrimLower(s: string)
    ensures Trim(Lower(s)) == Lower(Trim(s))
  {
    var i, j := TrimSplits(s);
    var t := Lower(s);
    assert forall c: char :: IsWhitespace(LowerChar(c)) <==> IsWhitespace(c);
    assert TrimmedAt(t, i, j);
    TrimUnique(t, i, j);
    LowerSlice(s, i, j);
  }

  // ---------------------------------------------------------------------
  // Normalize: the properties the lookup relies on.

  /** Normalising twice is normalising once. */
  lemma NormalizeIdempotent(raw: string)
    ensures Normalize(Normalize(raw)) == Normalize(raw)
  {
    TrimLower(Trim(raw));
    TrimIdempotent(raw);
    LowerIdempotent(Trim(raw));
  }

  /** Inputs that differ only in letter case normalise alike. */
  lemma NormalizeIgnoresCase(s: string, t: string)
    requires Lower(s) == Lower(t)
    ensures Normalize(s) == Normalize(t)
  {
    TrimLower(s);
    TrimLower(t);
  }

  /** Inputs that differ only in surrounding whitespace normalise alike. */
  lemma NormalizeIgnoresPadding(p: string, s: string, q: string)
    requires AllWhitespace(p) && AllWhitespace(q)
    ensures Normalize(p + s + q) == Normalize(s)
  {
    TrimIgnoresPadding(p, s, q);
  }

  /** The normal form is empty exactly when the input is all whitespace. */
  lemma NormalizeEmpty(raw: string)
    ensures Normalize(raw) == [] <==> AllWhitespace(raw)
  {
    var i, j := TrimSplits(raw);
    if i == j {
      assert AllWhitespace(raw) by {
        forall k | 0 <= k < |raw| ensures IsWhitespace(raw[k]) {
          if i <= k { assert j <= k; }
        }
      }
    }
  }
}

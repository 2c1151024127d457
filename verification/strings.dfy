/**
 * The text operations of the Arduino `String` class that the firmware relies on:
 * `indexOf`, `toLowerCase`, `startsWith`, `endsWith`, and the construction of a
 * `String` from a NUL-terminated `char *`.  Strings are sequences of characters.
 */
module Strings {

  /** `p` occurs in `s` starting at index `i`. */
  predicate OccursAt(s: string, p: string, i: int)
  {
    0 <= i && i + |p| <= |s| && s[i..i + |p|] == p
  }

  /** `p` occurs somewhere in `s`. */
  ghost predicate Contains(s: string, p: string)
  {
    exists i :: OccursAt(s, p, i)
  }

  /** `i` is the first index at which `p` occurs in `s`. */
  ghost predicate FirstOccurrence(s: string, p: string, i: int)
  {
    OccursAt(s, p, i) && forall k :: 0 <= k < i ==> !OccursAt(s, p, k)
  }

  /**
   * `String::indexOf(p, from)`: -1 when `from` is past the end of `s`; otherwise
   * the first index at or after `from` where `p` occurs (the library's `strstr`
   * scan), or -1 when there is none.  `indexOf(p)` is `IndexOf(s, p, 0)`.
   */
  function IndexOf(s: string, p: string, from: nat): (r: int)
    ensures r == -1 <==> from >= |s| || forall j :: from <= j ==> !OccursAt(s, p, j)
    ensures r != -1 ==> from <= r && OccursAt(s, p, r)
    ensures r != -1 ==> forall j :: from <= j < r ==> !OccursAt(s, p, j)
  {
    if from >= |s| then -1 else Search(s, p, from)
  }

  /** The `strstr` scan of `s` for `p`, starting at index `k`. */
  function Search(s: string, p: string, k: nat): (r: int)
    requires k <= |s|
    ensures r == -1 <==> forall j :: k <= j ==> !OccursAt(s, p, j)
    ensures r != -1 ==> k <= r && OccursAt(s, p, r)
    ensures r != -1 ==> forall j :: k <= j < r ==> !OccursAt(s, p, j)
    decreases |s| - k
  {
    if k + |p| > |s| then -1
    else if s[k..k + |p|] == p then assert OccursAt(s, p, k); k
    else Search(s, p, k + 1)
  }

  /** `indexOf(p) != -1` is exactly "`p` occurs in `s`", for a non-empty pattern. */
  lemma IndexOfFinds(s: string, p: string)
    requires |p| > 0
    ensures IndexOf(s, p, 0) != -1 <==> Contains(s, p)
    ensures IndexOf(s, p, 0) != -1 ==> FirstOccurrence(s, p, IndexOf(s, p, 0))
  {
  }

  /** The C library's `tolower` on an ASCII character. */
  function LowerChar(c: char): char
  {
    if 'A' <= c <= 'Z' then (c as int + 32) as char else c
  }

  predicate IsUpper(c: char)
  {
    'A' <= c <= 'Z'
  }

  /** `String::toLowerCase`: every character through `tolower`. */
  function ToLower(s: string): (r: string)
    ensures |r| == |s|
    ensures forall i :: 0 <= i < |s| ==> r[i] == LowerChar(s[i])
    ensures forall i :: 0 <= i < |r| ==> !IsUpper(r[i])
  {
    if s == [] then [] else [LowerChar(s[0])] + ToLower(s[1..])
  }

  lemma {:induction false} ToLowerConcat(a: string, b: string)
    ensures ToLower(a + b) == ToLower(a) + ToLower(b)
  {
    var l, r := ToLower(a + b), ToLower(a) + ToLower(b);
    assert |l| == |r|;
    forall i | 0 <= i < |l| ensures l[i] == r[i] {
      if i < |a| {
        assert (a + b)[i] == a[i];
      } else {
        assert (a + b)[i] == b[i - |a|];
      }
    }
  }

  lemma ToLowerIdempotent(s: string)
    ensures ToLower(ToLower(s)) == ToLower(s)
  {
    var once := ToLower(s);
    assert forall i :: 0 <= i < |once| ==> LowerChar(once[i]) == once[i];
  }

  lemma ToLowerPrefix(s: string, k: nat)
    requires k <= |s|
    ensures ToLower(s[..k]) == ToLower(s)[..k]
  {
  }

  /** A boolean as a JSON literal, as both the firmware and PHP's `json_encode` write it. */
  function BoolText(b: bool): string
  {
    if b then "true" else "false"
  }

  /** `String::startsWith(p)`. */
  predicate StartsWith(s: string, p: string)
  {
    |s| >= |p| && s[..|p|] == p
  }

  /** `String::endsWith(p)`. */
  predicate EndsWith(s: string, p: string)
  {
    |s| >= |p| && s[|s| - |p|..] == p
  }

  /**
   * `String((char *) bytes)`: the characters of a buffer up to, not including,
   * its first NUL, or the whole buffer when it holds none.
   */
  function CString(bytes: seq<char>): (r: string)
    ensures |r| <= |bytes| && r == bytes[..|r|]
    ensures forall i :: 0 <= i < |r| ==> r[i] != '\0'
    ensures |r| < |bytes| ==> bytes[|r|] == '\0'
  {
    if bytes == [] || bytes[0] == '\0' then [] else [bytes[0]] + CString(bytes[1..])
  }

  /** A NUL-free text is read back whole, whatever follows it in the buffer. */
  lemma {:induction false} CStringConcat(a: string, b: seq<char>)
    requires CString(a) == a
    ensures CString(a + b) == a + CString(b)
  {
    if a != [] {
      assert a[0] != '\0';
      assert (a + b)[1..] == a[1..] + b;
      assert CString(a[1..]) == a[1..];
      CStringConcat(a[1..], b);
    } else {
      assert a + b == b;
    }
  }

  // ----- Absence of a pattern in a text built by concatenation -----

  /** Some character of `p` from index `m` on disagrees with `part` read from `j`, before `part` ends. */
  predicate DisagreesWithin(part: string, j: nat, p: string, m: nat)
    decreases |p| - m
  {
    m < |p| && j + m < |part| && (part[j + m] != p[m] || DisagreesWithin(part, j, p, m + 1))
  }

  /** No occurrence of `p` that starts in `part` at index `j` or later fits, whatever follows `part`. */
  predicate NoStartFrom(part: string, p: string, j: nat)
    decreases |part| - j
  {
    j >= |part| || (DisagreesWithin(part, j, p, 0) && NoStartFrom(part, p, j + 1))
  }

  predicate NoStartIn(part: string, p: string)
  {
    NoStartFrom(part, p, 0)
  }

  lemma {:induction false} DisagreementBlocks(a: string, b: string, j: nat, p: string, m: nat)
    requires DisagreesWithin(a, j, p, m)
    requires j + |p| <= |a + b|
    ensures (a + b)[j..j + |p|] != p
    decreases |p| - m
  {
    if a[j + m] != p[m] {
      assert (a + b)[j..j + |p|][m] == a[j + m];
    } else {
      DisagreementBlocks(a, b, j, p, m + 1);
    }
  }

  lemma {:induction false} NoStartFromConcat(a: string, b: string, p: string, j: nat)
    requires NoStartFrom(a, p, j)
    ensures forall i :: j <= i < |a| ==> !OccursAt(a + b, p, i)
    decreases |a| - j
  {
    if j < |a| {
      if j + |p| <= |a + b| {
        DisagreementBlocks(a, b, j, p, 0);
      }
      NoStartFromConcat(a, b, p, j + 1);
    }
  }

  /** An occurrence in `a + b` that starts inside `b` is an occurrence in `b`. */
  lemma OccursInSuffix(a: string, b: string, p: string, i: int)
    requires |a| <= i && OccursAt(a + b, p, i)
    ensures OccursAt(b, p, i - |a|)
  {
    assert (a + b)[i..i + |p|] == b[i - |a|..i - |a| + |p|];
  }


  lemma {:induction false} DisagreesInLonger(a: string, b: string, j: nat, p: string, m: nat)
    requires DisagreesWithin(a, j, p, m)
    ensures DisagreesWithin(a + b, j, p, m)
    decreases |p| - m
  {
    assert (a + b)[j + m] == a[j + m];
    if a[j + m] == p[m] {
      DisagreesInLonger(a, b, j, p, m + 1);
    }
  }

  lemma {:induction false} DisagreesAfter(a: string, b: string, j: nat, p: string, m: nat)
    requires DisagreesWithin(b, j, p, m)
    ensures DisagreesWithin(a + b, |a| + j, p, m)
    decreases |p| - m
  {
    assert (a + b)[|a| + j + m] == b[j + m];
    if b[j + m] == p[m] {
      DisagreesAfter(a, b, j, p, m + 1);
    }
  }

  lemma {:induction false} NoStartFromSuffix(a: string, b: string, p: string, j: nat)
    requires NoStartFrom(b, p, j)
    ensures NoStartFrom(a + b, p, |a| + j)
    decreases |b| - j
  {
    if j < |b| {
      DisagreesAfter(a, b, j, p, 0);
      NoStartFromSuffix(a, b, p, j + 1);
    }
  }

  lemma {:induction false} NoStartFromPrefix(a: string, b: string, p: string, j: nat)
    requires NoStartFrom(a, p, j) && NoStartIn(b, p)
    ensures NoStartFrom(a + b, p, j)
    decreases |a| - j
  {
    if j < |a| {
      DisagreesInLonger(a, b, j, p, 0);
      NoStartFromPrefix(a, b, p, j + 1);
    } else {
      NoStartFromSuffix(a, b, p, 0);
      NoStartFromShift(a + b, p, |a|, j);
    }
  }

  /** Moving the starting point of the check backwards over nothing but the end of `s`. */
  lemma NoStartFromShift(s: string, p: string, k: nat, j: nat)
    requires NoStartFrom(s, p, k) && k <= j
    ensures NoStartFrom(s, p, j)
    decreases j - k
  {
    if k < j {
      NoStartFromShift(s, p, k + 1, j);
    }
  }

  /** Both halves can hold no start of `p`: neither can their concatenation. */
  lemma NoStartConcat(a: string, b: string, p: string)
    requires NoStartIn(a, p) && NoStartIn(b, p)
    ensures NoStartIn(a + b, p)
  {
    NoStartFromPrefix(a, b, p, 0);
  }

  /** A text that can hold no start of `p` does not contain `p`. */
  lemma NoStartAbsent(s: string, p: string)
    requires |p| > 0 && NoStartIn(s, p)
    ensures !Contains(s, p)
  {
    NoStartFromConcat(s, [], p, 0);
    assert s + [] == s;
  }

  /** The single-character case: no position of `s` holds that character. */
  lemma NoStartChar(s: string, c: char, i: int)
    requires NoStartIn(s, [c]) && 0 <= i < |s|
    ensures s[i] != c
  {
    NoStartAbsent(s, [c]);
    assert !OccursAt(s, [c], i);
    assert s[i..i + 1] == [s[i]];
  }

  /** A text without a NUL is read back whole. */
  lemma CStringWhole(s: string)
    requires NoStartIn(s, "\0")
    ensures CString(s) == s
  {
    if |CString(s)| < |s| {
      NoStartChar(s, '\0', |CString(s)|);
    }
  }

  /** A text none of whose characters is the first of `p` cannot hold the start of `p`. */
  lemma {:induction false} NoStartWithoutFirstChar(v: string, p: string, j: nat)
    requires |p| > 0
    requires forall k :: 0 <= k < |v| ==> v[k] != p[0]
    ensures NoStartFrom(v, p, j)
    decreases |v| - j
  {
    if j < |v| {
      NoStartWithoutFirstChar(v, p, j + 1);
    }
  }

  /** An occurrence in a prefix is an occurrence in the whole text. */
  lemma OccursInPrefix(s: string, k: nat, p: string, i: int)
    requires k <= |s| && OccursAt(s[..k], p, i)
    ensures OccursAt(s, p, i)
  {
    assert s[..k][i..i + |p|] == s[i..i + |p|];
  }

  lemma PrefixKeepsAbsence(s: string, k: nat, p: string)
    requires k <= |s| && !Contains(s, p)
    ensures !Contains(s[..k], p)
  {
    forall i | OccursAt(s[..k], p, i) ensures OccursAt(s, p, i) {
      OccursInPrefix(s, k, p, i);
    }
  }


  /** An occurrence in `a` is one in `a + b`, and one in `b` is one in `a + b` shifted by `|a|`. */
  lemma OccursInConcat(a: string, b: string, p: string, i: int)
    ensures OccursAt(a, p, i) ==> OccursAt(a + b, p, i)
    ensures OccursAt(b, p, i) ==> OccursAt(a + b, p, |a| + i)
  {
    if OccursAt(a, p, i) {
      assert (a + b)[i..i + |p|] == a[i..i + |p|];
    }
    if OccursAt(b, p, i) {
      assert (a + b)[|a| + i..|a| + i + |p|] == b[i..i + |p|];
    }
  }

  /** Within `a`, `a + b` holds `p` where `a` does. */
  lemma OccursWithinLeft(a: string, b: string, p: string, i: int)
    requires 0 <= i && i + |p| <= |a|
    ensures OccursAt(a + b, p, i) <==> OccursAt(a, p, i)
  {
    assert (a + b)[i..i + |p|] == a[i..i + |p|];
  }

  // ----- Texts without upper-case letters -----

  /** No character of `s` from index `k` on is an ASCII upper-case letter. */
  predicate NoUpperFrom(s: string, k: nat)
    decreases |s| - k
  {
    k >= |s| || (!IsUpper(s[k]) && NoUpperFrom(s, k + 1))
  }

  lemma {:induction false} NoUpperAt(s: string, k: nat, i: int)
    requires NoUpperFrom(s, k) && k <= i < |s|
    ensures !IsUpper(s[i])
    decreases i - k
  {
    if k < i {
      NoUpperAt(s, k + 1, i);
    }
  }

  /** Lowercasing a text without upper-case letters changes nothing. */
  lemma LowerFixed(s: string)
    requires NoUpperFrom(s, 0)
    ensures ToLower(s) == s
  {
    forall i | 0 <= i < |s|
      ensures ToLower(s)[i] == s[i]
    {
      NoUpperAt(s, 0, i);
    }
  }

  /** Lowercasing keeps a character other than `c` away from `c`, for a `c` that is not a letter. */
  lemma LowerAvoids(s: string, c: char)
    requires !('A' <= c <= 'Z') && !('a' <= c <= 'z')
    requires forall k :: 0 <= k < |s| ==> s[k] != c
    ensures forall k :: 0 <= k < |ToLower(s)| ==> ToLower(s)[k] != c
  {
  }

  // ----- C strings -----

  /** A C string read from the prefix of a NUL-free text is that prefix. */
  lemma CStringOfPrefix(s: string, n: nat)
    requires CString(s) == s && n <= |s|
    ensures CString(s[..n]) == s[..n]
  {
  }

  /** Reading a C string twice gives what the first reading gave. */
  lemma CStringIdempotent(bytes: seq<char>)
    ensures CString(CString(bytes)) == CString(bytes)
  {
    var r := CString(bytes);
    var rr := CString(r);
    if |rr| < |r| {
      assert r[|rr|] == '\0';
    }
  }
}

/** String helpers with JavaScript's semantics: `String.prototype.trim`
    (ECMAScript 2023, section 22.1.3.32), `String.prototype.length` (a count of
    UTF-16 code units) and the code-point order MongoDB sorts strings by. */
module Text {

  /** WhiteSpace and LineTerminator code points of ECMAScript (sections 12.2 and 12.3). */
  predicate IsJsWhitespace(c: char) {
    var n := c as int;
    n == 0x09 || n == 0x0B || n == 0x0C || n == 0x20 || n == 0xA0 || n == 0xFEFF  // WhiteSpace
    || n == 0x1680 || (0x2000 <= n <= 0x200A) || n == 0x202F || n == 0x205F || n == 0x3000  // category Zs
    || n == 0x0A || n == 0x0D || n == 0x2028 || n == 0x2029  // LineTerminator
  }

  predicate AllWhitespace(s: string) {
    forall i :: 0 <= i < |s| ==> IsJsWhitespace(s[i])
  }

  /** No leading and no trailing whitespace. */
  predicate IsTrimmed(s: string) {
    s == [] || (!IsJsWhitespace(s[0]) && !IsJsWhitespace(s[|s| - 1]))
  }

  /** The number of whitespace code points `s` starts with. */
  function LeadingBlanks(s: string): (n: nat)
    ensures n <= |s|
    ensures forall i :: 0 <= i < n ==> IsJsWhitespace(s[i])
    ensures n < |s| ==> !IsJsWhitespace(s[n])
  {
    if s == [] || !IsJsWhitespace(s[0]) then 0 else 1 + LeadingBlanks(s[1..])
  }

  /** The length of `s` once its trailing whitespace is dropped. */
  function TrimmedEnd(s: string): (e: nat)
    ensures e <= |s|
    ensures forall i :: e <= i < |s| ==> IsJsWhitespace(s[i])
    ensures e > 0 ==> !IsJsWhitespace(s[e - 1])
  {
    if s == [] || !IsJsWhitespace(s[|s| - 1]) then |s| else TrimmedEnd(s[..|s| - 1])
  }

  /** `s.trim()`: the slice of `s` left once whitespace is dropped at both ends. */
  function Trim(s: string): (r: string)
    ensures IsTrimmed(r)
    ensures exists i, j :: 0 <= i <= j <= |s| && r == s[i..j]
                           && (forall k :: 0 <= k < i ==> IsJsWhitespace(s[k]))
                           && (forall k :: j <= k < |s| ==> IsJsWhitespace(s[k]))
  {
    var a := LeadingBlanks(s);
    var rest := s[a..];
    var e := TrimmedEnd(rest);
    var r := rest[..e];
    assert r == s[a..a + e];
    assert forall k :: a + e <= k < |s| ==> IsJsWhitespace(s[k]) by {
      forall k | a + e <= k < |s| ensures IsJsWhitespace(s[k]) {
        assert s[k] == rest[k - a];
      }
    }
    assert r != [] ==> r[0] == s[a];
    r
  }

  /** Trimming a trimmed string changes nothing, so `trim` is idempotent. */
  lemma TrimOfTrimmed(s: string)
    requires IsTrimmed(s)
    ensures Trim(s) == s
  {
  }

  lemma TrimIdempotent(s: string)
    ensures Trim(Trim(s)) == Trim(s)
  {
    TrimOfTrimmed(Trim(s));
  }

  /** `s.trim()` is empty exactly when `s` is made of whitespace alone. */
  lemma TrimEmptyIffBlank(s: string)
    ensures Trim(s) == [] <==> AllWhitespace(s)
  {
  }

  /** Mongoose's `required` on a String path: present and not the empty string. */
  predicate Required(s: string) {
    s != []
  }

  /** `s.length` in JavaScript: code points outside the Basic Multilingual Plane
      take two UTF-16 code units. */
  function Utf16Length(s: string): (n: nat)
    ensures |s| <= n <= 2 * |s|
  {
    if s == [] then 0 else (if s[0] as int > 0xFFFF then 2 else 1) + Utf16Length(s[1..])
  }

  /** Ascending string order of a MongoDB sort: binary order of the UTF-8 bytes,
      which is the order of code points compared one by one. */
  predicate CodePointLe(a: string, b: string) {
    a == [] || (b != [] && (a[0] < b[0] || (a[0] == b[0] && CodePointLe(a[1..], b[1..]))))
  }

  lemma {:induction false} CodePointLeTotal(a: string, b: string)
    ensures CodePointLe(a, b) || CodePointLe(b, a)
  {
    if a != [] && b != [] && a[0] == b[0] {
      CodePointLeTotal(a[1..], b[1..]);
    }
  }

  lemma {:induction false} CodePointLeTransitive(a: string, b: string, c: string)
    requires CodePointLe(a, b) && CodePointLe(b, c)
    ensures CodePointLe(a, c)
  {
    if a != [] && a[0] == b[0] && b[0] == c[0] {
      CodePointLeTransitive(a[1..], b[1..], c[1..]);
    }
  }
}

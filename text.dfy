/**
 * String primitives that the pipeline borrows from JavaScript: `String.prototype.trim`,
 * UTF-16 `length` and `substring`, `endsWith`, `Array.prototype.join`, and the two
 * one-character regular-expression tests used by the scorer.
 *
 * Dafny strings are sequences of Unicode scalar values, while JavaScript strings are
 * sequences of UTF-16 code units; `Utf16Length` and `Utf16Prefix` make the difference explicit.
 */
module Text {

  /** The characters `trim` removes: ECMAScript WhiteSpace (TAB, VT, FF, ZWNBSP and every
      Zs space separator) and LineTerminator (LF, CR, LS, PS). */
  predicate IsJsSpace(c: char) {
    var n := c as int;
    n == 0x09 || n == 0x0A || n == 0x0B || n == 0x0C || n == 0x0D || n == 0x20 ||
    n == 0xA0 || n == 0x1680 || (0x2000 <= n <= 0x200A) || n == 0x2028 || n == 0x2029 ||
    n == 0x202F || n == 0x205F || n == 0x3000 || n == 0xFEFF
  }

  /** `s` with its leading white space removed. */
  function TrimStart(s: string): (r: string)
    ensures |r| <= |s|
    ensures r == [] || !IsJsSpace(r[0])
  {
    if s != [] && IsJsSpace(s[0]) then TrimStart(s[1..]) else s
  }

  /** Trimming the front keeps a suffix. */
  lemma {:induction false} TrimStartIsSuffix(s: string)
    ensures TrimStart(s) == s[|s| - |TrimStart(s)|..]
  {
    if s != [] && IsJsSpace(s[0]) {
      TrimStartIsSuffix(s[1..]);
    }
  }

  /** Only white space is removed from the front. */
  lemma {:induction false} TrimStartRemovesSpace(s: string, k: nat)
    requires k < |s| - |TrimStart(s)|
    ensures IsJsSpace(s[k])
  {
    if k > 0 {
      TrimStartRemovesSpace(s[1..], k - 1);
    }
  }

  /** `s` with its trailing white space removed. */
  function TrimEnd(s: string): (r: string)
    ensures |r| <= |s|
    ensures r == [] || !IsJsSpace(r[|r| - 1])
  {
    if s != [] && IsJsSpace(s[|s| - 1]) then TrimEnd(s[..|s| - 1]) else s
  }

  /** Trimming the back keeps a prefix. */
  lemma {:induction false} TrimEndIsPrefix(s: string)
    ensures TrimEnd(s) == s[..|TrimEnd(s)|]
  {
    if s != [] && IsJsSpace(s[|s| - 1]) {
      TrimEndIsPrefix(s[..|s| - 1]);
    }
  }

  /** Only white space is removed from the back. */
  lemma {:induction false} TrimEndRemovesSpace(s: string, k: nat)
    requires |TrimEnd(s)| <= k < |s|
    ensures IsJsSpace(s[k])
  {
    if k < |s| - 1 {
      TrimEndRemovesSpace(s[..|s| - 1], k);
    }
  }

  /** No white space at either end. */
  predicate Trimmed(s: string) {
    s == [] || (!IsJsSpace(s[0]) && !IsJsSpace(s[|s| - 1]))
  }

  /** `String.prototype.trim`. */
  function Trim(s: string): (r: string)
    ensures |r| <= |s|
    ensures Trimmed(r)
  {
    var t := TrimStart(s);
    TrimStartIsSuffix(s);
    TrimEndIsPrefix(t);
    TrimEnd(t)
  }

  /** Trimming twice is trimming once. */
  lemma TrimIdempotent(s: string)
    ensures Trim(Trim(s)) == Trim(s)
  {
    var t := Trim(s);
    assert TrimStart(t) == t;
    assert TrimEnd(t) == t;
  }

  /** Trimming yields the empty string exactly when the input is all white space. */
  lemma TrimEmptyIffBlank(s: string)
    ensures Trim(s) == [] <==> forall k | 0 <= k < |s| :: IsJsSpace(s[k])
  {
    var t := TrimStart(s);
    TrimStartIsSuffix(s);
    TrimEndIsPrefix(t);
    if Trim(s) == [] {
      forall k | 0 <= k < |s| ensures IsJsSpace(s[k]) {
        if k < |s| - |t| {
          TrimStartRemovesSpace(s, k);
        } else {
          TrimEndRemovesSpace(t, k - (|s| - |t|));
        }
      }
    }
  }

  /** The number of UTF-16 code units that encode `c`. */
  function Utf16Units(c: char): nat {
    if c as int > 0xFFFF then 2 else 1
  }

  /** JavaScript's `length`: the number of UTF-16 code units of `s`. */
  function Utf16Length(s: string): (n: nat)
    ensures |s| <= n <= 2 * |s|
  {
    if s == [] then 0 else Utf16Units(s[0]) + Utf16Length(s[1..])
  }

  /** Every character lies in the Basic Multilingual Plane (one UTF-16 code unit each). */
  ghost predicate InBmp(s: string) {
    forall k | 0 <= k < |s| :: s[k] as int <= 0xFFFF
  }

  lemma {:induction false} BmpLength(s: string)
    requires InBmp(s)
    ensures Utf16Length(s) == |s|
  {
    if s != [] {
      BmpLength(s[1..]);
    }
  }

  /** `s.substring(0, n)`: the longest prefix of `s` that fits in `n` UTF-16 code units. */
  function Utf16Prefix(s: string, n: nat): (r: string)
    ensures r <= s
    ensures Utf16Length(r) <= n
    ensures r == s || Utf16Length(r) + Utf16Units(s[|r|]) > n
  {
    if s == [] || Utf16Units(s[0]) > n then []
    else
      var rest := Utf16Prefix(s[1..], n - Utf16Units(s[0]));
      assert ([s[0]] + rest)[1..] == rest;
      [s[0]] + rest
  }

  function Min(a: int, b: int): int {
    if a <= b then a else b
  }

  /** On text of the Basic Multilingual Plane (Hangul, ASCII) `substring(0, n)` keeps
      exactly the first `min(n, |s|)` characters. */
  lemma {:induction false} BmpPrefix(s: string, n: nat)
    requires InBmp(s)
    ensures Utf16Prefix(s, n) == s[..Min(n, |s|)]
  {
    if s != [] && n > 0 {
      BmpTail(s);
      BmpPrefix(s[1..], n - 1);
      Utf16PrefixCons(s, n);
      PrefixCons(s, Min(n, |s|));
    }
  }

  lemma BmpTail(s: string)
    requires InBmp(s) && s != []
    ensures InBmp(s[1..]) && Utf16Units(s[0]) == 1
  {
    forall k | 0 <= k < |s| - 1 ensures s[1..][k] as int <= 0xFFFF {
      assert s[1..][k] == s[k + 1];
    }
  }

  /** `substring` takes the first character when it fits. */
  lemma Utf16PrefixCons(s: string, n: nat)
    requires s != [] && Utf16Units(s[0]) <= n
    ensures Utf16Prefix(s, n) == [s[0]] + Utf16Prefix(s[1..], n - Utf16Units(s[0]))
  {
  }

  /** A non-empty prefix is the first character followed by a prefix of the rest. */
  lemma PrefixCons(s: string, m: nat)
    requires 0 < m <= |s|
    ensures s[..m] == [s[0]] + s[1..][..m - 1]
  {
  }

  /** `s.endsWith(suffix)`. */
  predicate EndsWith(s: string, suffix: string) {
    |suffix| <= |s| && s[|s| - |suffix|..] == suffix
  }

  lemma EndsWithAppended(prefix: string, suffix: string)
    ensures EndsWith(prefix + suffix, suffix)
  {
    assert (prefix + suffix)[|prefix|..] == suffix;
  }

  /** A string that ends in `a + b + a` ends with it. */
  lemma EndsWithRepeated(head: string, a: string, b: string)
    ensures EndsWith(head + a + b + a, a + b + a)
  {
    assert head + a + b + a == head + (a + b + a);
    EndsWithAppended(head, a + b + a);
  }

  /** The second part of a concatenation sits right after the first. */
  lemma InfixAt(a: string, b: string, c: string, d: string, e: string)
    ensures |a| + |b| <= |a + b + c + d + e| && (a + b + c + d + e)[|a|..|a| + |b|] == b
  {
    assert a + b + c + d + e == a + (b + (c + d + e));
  }

  /** The first part of a concatenation is its prefix. */
  lemma StartsWithFirst(a: string, b: string, c: string, d: string)
    ensures |a| <= |a + b + c + d| && (a + b + c + d)[..|a|] == a
  {
    assert a + b + c + d == a + (b + c + d);
  }

  /** `/\d/.test(s)`: an ASCII digit occurs in `s`. */
  predicate HasDigit(s: string) {
    exists k | 0 <= k < |s| :: '0' <= s[k] <= '9'
  }

  /** `/["']/.test(s)`: a straight double or single quote occurs in `s`. */
  predicate HasQuote(s: string) {
    exists k | 0 <= k < |s| :: s[k] == '"' || s[k] == '\''
  }

  /** `parts.join(sep)`. */
  function Join(parts: seq<string>, sep: string): string {
    if parts == [] then ""
    else if |parts| == 1 then parts[0]
    else parts[0] + sep + Join(parts[1..], sep)
  }
}

/** String helpers with the semantics of the JavaScript built-ins the
    storefront calls: the `\s` class (which is also what `trim` strips),
    `toLowerCase`, `includes` and `startsWith`. Strings are `seq<char>`. */
module Text {

  predicate IsDigit(c: char) { '0' <= c <= '9' }

  predicate IsAsciiLower(c: char) { 'a' <= c <= 'z' }

  predicate IsAsciiUpper(c: char) { 'A' <= c <= 'Z' }

  predicate IsAsciiLetter(c: char) { IsAsciiLower(c) || IsAsciiUpper(c) }

  predicate IsAsciiChar(c: char) { (c as int) < 128 }

  predicate IsAscii(s: string) { forall i :: 0 <= i < |s| ==> IsAsciiChar(s[i]) }

  predicate AllDigits(s: string) { forall i :: 0 <= i < |s| ==> IsDigit(s[i]) }

  /** The characters matched by the regular-expression class `\s`; this is
      also the set `String.prototype.trim` removes at both ends. */
  predicate IsSpace(c: char) {
    var n := c as int;
    || (9 <= n <= 13)            // tab, line feed, vertical tab, form feed, carriage return
    || n == 32                   // space
    || n == 0xA0                 // no-break space
    || n == 0x1680
    || (0x2000 <= n <= 0x200A)
    || n == 0x2028 || n == 0x2029
    || n == 0x202F || n == 0x205F
    || n == 0x3000 || n == 0xFEFF
  }

  predicate AllSpace(s: string) { forall i :: 0 <= i < |s| ==> IsSpace(s[i]) }

  /** The Latin-1 capitals U+00C0..U+00DE, without the multiplication sign
      U+00D7: "À" to "Þ". */
  predicate IsLatin1Upper(c: char) { 0xC0 <= c as int <= 0xDE && c as int != 0xD7 }

  /** `toLowerCase` on one character, for ASCII and the Latin-1 upper-case
      letters U+00C0..U+00DE (other than the multiplication sign U+00D7),
      which are the letters the storefront's Portuguese keywords use. */
  function LowerChar(c: char): (r: char)
    ensures IsAsciiUpper(c) ==> IsAsciiLower(r) && r as int - 'a' as int == c as int - 'A' as int
    ensures IsLatin1Upper(c) ==> r as int - 0xE0 == c as int - 0xC0
    ensures !IsAsciiUpper(c) && !IsLatin1Upper(c) ==> r == c
    ensures !IsAsciiUpper(c) && IsAsciiChar(c) ==> r == c
    ensures IsAsciiChar(r) <==> IsAsciiChar(c)
    ensures IsSpace(r) <==> IsSpace(c)
    ensures IsDigit(r) <==> IsDigit(c)
  {
    var n := c as int;
    if 'A' <= c <= 'Z' then (n + 32) as char
    else if IsLatin1Upper(c) then (n + 32) as char
    else c
  }

  lemma LowerCharIdempotent(c: char)
    ensures LowerChar(LowerChar(c)) == LowerChar(c)
  {
  }

  /** `toLowerCase`: the length is kept, every ASCII capital becomes its
      own small letter, every other ASCII character stays where it was, and
      whitespace and digits stay whitespace and digits. */
  function Lower(s: string): (r: string)
    ensures |r| == |s|
    ensures forall i :: 0 <= i < |s| && IsAsciiUpper(s[i]) ==> r[i] as int - 'a' as int == s[i] as int - 'A' as int
    ensures forall i :: 0 <= i < |s| && IsAsciiChar(s[i]) ==> !IsAsciiUpper(r[i])
    ensures forall i :: 0 <= i < |s| && IsAsciiChar(s[i]) && !IsAsciiUpper(s[i]) ==> r[i] == s[i]
    ensures forall i :: 0 <= i < |s| ==> (IsSpace(r[i]) <==> IsSpace(s[i])) && (IsDigit(r[i]) <==> IsDigit(s[i]))
  {
    seq(|s|, i requires 0 <= i < |s| => LowerChar(s[i]))
  }

  /** A capitalised keyword lower-cases to the keyword the filter and the
      status icon look for. */
  lemma LowerExample()
    ensures Lower("ANEL") == "anel"
  {
  }

  /** Lower-casing distributes over concatenation. */
  lemma LowerAppend(a: string, b: string)
    ensures Lower(a + b) == Lower(a) + Lower(b)
  {
  }

  lemma LowerIdempotent(s: string)
    ensures Lower(Lower(s)) == Lower(s)
  {
    forall i | 0 <= i < |s| ensures Lower(Lower(s))[i] == Lower(s)[i] {
      LowerCharIdempotent(s[i]);
    }
  }

  /** `s.startsWith(p)`. */
  predicate StartsWith(s: string, p: string) {
    |p| <= |s| && s[..|p|] == p
  }

  /** `s.includes(sub)`: `sub` occurs at some position of `s`. */
  predicate Includes(s: string, sub: string)
    decreases |s|
  {
    StartsWith(s, sub) || (|s| > 0 && Includes(s[1..], sub))
  }

  lemma {:induction false} IncludesAt(s: string, sub: string, k: nat)
    requires k + |sub| <= |s| && s[k..k + |sub|] == sub
    ensures Includes(s, sub)
    decreases k
  {
    if k > 0 {
      assert s[1..][k - 1..k - 1 + |sub|] == s[k..k + |sub|];
      IncludesAt(s[1..], sub, k - 1);
    }
  }

  lemma {:induction false} IncludesWitness(s: string, sub: string) returns (k: nat)
    requires Includes(s, sub)
    ensures k + |sub| <= |s| && s[k..k + |sub|] == sub
    decreases |s|
  {
    if StartsWith(s, sub) {
      k := 0;
    } else {
      var k' := IncludesWitness(s[1..], sub);
      k := k' + 1;
      assert s[k..k + |sub|] == s[1..][k'..k' + |sub|];
    }
  }

  /** The empty string is included in every string. */
  lemma IncludesEmpty(s: string)
    ensures Includes(s, "")
  {
    assert StartsWith(s, "");
  }

  /** `trimStart`: drops the leading run of `\s` characters. */
  function TrimStart(s: string): (r: string)
    ensures |r| <= |s|
    ensures r == s[|s| - |r|..]
    ensures AllSpace(s[..|s| - |r|])
    ensures |r| > 0 ==> !IsSpace(r[0])
  {
    if |s| > 0 && IsSpace(s[0]) then TrimStart(s[1..]) else s
  }

  /** `trimEnd`: drops the trailing run of `\s` characters. */
  function TrimEnd(s: string): (r: string)
    ensures |r| <= |s|
    ensures r == s[..|r|]
    ensures AllSpace(s[|r|..])
    ensures |r| > 0 ==> !IsSpace(r[|r| - 1])
  {
    if |s| > 0 && IsSpace(s[|s| - 1]) then TrimEnd(s[..|s| - 1]) else s
  }

  /** `r` is `s` with its first `k` characters and everything after the
      next `|r|` cut off, and only whitespace was cut. */
  predicate TrimmedAt(s: string, r: string, k: int) {
    0 <= k <= |s| - |r| && r == s[k..k + |r|] && AllSpace(s[..k]) && AllSpace(s[k + |r|..])
  }

  /** `trim`: `s` with the whitespace cut from both ends. The result is a
      slice of `s` with only whitespace before and after it, and it neither
      starts nor ends with whitespace; it is empty only for an all-space `s`. */
  function Trim(s: string): (r: string)
    ensures |r| <= |s|
    ensures exists k :: TrimmedAt(s, r, k)
    ensures |r| > 0 ==> !IsSpace(r[0]) && !IsSpace(r[|r| - 1])
  {
    var t := TrimStart(s);
    var r := TrimEnd(t);
    TrimCompose(s, t, r);
    r
  }

  /** Cutting a leading run and then a trailing run of whitespace leaves a
      slice of `s` that neither starts nor ends with whitespace. */
  lemma TrimCompose(s: string, t: string, r: string)
    requires |t| <= |s| && t == s[|s| - |t|..] && AllSpace(s[..|s| - |t|])
    requires |t| > 0 ==> !IsSpace(t[0])
    requires |r| <= |t| && r == t[..|r|] && AllSpace(t[|r|..])
    requires |r| > 0 ==> !IsSpace(r[|r| - 1])
    ensures TrimmedAt(s, r, |s| - |t|)
    ensures |r| > 0 ==> !IsSpace(r[0]) && !IsSpace(r[|r| - 1])
  {
    SliceOfSlice(s, t, r, |s| - |t|);
    if |r| > 0 {
      assert r[0] == t[0];
    }
  }

  /** A prefix of a suffix is a slice, and what follows the prefix in the
      suffix is what follows the slice in the whole. */
  lemma SliceOfSlice(s: string, t: string, r: string, k: nat)
    requires k <= |s| && t == s[k..] && |r| <= |t| && r == t[..|r|] && AllSpace(t[|r|..])
    ensures r == s[k..k + |r|] && AllSpace(s[k + |r|..])
  {
    assert s[k + |r|..] == t[|r|..];
  }

  /** `s.trim()` is empty exactly when `s` is made of `\s` characters only. */
  lemma TrimEmptyIff(s: string)
    ensures Trim(s) == "" <==> AllSpace(s)
  {
    var t := TrimStart(s);
    if Trim(s) == "" {
      assert AllSpace(t[|t|..]);
      assert t[|t|..] == t;
      assert s == s[..|s| - |t|] + t;
    }
  }
}

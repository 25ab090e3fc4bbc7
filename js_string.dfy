/**
 * The JavaScript string operations the core relies on, over `seq<char>`:
 * `trim`, `startsWith`, `endsWith`, `indexOf` of one character and `split`
 * on one character. A Dafny `char` is a Unicode scalar value; `.length`
 * counts UTF-16 code units, which `Utf16Length` makes explicit.
 */
module JsString {

  /** The characters ECMAScript's `String.prototype.trim` removes:
      WhiteSpace (TAB, VT, FF, ZWNBSP and the Zs category) and LineTerminator. */
  predicate IsSpace(c: char) {
    c == '\t' || c == '\n' || c == '\U{B}' || c == '\U{C}' || c == '\r' || c == ' '
    || c == '\U{A0}' || c == '\U{1680}' || ('\U{2000}' <= c <= '\U{200A}')
    || c == '\U{2028}' || c == '\U{2029}' || c == '\U{202F}' || c == '\U{205F}'
    || c == '\U{3000}' || c == '\U{FEFF}'
  }

  predicate AllSpace(s: string) {
    forall i :: 0 <= i < |s| ==> IsSpace(s[i])
  }

  /** Removes the leading white space. */
  function TrimStart(s: string): string {
    if |s| > 0 && IsSpace(s[0]) then TrimStart(s[1..]) else s
  }

  /** Removes the trailing white space. */
  function TrimEnd(s: string): string {
    if |s| > 0 && IsSpace(s[|s| - 1]) then TrimEnd(s[..|s| - 1]) else s
  }

  /** `s.trim()`. */
  function Trim(s: string): string {
    TrimEnd(TrimStart(s))
  }

  /** The UTF-16 code units of one character: two for a character outside the
      Basic Multilingual Plane (a surrogate pair), one otherwise. */
  function CodeUnits(c: char): (n: nat)
    ensures n == 1 || n == 2
  {
    if c as int >= 0x1_0000 then 2 else 1
  }

  /** `s.length`: the number of UTF-16 code units. */
  function Utf16Length(s: string): (n: nat)
    ensures |s| <= n <= 2 * |s|
    ensures n == 0 <==> s == []
  {
    if s == [] then 0 else Utf16Length(s[..|s| - 1]) + CodeUnits(s[|s| - 1])
  }

  /** `(a + b).length == a.length + b.length`. */
  lemma {:induction false} Utf16LengthAppend(a: string, b: string)
    ensures Utf16Length(a + b) == Utf16Length(a) + Utf16Length(b)
    decreases |b|
  {
    if b == [] {
      assert a + b == a;
    } else {
      var init := b[..|b| - 1];
      assert (a + b)[..|a + b| - 1] == a + init;
      Utf16LengthAppend(a, init);
    }
  }

  /** A string of characters inside the Basic Multilingual Plane has one code
      unit per character. */
  lemma {:induction false} Utf16LengthOfBmp(s: string)
    requires forall i :: 0 <= i < |s| ==> CodeUnits(s[i]) == 1
    ensures Utf16Length(s) == |s|
    decreases |s|
  {
    if s != [] {
      Utf16LengthOfBmp(s[..|s| - 1]);
    }
  }

  /** `s.slice(0, k)` counted in code units, as whole characters: the longest
      prefix of `s` that fits in `k` code units. */
  function Utf16Prefix(s: string, k: nat): string
    decreases |s|
  {
    if s == [] || CodeUnits(s[0]) > k then []
    else [s[0]] + Utf16Prefix(s[1..], k - CodeUnits(s[0]))
  }

  /** `p` is a prefix of `s` within `k` code units, and the next character of
      `s`, if any, does not fit. */
  predicate LongestFit(s: string, k: nat, p: string) {
    |p| <= |s| && p == s[..|p|] && Utf16Length(p) <= k &&
    (|p| < |s| ==> Utf16Length(p) + CodeUnits(s[|p|]) > k)
  }

  /** `Utf16Prefix` is the longest whole-character prefix within `k` code units. */
  lemma {:induction false} Utf16PrefixFacts(s: string, k: nat)
    ensures LongestFit(s, k, Utf16Prefix(s, k))
    decreases |s|
  {
    if s != [] && CodeUnits(s[0]) <= k {
      var q := Utf16Prefix(s[1..], k - CodeUnits(s[0]));
      Utf16PrefixFacts(s[1..], k - CodeUnits(s[0]));
      LongestFitCons(s, k, q);
    }
  }

  /** A first character that fits, followed by the longest fit of the rest in
      what is left, is the longest fit. */
  lemma LongestFitCons(s: string, k: nat, q: string)
    requires s != [] && CodeUnits(s[0]) <= k
    requires LongestFit(s[1..], k - CodeUnits(s[0]), q)
    ensures LongestFit(s, k, [s[0]] + q)
  {
    assert Utf16Length([s[0]]) == CodeUnits(s[0]) by {
      assert [s[0]][..0] == [];
    }
    Utf16LengthAppend([s[0]], q);
    assert s == [s[0]] + s[1..];
  }


  /** `s.startsWith(p)`. */
  predicate StartsWith(s: string, p: string) {
    |p| <= |s| && s[..|p|] == p
  }

  /** `s.endsWith(c)` for a one-character argument. */
  predicate EndsWith(s: string, c: char) {
    |s| > 0 && s[|s| - 1] == c
  }

  /** `s.indexOf(c)` for a one-character argument: the first position of `c`, or -1. */
  function IndexOf(s: string, c: char): (i: int)
    ensures -1 <= i < |s|
    ensures 0 <= i ==> s[i] == c
  {
    if |s| == 0 then -1
    else if s[0] == c then 0
    else
      var k := IndexOf(s[1..], c);
      if k == -1 then -1 else k + 1
  }

  /** `IndexOf` finds the first occurrence: -1 exactly when there is none,
      and no `c` before the position found. */
  lemma {:induction false} IndexOfFirst(s: string, c: char)
    ensures var i := IndexOf(s, c);
      (i == -1 <==> c !in s) && (0 <= i ==> c !in s[..i])
    decreases |s|
  {
    if |s| > 0 && s[0] != c {
      IndexOfFirst(s[1..], c);
      var k := IndexOf(s[1..], c);
      assert s == [s[0]] + s[1..];
      if k != -1 {
        assert s[..k + 1] == [s[0]] + s[1..][..k];
      }
    }
  }

  /** `s.split(sep)` for a one-character separator: always at least one piece,
      and no piece contains the separator. */
  function Split(s: string, sep: char): (pieces: seq<string>)
    ensures |pieces| >= 1
    ensures forall k :: 0 <= k < |pieces| ==> sep !in pieces[k]
    decreases |s|
  {
    IndexOfFirst(s, sep);
    var i := IndexOf(s, sep);
    if i == -1 then [s] else [s[..i]] + Split(s[i + 1..], sep)
  }

  /** Joining the pieces of a split with the separator gives the string back. */
  lemma {:induction false} SplitJoin(s: string, sep: char)
    ensures Join(Split(s, sep), sep) == s
    decreases |s|
  {
    var i := IndexOf(s, sep);
    IndexOfFirst(s, sep);
    if i != -1 {
      SplitJoin(s[i + 1..], sep);
      var pieces := Split(s, sep);
      assert pieces[1..] == Split(s[i + 1..], sep);
      assert s == s[..i] + [sep] + s[i + 1..];
    }
  }

  /** Inverse of `Split`: the pieces with `sep` between them. */
  function Join(pieces: seq<string>, sep: char): string
    requires |pieces| >= 1
  {
    if |pieces| == 1 then pieces[0] else pieces[0] + [sep] + Join(pieces[1..], sep)
  }

  /** The concatenation of a sequence of strings (`a.join("")`). */
  function Concat(parts: seq<string>): string {
    if parts == [] then "" else parts[0] + Concat(parts[1..])
  }

  lemma {:induction false} ConcatAppend(parts: seq<string>, last: string)
    ensures Concat(parts + [last]) == Concat(parts) + last
  {
    if parts == [] {
      assert [] + [last] == [last];
    } else {
      assert (parts + [last])[1..] == parts[1..] + [last];
      ConcatAppend(parts[1..], last);
    }
  }

  // ---------------------------------------------------------------------------
  // Properties of trim

  lemma AllSpaceCons(c: char, s: string)
    requires IsSpace(c) && AllSpace(s)
    ensures AllSpace([c] + s)
  {
    forall i | 0 <= i < |[c] + s| ensures IsSpace(([c] + s)[i]) {
      if i > 0 { assert ([c] + s)[i] == s[i - 1]; }
    }
  }

  lemma AllSpaceSnoc(s: string, c: char)
    requires AllSpace(s) && IsSpace(c)
    ensures AllSpace(s + [c])
  {
    forall i | 0 <= i < |s + [c]| ensures IsSpace((s + [c])[i]) {
      if i < |s| { assert (s + [c])[i] == s[i]; }
    }
  }

  lemma AllSpaceAppend(s: string, t: string)
    requires AllSpace(s) && AllSpace(t)
    ensures AllSpace(s + t)
  {
    forall i | 0 <= i < |s + t| ensures IsSpace((s + t)[i]) {
      if i < |s| { assert (s + t)[i] == s[i]; } else { assert (s + t)[i] == t[i - |s|]; }
    }
  }

  /** `TrimStart` removes a prefix of white space and stops at a non-space. */
  lemma {:induction false} TrimStartFacts(s: string)
    ensures |TrimStart(s)| <= |s| && TrimStart(s) == s[|s| - |TrimStart(s)|..]
    ensures AllSpace(s[..|s| - |TrimStart(s)|])
    ensures TrimStart(s) != [] ==> !IsSpace(TrimStart(s)[0])
    decreases |s|
  {
    if |s| > 0 && IsSpace(s[0]) {
      TrimStartFacts(s[1..]);
      var r := TrimStart(s[1..]);
      var k := |s| - |r|;
      assert s[1..][|s| - 1 - |r|..] == s[k..];
      assert s[..k] == [s[0]] + s[1..][..k - 1];
      AllSpaceCons(s[0], s[1..][..k - 1]);
    } else {
      assert s[0..] == s;
    }
  }

  /** `TrimEnd` removes a suffix of white space and stops at a non-space. */
  lemma {:induction false} TrimEndFacts(s: string)
    ensures |TrimEnd(s)| <= |s| && TrimEnd(s) == s[..|TrimEnd(s)|]
    ensures AllSpace(s[|TrimEnd(s)|..])
    ensures TrimEnd(s) != [] ==> !IsSpace(TrimEnd(s)[|TrimEnd(s)| - 1])
    decreases |s|
  {
    if |s| > 0 && IsSpace(s[|s| - 1]) {
      var p := s[..|s| - 1];
      TrimEndFacts(p);
      var r := TrimEnd(p);
      assert p[..|r|] == s[..|r|];
      assert s[|r|..] == p[|r|..] + [s[|s| - 1]];
      AllSpaceSnoc(p[|r|..], s[|s| - 1]);
    } else {
      assert s[..|s|] == s;
    }
  }

  /** `Trim(s)` is the slice `s[a..b]` between a white-space prefix and a
      white-space suffix, and starts and ends with a non-space. */
  lemma TrimFacts(s: string) returns (a: nat, b: nat)
    ensures a <= b <= |s| && Trim(s) == s[a..b]
    ensures AllSpace(s[..a]) && AllSpace(s[b..])
    ensures Trim(s) != [] ==> !IsSpace(Trim(s)[0]) && !IsSpace(Trim(s)[|Trim(s)| - 1])
  {
    TrimStartFacts(s);
    var u := TrimStart(s);
    a := |s| - |u|;
    TrimEndFacts(u);
    var t := TrimEnd(u);
    b := a + |t|;
    assert t == s[a..b];
    assert s[b..] == u[|t|..];
    if t != [] {
      assert t[0] == u[0];
    }
  }

  /** A string trims to "" exactly when it is all white space. */
  lemma TrimEmptyIff(s: string)
    ensures Trim(s) == [] <==> AllSpace(s)
  {
    var a, b := TrimFacts(s);
    if Trim(s) == [] {
      assert s == s[..a] + s[b..];
      AllSpaceAppend(s[..a], s[b..]);
    }
  }

  /** Trimming is idempotent. */
  lemma TrimIdempotent(s: string)
    ensures Trim(Trim(s)) == Trim(s)
  {
    var t := Trim(s);
    if t != [] {
      var a, b := TrimFacts(s);
      TrimOfUnpadded(t);
    }
  }

  /** A non-empty string with no white space at either end trims to itself. */
  lemma TrimOfUnpadded(s: string)
    requires s != [] && !IsSpace(s[0]) && !IsSpace(s[|s| - 1])
    ensures Trim(s) == s
  {
  }

  /** A string whose first character is not white space does not trim to "". */
  lemma TrimNonEmpty(s: string)
    requires s != [] && !IsSpace(s[0])
    ensures Trim(s) != []
  {
    TrimEmptyIff(s);
  }

  lemma {:induction false} TrimStartAppendSpace(s: string, c: char)
    requires IsSpace(c)
    ensures TrimStart(s + [c]) == if AllSpace(s) then [] else TrimStart(s) + [c]
    decreases |s|
  {
    if |s| == 0 {
      assert [] + [c] == [c];
      assert [c][1..] == [];
    } else if IsSpace(s[0]) {
      assert (s + [c])[1..] == s[1..] + [c];
      TrimStartAppendSpace(s[1..], c);
      assert AllSpace(s) <==> AllSpace(s[1..]) by {
        if AllSpace(s[1..]) {
          forall i | 0 <= i < |s| ensures IsSpace(s[i]) {
            if i > 0 { assert s[1..][i - 1] == s[i]; }
          }
        }
      }
    } else {
      assert (s + [c])[0] == s[0];
    }
  }

  /** Appending one white-space character never changes the trimmed value. */
  lemma TrimAppendSpace(s: string, c: char)
    requires IsSpace(c)
    ensures Trim(s + [c]) == Trim(s)
  {
    TrimStartAppendSpace(s, c);
    if !AllSpace(s) {
      var t := TrimStart(s);
      assert (t + [c])[..|t + [c]| - 1] == t;
    } else {
      TrimEmptyIff(s);
    }
  }
}

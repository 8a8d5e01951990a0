/** The parts of Python's `str` and list semantics that the watchlist code relies on:
    whitespace stripping, case mapping, prefix tests, `split` on one separator
    character and the prefix slice `s[:n]`. Case mapping covers ASCII letters only. */
module PyStr {

  /** Whitespace as `str.isspace()` and the regex class `\s` see it, restricted to
      the first 256 code points. */
  predicate IsSpace(c: char) {
    c == ' ' || ('\t' <= c <= '\r') || ('\U{1c}' <= c <= '\U{1f}') || c == '\U{85}' || c == '\U{a0}'
  }

  predicate IsLowerLetter(c: char) { 'a' <= c <= 'z' }

  predicate IsUpperLetter(c: char) { 'A' <= c <= 'Z' }

  function UpperChar(c: char): (r: char)
    ensures !IsLowerLetter(r)
  {
    if IsLowerLetter(c) then (c as int - 32) as char else c
  }

  function LowerChar(c: char): (r: char)
    ensures !IsUpperLetter(r)
  {
    if IsUpperLetter(c) then (c as int + 32) as char else c
  }

  /** `str.upper()` */
  function Upper(s: string): (r: string)
    ensures |r| == |s|
    ensures forall i :: 0 <= i < |s| ==> r[i] == UpperChar(s[i])
  {
    seq(|s|, i requires 0 <= i < |s| => UpperChar(s[i]))
  }

  /** `str.lower()` */
  function Lower(s: string): (r: string)
    ensures |r| == |s|
    ensures forall i :: 0 <= i < |s| ==> r[i] == LowerChar(s[i])
  {
    seq(|s|, i requires 0 <= i < |s| => LowerChar(s[i]))
  }

  /** `str.isupper()`: at least one cased character and no lower-case one. */
  predicate IsUpper(s: string) {
    (exists i :: 0 <= i < |s| && IsUpperLetter(s[i])) && forall i :: 0 <= i < |s| ==> !IsLowerLetter(s[i])
  }

  lemma UpperIdempotent(s: string)
    ensures Upper(Upper(s)) == Upper(s)
  {
  }

  /** Upper-casing a string without lower-case letters changes nothing, so the
      `isupper()` guard in front of `upper()` never matters. */
  lemma UpperOfUpperCase(s: string)
    requires forall i :: 0 <= i < |s| ==> !IsLowerLetter(s[i])
    ensures Upper(s) == s
  {
  }

  lemma UpperLower(s: string)
    ensures Upper(Lower(s)) == Upper(s)
  {
    forall i | 0 <= i < |s| ensures Upper(Lower(s))[i] == Upper(s)[i] {
      var c := s[i];
      if IsUpperLetter(c) {
        assert LowerChar(c) as int == c as int + 32;
      }
    }
  }

  lemma LowerUpper(s: string)
    ensures Lower(Upper(s)) == Lower(s)
  {
    forall i | 0 <= i < |s| ensures Lower(Upper(s))[i] == Lower(s)[i] {
      var c := s[i];
      if IsLowerLetter(c) {
        assert UpperChar(c) as int == c as int - 32;
      }
    }
  }

  /** `str.lstrip()` */
  function LStrip(s: string): (r: string)
    ensures |r| <= |s| && r == s[|s| - |r|..]
    ensures r != [] ==> !IsSpace(r[0])
    ensures forall i :: 0 <= i < |s| - |r| ==> IsSpace(s[i])
  {
    if s != [] && IsSpace(s[0]) then LStrip(s[1..]) else s
  }

  /** `str.rstrip()` */
  function RStrip(s: string): (r: string)
    ensures |r| <= |s| && r == s[..|r|]
    ensures r != [] ==> !IsSpace(r[|r| - 1])
    ensures forall i :: |r| <= i < |s| ==> IsSpace(s[i])
  {
    if s != [] && IsSpace(s[|s| - 1]) then RStrip(s[..|s| - 1]) else s
  }

  /** `str.strip()`: the longest slice of `s` that neither starts nor ends with whitespace. */
  function Strip(s: string): (r: string)
    ensures |r| <= |s|
    ensures r != [] ==> !IsSpace(r[0]) && !IsSpace(r[|r| - 1])
    ensures StripStart(s) + |r| <= |s| && r == s[StripStart(s)..StripStart(s) + |r|]
    ensures forall i :: 0 <= i < StripStart(s) ==> IsSpace(s[i])
    ensures forall i :: StripStart(s) + |r| <= i < |s| ==> IsSpace(s[i])
  {
    var l := LStrip(s);
    var r := RStrip(l);
    var off := |s| - |l|;
    assert l == s[off..];
    assert r == l[..|r|];
    assert l[..|r|] == s[off..off + |r|];
    r
  }

  /** How many characters `Strip` removes at the front. */
  function StripStart(s: string): nat
  {
    |s| - |LStrip(s)|
  }

  lemma StripOfSpaces(s: string)
    requires forall i :: 0 <= i < |s| ==> IsSpace(s[i])
    ensures Strip(s) == []
  {
  }

  /** `str.startswith(prefix)` */
  predicate StartsWith(s: string, prefix: string) {
    |prefix| <= |s| && s[..|prefix|] == prefix
  }

  /** Index of the first occurrence of `c` in `s`. */
  function IndexOf(s: string, c: char): (i: nat)
    requires c in s
    ensures i < |s| && s[i] == c && c !in s[..i]
  {
    if s[0] == c then 0 else 1 + IndexOf(s[1..], c)
  }

  /** `s.split(sep)` for a one-character separator: the maximal pieces between
      separators, empty pieces included, so there is always at least one. */
  function Split(s: string, sep: char): (parts: seq<string>)
    ensures |parts| >= 1
    ensures forall i :: 0 <= i < |parts| ==> sep !in parts[i]
    decreases |s|
  {
    if sep !in s then [s]
    else
      var i := IndexOf(s, sep);
      [s[..i]] + Split(s[i + 1..], sep)
  }

  /** `sep.join(parts)` */
  function Join(parts: seq<string>, sep: char): string
    requires |parts| >= 1
  {
    if |parts| == 1 then parts[0] else parts[0] + [sep] + Join(parts[1..], sep)
  }

  lemma {:induction false} JoinSplit(s: string, sep: char)
    ensures Join(Split(s, sep), sep) == s
    decreases |s|
  {
    if sep in s {
      var i := IndexOf(s, sep);
      JoinSplit(s[i + 1..], sep);
      assert s == s[..i] + [sep] + s[i + 1..];
    }
  }

  lemma {:induction false} SplitJoin(parts: seq<string>, sep: char)
    requires |parts| >= 1
    requires forall i :: 0 <= i < |parts| ==> sep !in parts[i]
    ensures Split(Join(parts, sep), sep) == parts
  {
    if |parts| > 1 {
      var rest := Join(parts[1..], sep);
      var s := parts[0] + [sep] + rest;
      assert s[|parts[0]|] == sep;
      assert s[..|parts[0]|] == parts[0];
      assert IndexOf(s, sep) == |parts[0]|;
      assert s[|parts[0]| + 1..] == rest;
      SplitJoin(parts[1..], sep);
    }
  }

  function Min(a: int, b: int): int { if a <= b then a else b }

  function Max(a: int, b: int): int { if a >= b then a else b }

  /** The slice `s[:n]`, including Python's reading of a negative `n` as
      "all but the last -n". */
  function Take<T>(s: seq<T>, n: int): (r: seq<T>)
    ensures |r| <= |s| && r == s[..|r|]
    ensures n >= 0 ==> |r| == Min(n, |s|)
    ensures n < 0 ==> |r| == Max(0, |s| + n)
  {
    if n >= 0 then (if n <= |s| then s[..n] else s)
    else if -n <= |s| then s[..|s| + n]
    else []
  }
}

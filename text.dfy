/**
 * The JavaScript string operations the command-line front end relies on,
 * stated over `seq<char>`: `indexOf`, `replace` with a string pattern,
 * `split` with a non-empty string separator, `join`, `trim` and the ASCII
 * part of `toLowerCase`.
 */
module Text {

  /** `pat` occurs in `s` starting at position `k`. */
  ghost predicate OccursAt(s: string, pat: string, k: int)
  {
    0 <= k && k + |pat| <= |s| && s[k..k + |pat|] == pat
  }

  /** `k` is the first position at which `pat` occurs in `s`. */
  ghost predicate FirstAt(s: string, pat: string, k: int)
  {
    OccursAt(s, pat, k) && forall j :: 0 <= j < k ==> !OccursAt(s, pat, j)
  }

  ghost predicate Occurs(s: string, pat: string)
  {
    exists k :: OccursAt(s, pat, k)
  }

  /** Occurrences in `s[1..]` are the occurrences in `s` shifted by one. */
  lemma ShiftOccurrences(s: string, pat: string)
    requires |s| > 0
    ensures forall j :: OccursAt(s[1..], pat, j) ==> OccursAt(s, pat, j + 1)
    ensures forall j :: 1 <= j && OccursAt(s, pat, j) ==> OccursAt(s[1..], pat, j - 1)
  {
  }

  /** `String.prototype.indexOf`: the first position of `pat` in `s`, or -1. */
  function IndexOf(s: string, pat: string): (k: int)
    ensures k == -1 || 0 <= k <= |s| - |pat|
    decreases |s|
  {
    if |s| < |pat| then -1
    else if s[..|pat|] == pat then 0
    else
      var r := IndexOf(s[1..], pat);
      if r < 0 then -1 else r + 1
  }

  /** `IndexOf` finds the first occurrence, and returns -1 only when there is none. */
  lemma {:induction false} IndexOfFinds(s: string, pat: string)
    ensures IndexOf(s, pat) >= 0 ==> FirstAt(s, pat, IndexOf(s, pat))
    ensures IndexOf(s, pat) < 0 ==> !Occurs(s, pat)
    decreases |s|
  {
    if |s| >= |pat| && s[..|pat|] != pat {
      IndexOfFinds(s[1..], pat);
      ShiftOccurrences(s, pat);
    }
  }

  /**
   * `s.replace(pat, rep)` with a string pattern. (The `$` substitution
   * patterns of the replacement are not modelled.)
   */
  function ReplaceFirst(s: string, pat: string, rep: string): string
  {
    var k := IndexOf(s, pat);
    if k < 0 then s else s[..k] + rep + s[k + |pat|..]
  }

  /**
   * Only the first occurrence of `pat` is replaced, and every other
   * character stays where it was; without an occurrence nothing changes.
   */
  lemma ReplaceFirstAt(s: string, pat: string, rep: string)
    ensures !Occurs(s, pat) ==> ReplaceFirst(s, pat, rep) == s
    ensures forall k :: FirstAt(s, pat, k) ==> ReplaceFirst(s, pat, rep) == s[..k] + rep + s[k + |pat|..]
  {
    IndexOfFinds(s, pat);
  }

  /** Replacing a pattern by itself changes nothing. */
  lemma ReplaceSelf(s: string, pat: string)
    ensures ReplaceFirst(s, pat, pat) == s
  {
    var k := IndexOf(s, pat);
    if k >= 0 {
      IndexOfFinds(s, pat);
      var before, after := s[..k], s[k + |pat|..];
      assert s[k..k + |pat|] == pat;
      assert s == before + s[k..k + |pat|] + after;
    }
  }

  /** Every character of `ReplaceFirst(s, pat, rep)` comes from `s` or from `rep`. */
  lemma ReplaceFirstChars(s: string, pat: string, rep: string, c: char)
    requires c !in s && c !in rep
    ensures c !in ReplaceFirst(s, pat, rep)
  {
  }

  /** `s.split(sep)` for a non-empty string separator. */
  function Split(s: string, sep: string): (parts: seq<string>)
    requires |sep| > 0
    ensures |parts| >= 1
    decreases |s|
  {
    var k := IndexOf(s, sep);
    if k < 0 then [s] else [s[..k]] + Split(s[k + |sep|..], sep)
  }

  /**
   * `split` cuts the string at the first occurrence of the separator and
   * goes on with the rest; without an occurrence the string is one piece.
   */
  lemma SplitAt(s: string, sep: string)
    requires |sep| > 0
    ensures !Occurs(s, sep) ==> Split(s, sep) == [s]
    ensures forall k :: FirstAt(s, sep, k) ==> Split(s, sep) == [s[..k]] + Split(s[k + |sep|..], sep)
  {
    IndexOfFinds(s, sep);
  }

  /** `parts.join(sep)`; the empty array joins to the empty string. */
  function Join(parts: seq<string>, sep: string): string
  {
    if |parts| == 0 then ""
    else if |parts| == 1 then parts[0]
    else parts[0] + sep + Join(parts[1..], sep)
  }

  lemma JoinCons(head: string, tail: seq<string>, sep: string)
    requires |tail| >= 1
    ensures Join([head] + tail, sep) == head + sep + Join(tail, sep)
  {
  }

  /** Splitting and joining with the same separator gives back the string. */
  lemma {:induction false} JoinSplit(s: string, sep: string)
    requires |sep| > 0
    ensures Join(Split(s, sep), sep) == s
    decreases |s|
  {
    var k := IndexOf(s, sep);
    if k >= 0 {
      IndexOfFinds(s, sep);
      var head, rest := s[..k], s[k + |sep|..];
      calc {
        Join(Split(s, sep), sep);
        Join([head] + Split(rest, sep), sep);
        { JoinCons(head, Split(rest, sep), sep); }
        head + sep + Join(Split(rest, sep), sep);
        { JoinSplit(rest, sep); }
        head + sep + rest;
        { assert s[k..k + |sep|] == sep; assert s == head + s[k..k + |sep|] + rest; }
        s;
      }
    }
  }

  /** `s` with every `/` turned into a space. */
  function SpacesForSlashes(s: string): string
  {
    seq(|s|, i requires 0 <= i < |s| => if s[i] == '/' then ' ' else s[i])
  }

  lemma SpacesForSlashesConcat(a: string, b: string)
    ensures SpacesForSlashes(a + b) == SpacesForSlashes(a) + SpacesForSlashes(b)
  {
  }

  lemma SpacesForSlashesFixed(s: string)
    requires '/' !in s
    ensures SpacesForSlashes(s) == s
  {
  }

  /** A string with no occurrence of `[c]` before position `k` has no `c` there. */
  lemma NoCharBefore(s: string, c: char, k: int)
    requires 0 <= k <= |s|
    requires forall j :: 0 <= j < k ==> !OccursAt(s, [c], j)
    ensures c !in s[..k]
  {
    forall i | 0 <= i < k
      ensures s[i] != c
    {
      if s[i] == c { assert s[i..i + 1] == [c]; assert OccursAt(s, [c], i); }
    }
  }

  /** `s.split('/').join(' ')` replaces every `/` by a space and nothing else. */
  lemma {:induction false} JoinSplitSlashes(s: string)
    ensures Join(Split(s, "/"), " ") == SpacesForSlashes(s)
    decreases |s|
  {
    var k := IndexOf(s, "/");
    IndexOfFinds(s, "/");
    if k < 0 {
      NoCharBefore(s, '/', |s|);
      assert s[..|s|] == s;
      SpacesForSlashesFixed(s);
    } else {
      var head, rest := s[..k], s[k + 1..];
      var tail := Split(rest, "/");
      assert '/' !in head by { NoCharBefore(s, '/', k); }
      assert s == head + "/" + rest;
      calc {
        Join(Split(s, "/"), " ");
        Join([head] + tail, " ");
        { JoinCons(head, tail, " "); }
        head + " " + Join(tail, " ");
        { JoinSplitSlashes(rest); SpacesForSlashesFixed(head); }
        SpacesForSlashes(head) + SpacesForSlashes("/") + SpacesForSlashes(rest);
        { SpacesForSlashesConcat(head, "/"); SpacesForSlashesConcat(head + "/", rest); }
        SpacesForSlashes(s);
      }
    }
  }

  /** The characters JavaScript's `trim` removes: WhiteSpace and LineTerminator. */
  predicate IsSpace(c: char)
  {
    || '\t' <= c <= '\r'                  // tab, line feed, vertical tab, form feed, carriage return
    || c == ' ' || c == '\U{00A0}' || c == '\U{1680}'
    || '\U{2000}' <= c <= '\U{200A}'      // the fixed-width spaces
    || c == '\U{2028}' || c == '\U{2029}'  // line and paragraph separators
    || c == '\U{202F}' || c == '\U{205F}' || c == '\U{3000}' || c == '\U{FEFF}'
  }

  ghost predicate AllSpace(s: string)
  {
    forall i :: 0 <= i < |s| ==> IsSpace(s[i])
  }

  function TrimStart(s: string): (r: string)
    ensures |r| <= |s| && r == s[|s| - |r|..] && AllSpace(s[..|s| - |r|])
    ensures r == [] || !IsSpace(r[0])
    decreases |s|
  {
    if |s| > 0 && IsSpace(s[0]) then TrimStart(s[1..]) else s
  }

  function TrimEnd(s: string): (r: string)
    ensures |r| <= |s| && r == s[..|r|] && AllSpace(s[|r|..])
    ensures r == [] || !IsSpace(r[|r| - 1])
    decreases |s|
  {
    if |s| > 0 && IsSpace(s[|s| - 1]) then TrimEnd(s[..|s| - 1]) else s
  }

  /**
   * `s.trim()`: `s` is `r` surrounded by white space only, and `r` neither
   * starts nor ends with white space.
   */
  function Trim(s: string): (r: string)
    ensures r == [] || (!IsSpace(r[0]) && !IsSpace(r[|r| - 1]))
    ensures exists i :: 0 <= i <= |s| - |r| && s[i..i + |r|] == r && AllSpace(s[..i]) && AllSpace(s[i + |r|..])
  {
    var t := TrimStart(s);
    var r := TrimEnd(t);
    var i := |s| - |t|;
    assert s[i..i + |r|] == r;
    assert s[i + |r|..] == t[|r|..];
    r
  }

  function LowerChar(c: char): char
  {
    if 'A' <= c <= 'Z' then (c as int - 'A' as int + 'a' as int) as char else c
  }

  /** `toLowerCase` on the ASCII letters; every other character is kept. */
  function LowerAscii(s: string): string
  {
    seq(|s|, i requires 0 <= i < |s| => LowerChar(s[i]))
  }

  function DigitChar(d: nat): char
    requires d < 10
  {
    ('0' as int + d) as char
  }

  /** The number a string of decimal digits stands for, most significant first. */
  function DigitsValue(s: string): int
  {
    if |s| == 0 then 0 else DigitsValue(s[..|s| - 1]) * 10 + (s[|s| - 1] as int - '0' as int)
  }

  /** The decimal numeral of `n`, as a template literal renders it. */
  function Decimal(n: nat): (s: string)
    ensures |s| >= 1
    decreases n
  {
    if n < 10 then [DigitChar(n)] else Decimal(n / 10) + [DigitChar(n % 10)]
  }

  /**
   * `Decimal(n)` is made of digits, stands for `n`, and starts with `0`
   * only for zero itself.
   */
  lemma {:induction false} DecimalValue(n: nat)
    ensures forall i :: 0 <= i < |Decimal(n)| ==> '0' <= Decimal(n)[i] <= '9'
    ensures DigitsValue(Decimal(n)) == n
    ensures Decimal(n)[0] == '0' <==> n == 0
    decreases n
  {
    if n >= 10 {
      DecimalValue(n / 10);
      var d := Decimal(n / 10);
      assert Decimal(n) == d + [DigitChar(n % 10)];
      assert Decimal(n)[..|Decimal(n)| - 1] == d;
    }
  }
}

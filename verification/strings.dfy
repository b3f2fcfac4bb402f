/**
  The JavaScript string primitives the appointment views rely on:
  `toLowerCase`, `includes`, `split` with a one-character separator,
  `replace` of the first occurrence of a character, `Number` on a digit
  string and `Number.parseInt(s, 10)`.
*/
module Strings {
  import opened Wrappers

  // ---------------------------------------------------------------------
  // Character classes
  // ---------------------------------------------------------------------

  predicate IsDigit(c: char) {
    '0' <= c <= '9'
  }

  predicate AllDigits(s: string) {
    forall i :: 0 <= i < |s| ==> IsDigit(s[i])
  }

  predicate IsLetter(c: char) {
    ('a' <= c <= 'z') || ('A' <= c <= 'Z')
  }

  predicate AllLetters(s: string) {
    forall i :: 0 <= i < |s| ==> IsLetter(s[i])
  }

  /** The characters `Number.parseInt` skips before the number: white space and line terminators. */
  predicate IsJsSpace(c: char) {
    || c == '\t' || c == '\n' || c == '\r' || c == ' '
    || c == '\U{000B}' || c == '\U{000C}' || c == '\U{00A0}' || c == '\U{1680}'
    || ('\U{2000}' <= c <= '\U{200A}')
    || c == '\U{2028}' || c == '\U{2029}' || c == '\U{202F}' || c == '\U{205F}'
    || c == '\U{3000}' || c == '\U{FEFF}'
  }

  // ---------------------------------------------------------------------
  // toLowerCase and includes
  // ---------------------------------------------------------------------

  function LowerChar(c: char): char {
    if 'A' <= c <= 'Z' then (c as int + 32) as char else c
  }

  /** `s.toLowerCase()`, restricted to the ASCII letters. */
  function ToLower(s: string): (r: string)
    ensures |r| == |s|
    ensures forall i :: 0 <= i < |s| ==> r[i] == LowerChar(s[i])
  {
    seq(|s|, i requires 0 <= i < |s| => LowerChar(s[i]))
  }

  /** `s.includes(w)`: `w` occurs in `s` as a contiguous block. */
  predicate Contains(s: string, w: string) {
    exists i | 0 <= i <= |s| - |w| :: OccursAt(s, w, i)
  }

  /** `w` occurs in `s` starting at index `i`. */
  predicate OccursAt(s: string, w: string, i: int) {
    0 <= i <= |s| - |w| && s[i..i + |w|] == w
  }

  /** Whatever surrounds a string, the result contains it. */
  lemma ContainsMiddle(a: string, w: string, b: string)
    ensures Contains(a + w + b, w)
  {
    var s := a + w + b;
    assert s[|a|..|a| + |w|] == w;
    assert OccursAt(s, w, |a|);
  }

  /** The empty string is contained in every string, as `"x".includes("")` is true. */
  lemma ContainsEmpty(s: string)
    ensures Contains(s, "")
  {
    assert s[0..0] == "";
    assert OccursAt(s, "", 0);
  }

  // ---------------------------------------------------------------------
  // split and its inverse
  // ---------------------------------------------------------------------

  /** `s.split(c)` for a one-character separator: the maximal blocks between occurrences of `c`. */
  function Split(s: string, c: char): (r: seq<string>)
    ensures |r| >= 1
    ensures forall k :: 0 <= k < |r| ==> c !in r[k]
    ensures Join(r, c) == s
    decreases |s|
  {
    if |s| == 0 then [""]
    else
      var rest := Split(s[1..], c);
      if s[0] == c then
        [""] + rest
      else
        var r := [[s[0]] + rest[0]] + rest[1..];
        assert r[1..] == rest[1..];
        assert Join(r, c) == s by {
          if |rest| > 1 {
            assert Join(rest, c) == rest[0] + [c] + Join(rest[1..], c);
          }
        }
        r
  }

  /** `parts.join(c)`. */
  function Join(parts: seq<string>, c: char): string
    requires |parts| >= 1
    decreases |parts|
  {
    if |parts| == 1 then parts[0] else parts[0] + [c] + Join(parts[1..], c)
  }

  /** A block free of the separator is returned whole. */
  lemma {:induction false} SplitNoSeparator(a: string, c: char)
    requires c !in a
    ensures Split(a, c) == [a]
    decreases |a|
  {
    if |a| > 0 {
      assert c !in a[1..] by {
        forall k | 0 <= k < |a[1..]| ensures a[1..][k] != c {
          assert a[1..][k] == a[k + 1];
        }
      }
      SplitNoSeparator(a[1..], c);
      assert [a[0]] + a[1..] == a;
    }
  }

  /** The first block ends at the first separator. */
  lemma {:induction false} SplitFirstBlock(a: string, c: char, b: string)
    requires c !in a
    ensures Split(a + [c] + b, c) == [a] + Split(b, c)
    decreases |a|
  {
    var s := a + [c] + b;
    if |a| == 0 {
      assert s[0] == c && s[1..] == b;
    } else {
      assert s[1..] == a[1..] + [c] + b;
      assert c !in a[1..] by {
        forall k | 0 <= k < |a[1..]| ensures a[1..][k] != c {
          assert a[1..][k] == a[k + 1];
        }
      }
      SplitFirstBlock(a[1..], c, b);
      assert [a[0]] + a[1..] == a;
    }
  }

  /** Splitting a join of separator-free blocks gives the blocks back. */
  lemma {:induction false} SplitJoin(parts: seq<string>, c: char)
    requires |parts| >= 1
    requires forall k :: 0 <= k < |parts| ==> c !in parts[k]
    ensures Split(Join(parts, c), c) == parts
    decreases |parts|
  {
    if |parts| == 1 {
      SplitNoSeparator(parts[0], c);
    } else {
      SplitJoin(parts[1..], c);
      SplitFirstBlock(parts[0], c, Join(parts[1..], c));
      assert [parts[0]] + parts[1..] == parts;
    }
  }

  /** Three blocks, as in `"23 Jun 2025"` or `"2025-06-23"`. */
  lemma SplitThree(a: string, b: string, d: string, c: char)
    requires c !in a && c !in b && c !in d
    ensures Split(a + [c] + b + [c] + d, c) == [a, b, d]
  {
    var parts := [a, b, d];
    assert parts[1..] == [b, d];
    assert parts[1..][1..] == [d];
    assert Join(parts[1..][1..], c) == d;
    assert Join(parts[1..], c) == b + [c] + d;
    assert Join(parts, c) == a + [c] + (b + [c] + d);
    assert a + [c] + (b + [c] + d) == a + [c] + b + [c] + d;
    SplitJoin(parts, c);
  }

  /** Four blocks, as in `"23 Jun 2025 10:30"`. */
  lemma SplitFour(a: string, b: string, d: string, e: string, c: char)
    requires c !in a && c !in b && c !in d && c !in e
    ensures Split(a + [c] + b + [c] + d + [c] + e, c) == [a, b, d, e]
  {
    var tail := b + [c] + d + [c] + e;
    SplitThree(b, d, e, c);
    SplitFirstBlock(a, c, tail);
    SeqAssoc(a + [c], b + [c] + d + [c], e);
    SeqAssoc(a + [c], b + [c] + d, [c]);
    SeqAssoc(a + [c], b + [c], d);
    SeqAssoc(a + [c], b, [c]);
  }

  lemma SeqAssoc(x: string, y: string, z: string)
    ensures x + (y + z) == x + y + z
  {
  }

  // ---------------------------------------------------------------------
  // replace(",", "")
  // ---------------------------------------------------------------------

  /** `s.replace(c, "")` for a one-character pattern: drops the first occurrence only. */
  function RemoveFirst(s: string, c: char): (r: string)
    ensures c in s ==> |r| == |s| - 1
    ensures c in s ==> exists i :: 0 <= i < |s| && s[i] == c && c !in s[..i] && r == s[..i] + s[i + 1..]
    ensures c !in s ==> r == s
    decreases |s|
  {
    if |s| == 0 then s
    else if s[0] == c then
      assert s[..0] + s[1..] == s[1..];
      assert c !in s[..0];
      s[1..]
    else
      var rest := RemoveFirst(s[1..], c);
      RemoveFirstStep(s, c, rest);
      [s[0]] + rest
  }

  /** The step of `RemoveFirst` past a first character other than `c`. */
  lemma RemoveFirstStep(s: string, c: char, rest: string)
    requires |s| > 0 && s[0] != c
    requires c in s[1..] ==> exists i :: 0 <= i < |s[1..]| && s[1..][i] == c && c !in s[1..][..i] && rest == s[1..][..i] + s[1..][i + 1..]
    ensures c in s ==> exists i :: 0 <= i < |s| && s[i] == c && c !in s[..i] && [s[0]] + rest == s[..i] + s[i + 1..]
  {
    if c in s {
      InTail(s, c);
      var i :| 0 <= i < |s[1..]| && s[1..][i] == c && c !in s[1..][..i] && rest == s[1..][..i] + s[1..][i + 1..];
      RemoveFirstWitness(s, c, rest, i);
    }
  }

  /** A character other than the first one occurs after it. */
  lemma InTail(s: string, c: char)
    requires |s| > 0 && s[0] != c && c in s
    ensures c in s[1..]
  {
    var k :| 0 <= k < |s| && s[k] == c;
    assert s[1..][k - 1] == c;
  }

  /** The first occurrence in the tail, shifted by one, is the first occurrence in `s`. */
  lemma RemoveFirstWitness(s: string, c: char, rest: string, i: int)
    requires |s| > 0 && s[0] != c && 0 <= i < |s| - 1
    requires s[1..][i] == c && c !in s[1..][..i] && rest == s[1..][..i] + s[1..][i + 1..]
    ensures s[i + 1] == c && c !in s[..i + 1] && [s[0]] + rest == s[..i + 1] + s[i + 2..]
  {
    assert s[..i + 1] == [s[0]] + s[1..][..i];
    assert s[i + 2..] == s[1..][i + 1..];
  }

  // ---------------------------------------------------------------------
  // Decimal digits
  // ---------------------------------------------------------------------

  function Pow10(n: nat): nat {
    if n == 0 then 1 else 10 * Pow10(n - 1)
  }

  function DigitValue(c: char): nat
    requires IsDigit(c)
  {
    c as int - '0' as int
  }

  function DigitChar(n: nat): (c: char)
    requires n < 10
    ensures IsDigit(c) && DigitValue(c) == n
  {
    ('0' as int + n) as char
  }

  /** `Number(s)` for a string of decimal digits (leading zeros allowed). */
  function DecValue(s: string): nat
    requires AllDigits(s)
    decreases |s|
  {
    if |s| == 0 then 0 else 10 * DecValue(s[..|s| - 1]) + DigitValue(s[|s| - 1])
  }

  /** The `w`-digit zero-padded decimal text of `n mod 10^w`. */
  function Digits(n: nat, w: nat): (r: string)
    ensures |r| == w
    ensures AllDigits(r)
    decreases w
  {
    if w == 0 then "" else Digits(n / 10, w - 1) + [DigitChar(n % 10)]
  }

  /** Reading back a padded decimal text gives the number. */
  lemma {:induction false} DigitsValue(n: nat, w: nat)
    requires n < Pow10(w)
    ensures DecValue(Digits(n, w)) == n
    decreases w
  {
    if w > 0 {
      var s := Digits(n, w);
      assert s[..|s| - 1] == Digits(n / 10, w - 1);
      DigitsValue(n / 10, w - 1);
    }
  }

  /** The unpadded decimal text of a number below 100, as in `"3"` or `"23"`. */
  function Dec(n: nat): (r: string)
    requires n < 100
    ensures 1 <= |r| <= 2 && AllDigits(r)
    ensures DecValue(r) == n
  {
    assert Pow10(1) == 10 && Pow10(2) == 100;
    DigitsValue(n, if n < 10 then 1 else 2);
    if n < 10 then Digits(n, 1) else Digits(n, 2)
  }

  // ---------------------------------------------------------------------
  // Number.parseInt(s, 10)
  // ---------------------------------------------------------------------

  function TrimStart(s: string): (r: string)
    ensures |r| == 0 || !IsJsSpace(r[0])
    decreases |s|
  {
    if |s| > 0 && IsJsSpace(s[0]) then TrimStart(s[1..]) else s
  }

  /** The longest prefix of `s` made of decimal digits. */
  function LeadingDigits(s: string): (r: string)
    ensures AllDigits(r) && |r| <= |s| && r == s[..|r|]
    ensures |r| == |s| || !IsDigit(s[|r|])
    decreases |s|
  {
    if |s| > 0 && IsDigit(s[0]) then [s[0]] + LeadingDigits(s[1..]) else ""
  }

  /**
    `Number.parseInt(s, 10)`: skip leading white space, read an optional
    sign, then the longest run of decimal digits; `None` (NaN) when there
    is no digit there.  The rest of the string is ignored.
  */
  function ParseInt(s: string): Option<int> {
    var t := TrimStart(s);
    var negative := |t| > 0 && t[0] == '-';
    var body := if |t| > 0 && (t[0] == '-' || t[0] == '+') then t[1..] else t;
    var ds := LeadingDigits(body);
    if |ds| == 0 then None
    else if negative then Some(-(DecValue(ds) as int))
    else Some(DecValue(ds))
  }

  /** `parseInt` reads exactly the leading digit block and ignores what follows. */
  lemma ParseIntPrefix(d: string, rest: string)
    requires |d| > 0 && AllDigits(d)
    requires |rest| == 0 || !IsDigit(rest[0])
    ensures ParseInt(d + rest) == Some(DecValue(d) as int)
  {
    var s := d + rest;
    assert s[0] == d[0] && IsDigit(s[0]);
    assert !IsJsSpace(s[0]);
    assert TrimStart(s) == s;
    assert s[0] != '-' && s[0] != '+';
    LeadingDigitsOfDigitBlock(d, rest);
    assert LeadingDigits(s) == d;
  }

  lemma {:induction false} LeadingDigitsOfDigitBlock(d: string, rest: string)
    requires AllDigits(d)
    requires |rest| == 0 || !IsDigit(rest[0])
    ensures LeadingDigits(d + rest) == d
    decreases |d|
  {
    if |d| > 0 {
      assert (d + rest)[1..] == d[1..] + rest;
      LeadingDigitsOfDigitBlock(d[1..], rest);
      assert [d[0]] + d[1..] == d;
    } else {
      assert d + rest == rest;
    }
  }

  /** On a non-empty digit string `parseInt` and `Number` agree. */
  lemma ParseIntDigits(d: string)
    requires |d| > 0 && AllDigits(d)
    ensures ParseInt(d) == Some(DecValue(d) as int)
  {
    assert d + "" == d;
    ParseIntPrefix(d, "");
  }

  /** A string with no digit at all parses to NaN. */
  lemma ParseIntNoDigits(s: string)
    requires forall i :: 0 <= i < |s| ==> !IsDigit(s[i])
    ensures ParseInt(s) == None
  {
    var t := TrimStart(s);
    TrimStartSuffix(s);
    var body := if |t| > 0 && (t[0] == '-' || t[0] == '+') then t[1..] else t;
    assert |body| == 0 || !IsDigit(body[0]);
  }

  lemma {:induction false} TrimStartSuffix(s: string)
    ensures exists k :: 0 <= k <= |s| && TrimStart(s) == s[k..]
    decreases |s|
  {
    if |s| > 0 && IsJsSpace(s[0]) {
      TrimStartSuffix(s[1..]);
      var k :| 0 <= k <= |s[1..]| && TrimStart(s[1..]) == s[1..][k..];
      assert s[1..][k..] == s[k + 1..];
    } else {
      assert s[0..] == s;
    }
  }
}

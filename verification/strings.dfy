/**
 The handful of JavaScript string primitives the storefront rules rely on:
 `trim`, `toLowerCase`, `includes`, `split` and "last segment after a
 separator" (`split(sep).pop()`).  Strings are `seq<char>`.
 */
module Strings {

  /**
   The ECMAScript WhiteSpace and LineTerminator code points, which is what
   `trim` strips: TAB, LF, VT, FF, CR, the space separators of Unicode
   category Zs, the line and paragraph separators, and the byte-order mark.
   */
  predicate IsSpace(c: char) {
    || '\t' <= c <= '\r'
    || c == ' ' || c == '\U{00A0}' || c == '\U{1680}'
    || '\U{2000}' <= c <= '\U{200A}'
    || c == '\U{2028}' || c == '\U{2029}' || c == '\U{202F}' || c == '\U{205F}'
    || c == '\U{3000}' || c == '\U{FEFF}'
  }

  /** True when every character is white space (the empty string included). */
  predicate IsBlank(s: string) {
    forall i :: 0 <= i < |s| ==> IsSpace(s[i])
  }

  function TrimStart(s: string): (r: string)
    ensures |r| <= |s| && r == s[|s| - |r|..]
    ensures IsBlank(s[..|s| - |r|])
    ensures |r| > 0 ==> !IsSpace(r[0])
  {
    if |s| > 0 && IsSpace(s[0]) then TrimStart(s[1..]) else s
  }

  function TrimEnd(s: string): (r: string)
    ensures |r| <= |s| && r == s[..|r|]
    ensures IsBlank(s[|r|..])
    ensures |r| > 0 ==> !IsSpace(r[|r| - 1])
  {
    if |s| > 0 && IsSpace(s[|s| - 1]) then TrimEnd(s[..|s| - 1]) else s
  }

  /** `r` is the slice `s[i..i + |r|]` and everything around it is white space. */
  predicate BlankAround(s: string, r: string, i: int) {
    && 0 <= i && i + |r| <= |s|
    && r == s[i..i + |r|]
    && IsBlank(s[..i]) && IsBlank(s[i + |r|..])
  }

  /** `String.prototype.trim`: the slice with no white space at either end. */
  function Trim(s: string): (r: string)
    ensures exists i :: BlankAround(s, r, i)
    ensures |r| > 0 ==> !IsSpace(r[0]) && !IsSpace(r[|r| - 1])
    ensures r == "" <==> IsBlank(s)
  {
    var t := TrimStart(s);
    var r := TrimEnd(t);
    TrimSlice(s, t, r);
    assert BlankAround(s, r, |s| - |t|);
    r
  }

  lemma TrimSlice(s: string, t: string, r: string)
    requires |t| <= |s| && t == s[|s| - |t|..] && IsBlank(s[..|s| - |t|])
    requires |t| > 0 ==> !IsSpace(t[0])
    requires |r| <= |t| && r == t[..|r|] && IsBlank(t[|r|..])
    ensures BlankAround(s, r, |s| - |t|)
    ensures r == "" <==> IsBlank(s)
  {
    var i := |s| - |t|;
    assert s[i + |r|..] == t[|r|..];
    if r == "" {
      assert s == s[..i] + t;
    }
  }

  /** `s.trim() !== ''`: some character of `s` is not white space. */
  function HasText(s: string): (r: bool)
    ensures r <==> !IsBlank(s)
  {
    Trim(s) != ""
  }

  /** Trimming a trimmed string changes nothing. */
  lemma TrimIdempotent(s: string)
    ensures Trim(Trim(s)) == Trim(s)
  {
    var t := Trim(s);
    assert TrimStart(t) == t;
  }

  /** ASCII case mapping; `toLowerCase` on the letters A-Z. */
  function LowerChar(c: char): (r: char)
    ensures 'A' <= c <= 'Z' ==> 'a' <= r <= 'z' && r as int - 'a' as int == c as int - 'A' as int
    ensures !('A' <= c <= 'Z') ==> r == c
    ensures !('A' <= r <= 'Z')
  {
    if 'A' <= c <= 'Z' then (c as int - 'A' as int + 'a' as int) as char else c
  }

  function ToLower(s: string): (r: string)
    ensures |r| == |s|
    ensures forall i :: 0 <= i < |s| ==> r[i] == LowerChar(s[i])
  {
    if |s| == 0 then "" else [LowerChar(s[0])] + ToLower(s[1..])
  }

  /** Lower-casing is idempotent: a lower-cased query lower-cases to itself. */
  lemma ToLowerIdempotent(s: string)
    ensures ToLower(ToLower(s)) == ToLower(s)
  {
  }

  /** `s.includes(q)`: `q` occurs somewhere in `s` as a contiguous run. */
  predicate Contains(s: string, q: string)
    decreases |s|
  {
    q <= s || (|s| > 0 && Contains(s[1..], q))
  }

  /** `q` occurs in `s` starting at position `i`. */
  predicate OccursAt(s: string, q: string, i: int) {
    0 <= i && i + |q| <= |s| && s[i..i + |q|] == q
  }

  lemma ShiftOccurrence(s: string, q: string, i: int)
    requires |s| > 0 && 1 <= i
    ensures OccursAt(s, q, i) <==> OccursAt(s[1..], q, i - 1)
  {
    if 0 <= i - 1 && i - 1 + |q| <= |s[1..]| {
      assert s[1..][i - 1..i - 1 + |q|] == s[i..i + |q|];
    }
  }

  /** Contains agrees with the positional definition "some slice of `s` equals `q`". */
  lemma {:induction false} ContainsIffOccurs(s: string, q: string)
    ensures Contains(s, q) <==> exists i :: OccursAt(s, q, i)
    decreases |s|
  {
    if q <= s {
      assert OccursAt(s, q, 0);
    } else if |s| > 0 {
      ContainsIffOccurs(s[1..], q);
      if exists i :: OccursAt(s, q, i) {
        var i :| OccursAt(s, q, i);
        ShiftOccurrence(s, q, i);
      }
      if Contains(s[1..], q) {
        var j :| OccursAt(s[1..], q, j);
        ShiftOccurrence(s, q, j + 1);
      }
    }
  }

  /** Every string contains the empty string. */
  lemma ContainsEmpty(s: string)
    ensures Contains(s, "")
  {
  }

  /** Containment is transitive: a text containing `t` contains everything `t` contains. */
  lemma ContainsTransitive(s: string, t: string, u: string)
    requires Contains(s, t) && Contains(t, u)
    ensures Contains(s, u)
  {
    ContainsIffOccurs(s, t);
    ContainsIffOccurs(t, u);
    var i :| OccursAt(s, t, i);
    var j :| OccursAt(t, u, j);
    assert forall k :: 0 <= k < |u| ==> s[i + j + k] == t[j + k] == u[k];
    assert OccursAt(s, u, i + j);
    ContainsIffOccurs(s, u);
  }

  /** A text ends with, and so contains, whatever is appended to it. */
  lemma {:induction false} ContainsAppended(a: string, b: string)
    ensures Contains(a + b, b)
    decreases |a|
  {
    if |a| == 0 {
      assert a + b == b;
    } else {
      ContainsAppended(a[1..], b);
      assert (a + b)[1..] == a[1..] + b;
    }
  }

  /** `parts.join([sep])`, the inverse of Split. */
  function Join(parts: seq<string>, sep: char): string
    requires |parts| >= 1
  {
    if |parts| == 1 then parts[0] else parts[0] + [sep] + Join(parts[1..], sep)
  }

  /** `s.split(sep)` for a one-character separator. */
  function Split(s: string, sep: char): (r: seq<string>)
    ensures |r| >= 1
    ensures forall k :: 0 <= k < |r| ==> sep !in r[k]
    ensures Join(r, sep) == s
  {
    if |s| == 0 then [""]
    else if s[0] == sep then [""] + Split(s[1..], sep)
    else
      var rest := Split(s[1..], sep);
      assert s == [s[0]] + s[1..];
      [[s[0]] + rest[0]] + rest[1..]
  }

  /** Joining pieces whose first piece starts with `c` starts with `c`. */
  lemma JoinFirstChar(parts: seq<string>, sep: char)
    requires |parts| >= 1 && |parts[0]| > 0
    ensures var tail := [parts[0][1..]] + parts[1..];
            Join(parts, sep) == [parts[0][0]] + Join(tail, sep)
  {
    var tail := [parts[0][1..]] + parts[1..];
    assert tail[1..] == parts[1..];
    assert parts[0] == [parts[0][0]] + parts[0][1..];
  }

  /** Splitting a joined list of separator-free pieces gives the pieces back. */
  lemma {:induction false} SplitJoin(parts: seq<string>, sep: char)
    requires |parts| >= 1
    requires forall k :: 0 <= k < |parts| ==> sep !in parts[k]
    ensures Split(Join(parts, sep), sep) == parts
    decreases |parts|, |parts[0]|
  {
    var s := Join(parts, sep);
    if |parts[0]| == 0 {
      if |parts| > 1 {
        assert s == [sep] + Join(parts[1..], sep);
        assert s[1..] == Join(parts[1..], sep);
        SplitJoin(parts[1..], sep);
        assert parts == [""] + parts[1..];
      }
    } else {
      var tail := [parts[0][1..]] + parts[1..];
      assert tail[1..] == parts[1..];
      assert sep !in parts[0][1..] by {
        assert forall c :: c in parts[0][1..] ==> c in parts[0];
      }
      assert forall k :: 0 <= k < |tail| ==> sep !in tail[k];
      SplitJoin(tail, sep);
      JoinFirstChar(parts, sep);
      assert s[0] == parts[0][0] && s[1..] == Join(tail, sep);
      assert Split(s, sep) == [[s[0]] + tail[0]] + tail[1..];
      assert [s[0]] + tail[0] == parts[0];
      assert parts == [parts[0]] + parts[1..];
    }
  }

  /** Where the last segment starts: just after the last separator, or 0 when there is none. */
  function LastStart(s: string, sep: char): (k: nat)
    ensures k <= |s|
    ensures k == 0 || s[k - 1] == sep
    ensures forall i :: k <= i < |s| ==> s[i] != sep
  {
    if |s| == 0 || s[|s| - 1] == sep then |s| else LastStart(s[..|s| - 1], sep)
  }

  /** `s.split(sep).pop()`: the text after the last separator (all of `s` when there is none). */
  function LastSegment(s: string, sep: char): (r: string)
    ensures sep !in r
    ensures |r| <= |s| && r == s[|s| - |r|..]
    ensures |r| == |s| || s[|s| - |r| - 1] == sep
  {
    s[LastStart(s, sep)..]
  }

  /**
   The three properties in LastSegment's contract pin it down: a
   separator-free suffix that is all of `s` or follows a separator is the
   last segment.
   */
  lemma LastSegmentUnique(s: string, sep: char, t: string)
    requires sep !in t && |t| <= |s| && t == s[|s| - |t|..]
    requires |t| == |s| || s[|s| - |t| - 1] == sep
    ensures LastSegment(s, sep) == t
  {
    var j := |s| - |t|;
    assert forall i :: j <= i < |s| ==> s[i] == t[i - j];
  }

  /** Joining pieces puts the last one after the last separator. */
  lemma {:induction false} JoinLast(parts: seq<string>, sep: char)
    requires |parts| >= 2
    ensures Join(parts, sep) == Join(parts[..|parts| - 1], sep) + [sep] + parts[|parts| - 1]
    decreases |parts|
  {
    if |parts| > 2 {
      JoinLast(parts[1..], sep);
      assert parts[1..][..|parts| - 2] == parts[..|parts| - 1][1..];
    }
  }

  /** Whatever precedes the last separator, the last segment is what follows it. */
  lemma LastSegmentAfterSeparator(a: string, sep: char, b: string)
    requires sep !in b
    ensures LastSegment(a + [sep] + b, sep) == b
  {
    var s := a + [sep] + b;
    assert s[|s| - |b|..] == b;
    LastSegmentUnique(s, sep, b);
  }

  /** Joining separator-free pieces puts the last piece in the last segment. */
  lemma JoinedLastSegment(parts: seq<string>, sep: char)
    requires |parts| >= 1
    requires forall k :: 0 <= k < |parts| ==> sep !in parts[k]
    ensures LastSegment(Join(parts, sep), sep) == parts[|parts| - 1]
  {
    if |parts| == 1 {
      var s := Join(parts, sep);
      assert s[|s| - |s|..] == s;
      LastSegmentUnique(s, sep, s);
    } else {
      JoinLast(parts, sep);
      LastSegmentAfterSeparator(Join(parts[..|parts| - 1], sep), sep, parts[|parts| - 1]);
    }
  }

  lemma LastSegmentIsLastPiece(s: string, sep: char, parts: seq<string>)
    requires parts == Split(s, sep)
    ensures LastSegment(s, sep) == parts[|parts| - 1]
  {
    JoinedLastSegment(parts, sep);
  }

  function DigitChar(d: int): (r: char)
    requires 0 <= d < 10
    ensures '0' <= r <= '9' && DigitValue(r) == d
  {
    ['0', '1', '2', '3', '4', '5', '6', '7', '8', '9'][d]
  }

  /** The number a decimal digit character stands for. */
  function DigitValue(c: char): int
  {
    c as int - '0' as int
  }

  /** The number a string of decimal digits reads as, most significant digit first. */
  function DigitsValue(s: string): int
  {
    if |s| == 0 then 0 else DigitsValue(s[..|s| - 1]) * 10 + DigitValue(s[|s| - 1])
  }

  /** The decimal rendering of a count, as a template literal shows it: digits
      only, no leading zero, reading back as the count itself. */
  function NatToString(n: nat): (r: string)
    ensures |r| >= 1
    ensures forall i :: 0 <= i < |r| ==> '0' <= r[i] <= '9'
    ensures n < 10 ==> |r| == 1
    ensures n >= 10 ==> |r| >= 2 && r[0] != '0'
    ensures DigitsValue(r) == n
  {
    if n < 10 then [DigitChar(n)]
    else
      var head := NatToString(n / 10);
      var r := head + [DigitChar(n % 10)];
      assert r[..|r| - 1] == head;
      r
  }
  /** The run of decimal digits a string starts with: how a reader picks a
      number out of a message. */
  function LeadingDigits(s: string): (r: string)
    ensures |r| <= |s| && r == s[..|r|]
    ensures forall i :: 0 <= i < |r| ==> '0' <= r[i] <= '9'
    ensures |r| < |s| ==> !('0' <= s[|r|] <= '9')
  {
    if |s| == 0 || !('0' <= s[0] <= '9') then "" else [s[0]] + LeadingDigits(s[1..])
  }

  /** Digits followed by a non-digit (or by nothing) are exactly the leading digits. */
  lemma {:induction false} LeadingDigitsOf(x: string, rest: string)
    requires forall i :: 0 <= i < |x| ==> '0' <= x[i] <= '9'
    requires |rest| > 0 ==> !('0' <= rest[0] <= '9')
    ensures LeadingDigits(x + rest) == x
    decreases |x|
  {
    if |x| > 0 {
      assert (x + rest)[1..] == x[1..] + rest;
      LeadingDigitsOf(x[1..], rest);
    } else {
      assert x + rest == rest;
    }
  }

  /** The digits written right after a prefix are read back there. */
  lemma LeadingDigitsAfter(prefix: string, x: string, rest: string)
    requires forall i :: 0 <= i < |x| ==> '0' <= x[i] <= '9'
    requires |rest| > 0 ==> !('0' <= rest[0] <= '9')
    ensures LeadingDigits((prefix + x + rest)[|prefix|..]) == x
  {
    assert (prefix + x + rest)[|prefix|..] == x + rest;
    LeadingDigitsOf(x, rest);
  }

  /** Two numbers written between fixed texts are read back in place: the
      first right after `prefix`, the second right after `middle`. */
  lemma LeadingDigitsOfTwo(prefix: string, x: string, middle: string, y: string, suffix: string)
    requires forall i :: 0 <= i < |x| ==> '0' <= x[i] <= '9'
    requires forall i :: 0 <= i < |y| ==> '0' <= y[i] <= '9'
    requires |middle| > 0 && !('0' <= middle[0] <= '9')
    requires |suffix| > 0 ==> !('0' <= suffix[0] <= '9')
    ensures var m := prefix + x + middle + y + suffix;
            && LeadingDigits(m[|prefix|..]) == x
            && LeadingDigits(m[|prefix| + |x| + |middle|..]) == y
  {
    var m := prefix + x + middle + y + suffix;
    assert m[|prefix|..] == x + (middle + y + suffix);
    LeadingDigitsOf(x, middle + y + suffix);
    assert m[|prefix| + |x| + |middle|..] == y + suffix;
    LeadingDigitsOf(y, suffix);
  }
}

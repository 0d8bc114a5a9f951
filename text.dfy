/**
 * The JavaScript string operations the application relies on, written out:
 * `trim`, `toLowerCase`, `includes`, `split`, `join`, `Number.prototype.toString`
 * and `parseInt` without a radix.
 */
module Text {
  import opened Options

  /** ECMAScript WhiteSpace and LineTerminator: what `trim` removes and `parseInt` skips. */
  predicate IsSpace(c: char) {
    || c == '\t' || c == '\n' || c == '\U{000B}' || c == '\U{000C}' || c == '\r' || c == ' '
    || c == '\U{00A0}' || c == '\U{1680}' || ('\U{2000}' <= c <= '\U{200A}')
    || c == '\U{2028}' || c == '\U{2029}' || c == '\U{202F}' || c == '\U{205F}'
    || c == '\U{3000}' || c == '\U{FEFF}'
  }

  /** `s.trimStart()`: drops the leading white space and nothing else. */
  function TrimStart(s: string): (r: string)
    ensures |r| <= |s|
    ensures r == [] || !IsSpace(r[0])
  {
    if s != [] && IsSpace(s[0]) then TrimStart(s[1..]) else s
  }

  /** What `trimStart` keeps is a suffix of its input. */
  lemma {:induction false} TrimStartSuffix(s: string)
    ensures TrimStart(s) == s[|s| - |TrimStart(s)|..]
  {
    if s != [] && IsSpace(s[0]) {
      TrimStartSuffix(s[1..]);
    }
  }

  /** What `trimStart` drops is white space. */
  lemma {:induction false} TrimStartDropsSpace(s: string)
    ensures forall i :: 0 <= i < |s| - |TrimStart(s)| ==> IsSpace(s[i])
  {
    if s != [] && IsSpace(s[0]) {
      TrimStartDropsSpace(s[1..]);
      assert forall i :: 1 <= i < |s| ==> s[i] == s[1..][i - 1];
    }
  }

  /** `s.trimEnd()`: drops the trailing white space and nothing else. */
  function TrimEnd(s: string): (r: string)
    ensures |r| <= |s|
    ensures r == [] || !IsSpace(r[|r| - 1])
  {
    if s != [] && IsSpace(s[|s| - 1]) then TrimEnd(s[..|s| - 1]) else s
  }

  /** What `trimEnd` keeps is a prefix of its input. */
  lemma {:induction false} TrimEndPrefix(s: string)
    ensures TrimEnd(s) == s[..|TrimEnd(s)|]
  {
    if s != [] && IsSpace(s[|s| - 1]) {
      TrimEndPrefix(s[..|s| - 1]);
    }
  }

  /** What `trimEnd` drops is white space. */
  lemma {:induction false} TrimEndDropsSpace(s: string)
    ensures forall i :: |TrimEnd(s)| <= i < |s| ==> IsSpace(s[i])
  {
    if s != [] && IsSpace(s[|s| - 1]) {
      TrimEndDropsSpace(s[..|s| - 1]);
    }
  }

  /** `s.trim()`. */
  function Trim(s: string): string {
    TrimEnd(TrimStart(s))
  }

  /** A string is its own trim exactly when it neither starts nor ends with white space. */
  lemma TrimFixedPoint(s: string)
    ensures Trim(s) == s <==> (s == [] || (!IsSpace(s[0]) && !IsSpace(s[|s| - 1])))
  {
    if s != [] && !IsSpace(s[0]) && !IsSpace(s[|s| - 1]) {
      assert TrimStart(s) == s;
    }
  }

  /** Trimming twice is trimming once. */
  lemma TrimIdempotent(s: string)
    ensures Trim(Trim(s)) == Trim(s)
  {
    var t := Trim(s);
    if t != [] {
      var u := TrimStart(s);
      TrimEndPrefix(u);
      assert t == u[..|t|];
      assert t[0] == u[0];
    }
    TrimFixedPoint(t);
  }

  /** White space in front of a string that does not start with white space is what `trimStart` removes. */
  lemma {:induction false} TrimStartPadded(pad: string, x: string)
    requires forall i :: 0 <= i < |pad| ==> IsSpace(pad[i])
    requires x == [] || !IsSpace(x[0])
    ensures TrimStart(pad + x) == x
  {
    if pad == [] {
      assert pad + x == x;
    } else {
      assert (pad + x)[1..] == pad[1..] + x;
      TrimStartPadded(pad[1..], x);
    }
  }

  /** White space after a string is what `trimEnd` removes, along with the string's own trailing space. */
  lemma {:induction false} TrimEndPadded(x: string, pad: string)
    requires forall i :: 0 <= i < |pad| ==> IsSpace(pad[i])
    ensures TrimEnd(x + pad) == TrimEnd(x)
  {
    if pad == [] {
      assert x + pad == x;
    } else {
      var n := |pad| - 1;
      assert (x + pad)[..|x + pad| - 1] == x + pad[..n];
      TrimEndPadded(x, pad[..n]);
    }
  }

  /** `trim` of a string padded with white space on both sides, whose first character is not white space. */
  lemma TrimPadded(before: string, x: string, after: string)
    requires forall i :: 0 <= i < |before| ==> IsSpace(before[i])
    requires forall i :: 0 <= i < |after| ==> IsSpace(after[i])
    requires x != [] && !IsSpace(x[0])
    ensures Trim(before + x + after) == TrimEnd(x)
  {
    assert before + x + after == before + (x + after);
    TrimStartPadded(before, x + after);
    TrimEndPadded(x, after);
  }

  /** `c.toLowerCase()` on Basic Latin and Latin-1 capitals; other characters are kept. */
  function LowerChar(c: char): char {
    if 'A' <= c <= 'Z' || ('\U{00C0}' <= c <= '\U{00DE}' && c != '\U{00D7}') then (c as int + 32) as char else c
  }

  /** `s.toLowerCase()`, character by character. */
  function Lower(s: string): (r: string)
    ensures |r| == |s|
  {
    if s == [] then [] else [LowerChar(s[0])] + Lower(s[1..])
  }

  /** Lower-casing a lower-cased string changes nothing. */
  lemma {:induction false} LowerIdempotent(s: string)
    ensures Lower(Lower(s)) == Lower(s)
  {
    if s != [] {
      LowerIdempotent(s[1..]);
      assert (Lower(s))[1..] == Lower(s[1..]);
    }
  }

  /** `toLowerCase` works character by character. */
  lemma {:induction false} LowerPointwise(s: string)
    ensures forall i :: 0 <= i < |s| ==> Lower(s)[i] == LowerChar(s[i])
  {
    if s != [] {
      LowerPointwise(s[1..]);
      assert forall i :: 1 <= i < |s| ==> Lower(s)[i] == Lower(s[1..])[i - 1];
    }
  }

  /** `s.includes(part)`. */
  function Contains(s: string, part: string): bool
    decreases |s|
  {
    if |part| > |s| then false else s[..|part|] == part || Contains(s[1..], part)
  }

  /** `part` occurs in `s` starting at position `i`. */
  predicate OccursAt(s: string, part: string, i: int) {
    0 <= i <= |s| - |part| && s[i..i + |part|] == part
  }

  /** `includes` holds exactly when `part` occurs at some position of `s`. */
  lemma {:induction false} ContainsIff(s: string, part: string)
    ensures Contains(s, part) <==> exists i :: OccursAt(s, part, i)
    decreases |s|
  {
    if |part| <= |s| && s[..|part|] != part {
      ContainsIff(s[1..], part);
      if Contains(s[1..], part) {
        var i :| OccursAt(s[1..], part, i);
        assert s[i + 1..i + 1 + |part|] == s[1..][i..i + |part|];
        assert OccursAt(s, part, i + 1);
      } else if exists i :: OccursAt(s, part, i) {
        var i :| OccursAt(s, part, i);
        assert i != 0;
        assert s[1..][i - 1..i - 1 + |part|] == s[i..i + |part|];
        assert OccursAt(s[1..], part, i - 1);
        assert false;
      }
    } else if |part| <= |s| {
      assert OccursAt(s, part, 0);
    }
  }

  /** A string that includes `part` holds every character of `part`. */
  lemma ContainsHasChars(s: string, part: string, c: char)
    requires c in part
    ensures Contains(s, part) ==> c in s
  {
    if Contains(s, part) {
      ContainsIff(s, part);
      var i :| OccursAt(s, part, i);
      var k :| 0 <= k < |part| && part[k] == c;
      assert s[i + k] == s[i..i + |part|][k];
    }
  }

  /** Every string includes the empty string. */
  lemma ContainsEmpty(s: string)
    ensures Contains(s, "")
  {
  }

  /** The position of the first `c` in `s`. */
  function IndexOf(s: string, c: char): (k: nat)
    requires c in s
    ensures k < |s| && s[k] == c && c !in s[..k]
  {
    if s[0] == c then 0 else 1 + IndexOf(s[1..], c)
  }

  /** The first occurrence is the one `IndexOf` finds. */
  lemma {:induction false} IndexOfIsFirst(s: string, c: char, k: nat)
    requires k < |s| && s[k] == c && c !in s[..k]
    ensures IndexOf(s, c) == k
  {
    if k > 0 {
      assert s[0] == s[..k][0];
      assert s[1..][..k - 1] == s[1..k];
      assert s[1..k] == s[..k][1..];
      IndexOfIsFirst(s[1..], c, k - 1);
    }
  }

  /** `s.split(sep)` for a one-character separator: the pieces between separators, empty ones included. */
  function Split(s: string, sep: char): (parts: seq<string>)
    ensures |parts| >= 1
    ensures forall i :: 0 <= i < |parts| ==> sep !in parts[i]
    decreases |s|
  {
    if sep !in s then [s]
    else
      var k := IndexOf(s, sep);
      [s[..k]] + Split(s[k + 1..], sep)
  }

  /** `parts.join(sep)`. */
  function Join(parts: seq<string>, sep: string): string {
    if parts == [] then ""
    else if |parts| == 1 then parts[0]
    else parts[0] + sep + Join(parts[1..], sep)
  }

  /** Joining with one more piece at the end adds the separator and the piece. */
  lemma {:induction false} JoinSnoc(parts: seq<string>, last: string, sep: string)
    requires parts != []
    ensures Join(parts + [last], sep) == Join(parts, sep) + sep + last
  {
    if |parts| == 1 {
      assert (parts + [last])[1..] == [last];
    } else {
      assert (parts + [last])[1..] == parts[1..] + [last];
      JoinSnoc(parts[1..], last, sep);
    }
  }

  /** `trimEnd` of a string whose tail is not all white space only trims the tail. */
  lemma {:induction false} TrimEndAppend(x: string, y: string)
    requires TrimEnd(y) != []
    ensures TrimEnd(x + y) == x + TrimEnd(y)
  {
    if y != [] && IsSpace(y[|y| - 1]) {
      assert (x + y)[..|x + y| - 1] == x + y[..|y| - 1];
      TrimEndAppend(x, y[..|y| - 1]);
    } else {
      assert y != [];
    }
  }

  /** Splitting at a first separator gives the text before it, then the pieces of the rest. */
  lemma SplitAt(a: string, b: string, sep: char)
    requires sep !in a
    ensures Split(a + [sep] + b, sep) == [a] + Split(b, sep)
  {
    var s := a + [sep] + b;
    assert s[..|a|] == a;
    IndexOfIsFirst(s, sep, |a|);
    assert s[|a| + 1..] == b;
  }

  /** Joining the pieces of a split with the separator gives back the string. */
  lemma {:induction false} JoinSplit(s: string, sep: char)
    ensures Join(Split(s, sep), [sep]) == s
    decreases |s|
  {
    if sep in s {
      var k := IndexOf(s, sep);
      var rest := Split(s[k + 1..], sep);
      assert Split(s, sep) == [s[..k]] + rest;
      assert ([s[..k]] + rest)[1..] == rest;
      calc {
        Join(Split(s, sep), [sep]);
        s[..k] + [sep] + Join(rest, [sep]);
        == { JoinSplit(s[k + 1..], sep); }
        s[..k] + [sep] + s[k + 1..];
        s;
      }
    }
  }

  /** Splitting a join gives back the pieces, when no piece holds the separator. */
  lemma {:induction false} SplitJoin(parts: seq<string>, sep: char)
    requires |parts| >= 1
    requires forall i :: 0 <= i < |parts| ==> sep !in parts[i]
    ensures Split(Join(parts, [sep]), sep) == parts
  {
    if |parts| > 1 {
      var rest := Join(parts[1..], [sep]);
      var s := parts[0] + [sep] + rest;
      assert s[..|parts[0]|] == parts[0];
      assert s[|parts[0]|] == sep;
      assert IndexOf(s, sep) == |parts[0]|;
      assert s[|parts[0]| + 1..] == rest;
      SplitJoin(parts[1..], sep);
    }
  }

  /** Joining two non-empty lists of pieces is joining each and putting the separator between. */
  lemma {:induction false} JoinAppend(a: seq<string>, b: seq<string>, sep: string)
    requires a != [] && b != []
    ensures Join(a + b, sep) == Join(a, sep) + sep + Join(b, sep)
    decreases |a|
  {
    assert (a + b)[0] == a[0];
    if |a| == 1 {
      assert (a + b)[1..] == b;
    } else {
      assert (a + b)[1..] == a[1..] + b;
      JoinAppend(a[1..], b, sep);
    }
  }

  /** Separator-free pieces joined and followed by the separator and more text split back into the pieces, then the text's pieces. */
  lemma SplitJoinThen(parts: seq<string>, rest: string, sep: char)
    requires |parts| >= 1
    requires forall i :: 0 <= i < |parts| ==> sep !in parts[i]
    ensures Split(Join(parts, [sep]) + [sep] + rest, sep) == parts + Split(rest, sep)
  {
    var pieces := Split(rest, sep);
    JoinSplit(rest, sep);
    JoinAppend(parts, pieces, [sep]);
    assert forall i :: 0 <= i < |parts + pieces| ==> sep !in (parts + pieces)[i] by {
      forall i | 0 <= i < |parts + pieces|
        ensures sep !in (parts + pieces)[i]
      {
        if i >= |parts| {
          assert (parts + pieces)[i] == pieces[i - |parts|];
        }
      }
    }
    SplitJoin(parts + pieces, sep);
  }

  predicate IsDigit(c: char) {
    '0' <= c <= '9'
  }

  /** The value of `c` as a digit of `radix` (10 or 16), or -1 when it is not one. */
  function DigitIn(c: char, radix: nat): (d: int)
    ensures d < radix
  {
    if IsDigit(c) && (c as int) - ('0' as int) < radix then (c as int) - ('0' as int)
    else if radix == 16 && 'a' <= c <= 'f' then (c as int) - ('a' as int) + 10
    else if radix == 16 && 'A' <= c <= 'F' then (c as int) - ('A' as int) + 10
    else -1
  }

  predicate AllDigits(s: string, radix: nat) {
    forall i :: 0 <= i < |s| ==> DigitIn(s[i], radix) >= 0
  }

  /** The longest prefix of `s` made of digits of `radix`. */
  function LeadingDigits(s: string, radix: nat): (r: string)
    ensures |r| <= |s| && r == s[..|r|] && AllDigits(r, radix)
    ensures |r| == |s| || DigitIn(s[|r|], radix) < 0
  {
    if s != [] && DigitIn(s[0], radix) >= 0 then [s[0]] + LeadingDigits(s[1..], radix) else []
  }

  /** The number written by the digits `s` in base `radix`, most significant first. */
  function ValueIn(s: string, radix: nat): nat
    requires AllDigits(s, radix)
  {
    if s == [] then 0 else ValueIn(s[..|s| - 1], radix) * radix + DigitIn(s[|s| - 1], radix)
  }

  function DigitChar(d: nat): (c: char)
    requires d < 10
    ensures IsDigit(c) && DigitIn(c, 10) == d
  {
    ('0' as int + d) as char
  }

  /** `String(n)` for a non-negative integer: its decimal digits, no leading zero. */
  function NatToString(n: nat): (s: string)
    ensures |s| >= 1 && AllDigits(s, 10)
  {
    if n < 10 then [DigitChar(n)] else NatToString(n / 10) + [DigitChar(n % 10)]
  }

  /** `String(n)` for any integer. */
  function IntToString(n: int): string {
    if n < 0 then "-" + NatToString(-n) else NatToString(n)
  }

  /** Reading back the decimal digits of `n` gives `n`. */
  lemma {:induction false} NatToStringValue(n: nat)
    ensures ValueIn(NatToString(n), 10) == n
  {
    if n >= 10 {
      NatToStringValue(n / 10);
      var s := NatToString(n);
      assert s[..|s| - 1] == NatToString(n / 10);
    }
  }

  /** The text after an optional leading sign. */
  function Unsigned(t: string): (u: string)
    ensures |u| <= |t|
  {
    if t != [] && (t[0] == '-' || t[0] == '+') then t[1..] else t
  }

  /** The text starts with `0x` or `0X`, which makes `parseInt` read hexadecimal. */
  predicate HasHexPrefix(u: string) {
    |u| >= 2 && u[0] == '0' && (u[1] == 'x' || u[1] == 'X')
  }

  /** The number the longest run of `radix` digits at the start of `u` writes, or `None` when there is no digit. */
  function LeadingValue(u: string, radix: nat): (r: Option<nat>)
    ensures r.None? <==> (u == [] || DigitIn(u[0], radix) < 0)
  {
    var digits := LeadingDigits(u, radix);
    if digits == [] then None else Some(ValueIn(digits, radix))
  }

  /** `parseInt` after the white space: a sign, an optional `0x`, then digits. */
  function ParseSigned(t: string): Option<int> {
    var u := Unsigned(t);
    var magnitude := if HasHexPrefix(u) then LeadingValue(u[2..], 16) else LeadingValue(u, 10);
    match magnitude
    case None => None
    case Some(v) => Some(if t[0] == '-' then -(v as int) else v)
  }

  /** `parseInt(s)` without a radix: white space, a sign, an optional `0x`, then the longest run of digits; `None` is `NaN`. */
  function ParseInt(s: string): Option<int> {
    ParseSigned(TrimStart(s))
  }

  /** `parseInt` is `NaN` exactly when no digit follows the white space, the sign and the `0x`. */
  lemma ParseIntNaN(s: string)
    ensures var u := Unsigned(TrimStart(s));
            ParseInt(s).None? <==>
              if HasHexPrefix(u) then |u| == 2 || DigitIn(u[2], 16) < 0
              else u == [] || DigitIn(u[0], 10) < 0
  {
  }

  /** The leading digits of an all-digit string are the whole string. */
  lemma {:induction false} LeadingDigitsAll(s: string, radix: nat)
    requires AllDigits(s, radix)
    ensures LeadingDigits(s, radix) == s
  {
    if s != [] {
      LeadingDigitsAll(s[1..], radix);
    }
  }

  lemma TrimStartKeeps(s: string)
    requires s != [] && (s[0] == '-' || IsDigit(s[0]))
    ensures TrimStart(s) == s
  {
  }

  /** The value of an all-digit string is what `LeadingValue` reads from it. */
  lemma LeadingValueAll(d: string)
    requires d != [] && AllDigits(d, 10)
    ensures !HasHexPrefix(d)
    ensures LeadingValue(d, 10) == Some(ValueIn(d, 10))
  {
    LeadingDigitsAll(d, 10);
    if |d| >= 2 {
      assert DigitIn(d[1], 10) >= 0;
    }
  }

  /** `parseInt` reads a run of decimal digits as its value. */
  lemma ParseIntDigits(d: string)
    requires d != [] && AllDigits(d, 10)
    ensures ParseInt(d) == Some(ValueIn(d, 10))
  {
    assert DigitIn(d[0], 10) >= 0;
    TrimStartKeeps(d);
    assert Unsigned(d) == d;
    LeadingValueAll(d);
  }

  /** `parseInt` reads a minus sign and a run of decimal digits as the negated value. */
  lemma ParseIntNegativeDigits(d: string)
    requires d != [] && AllDigits(d, 10)
    ensures ParseInt("-" + d) == Some(-(ValueIn(d, 10) as int))
  {
    var s := "-" + d;
    TrimStartKeeps(s);
    assert Unsigned(s) == d by {
      assert s[1..] == d;
    }
    LeadingValueAll(d);
  }

  /** `String(n)` of a negative number is a minus sign before the digits of its magnitude. */
  lemma IntToStringNegative(n: int)
    requires n < 0
    ensures IntToString(n) == "-" + NatToString(-n)
  {
  }

  /** `parseInt(String(n)) === n`: an id written into a URL is read back unchanged. */
  lemma ParseIntToString(n: int)
    ensures ParseInt(IntToString(n)) == Some(n)
  {
    if n < 0 {
      var d := NatToString(-n);
      calc {
        ParseInt(IntToString(n));
        == { IntToStringNegative(n); }
        ParseInt("-" + d);
        == { ParseIntNegativeDigits(d); }
        Some(-(ValueIn(d, 10) as int));
        == { NatToStringValue(-n); }
        Some(n);
      }
    } else {
      var d := NatToString(n);
      calc {
        ParseInt(IntToString(n));
        ParseInt(d);
        == { ParseIntDigits(d); }
        Some(ValueIn(d, 10) as int);
        == { NatToStringValue(n); }
        Some(n);
      }
    }
  }
}

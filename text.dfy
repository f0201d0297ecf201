/** The JavaScript string built-ins the core relies on: `toLowerCase`,
    `indexOf`/`includes`, `replace` with a string pattern, and the
    conversions between integers and decimal strings. */
module Text {
  import opened Types
  import opened Seqs

  /** `toLowerCase` on one character; only ASCII letters are mapped. */
  function LowerChar(c: char): char
  {
    if 'A' <= c <= 'Z' then (c as int + 32) as char else c
  }

  /** `toLowerCase`: each ASCII capital becomes its small letter, 32 code
      points further on, and every other character is kept. */
  function Lower(s: string): (r: string)
    ensures |r| == |s|
    ensures forall i :: 0 <= i < |s| && 'A' <= s[i] <= 'Z' ==> r[i] as int == s[i] as int + 32
    ensures forall i :: 0 <= i < |s| && !('A' <= s[i] <= 'Z') ==> r[i] == s[i]
    ensures forall i :: 0 <= i < |r| ==> !('A' <= r[i] <= 'Z')
  {
    seq(|s|, i requires 0 <= i < |s| => LowerChar(s[i]))
  }

  /** Lower-casing twice is lower-casing once. */
  lemma LowerIdempotent(s: string)
    ensures Lower(Lower(s)) == Lower(s)
  {
  }

  /** `p` occurs in `s` at position `i`. */
  ghost predicate OccursAt(s: string, p: string, i: int)
  {
    0 <= i && i + |p| <= |s| && s[i..i + |p|] == p
  }

  /** `s.indexOf(p)`: the first position at which `p` occurs, or None for -1. */
  function IndexOf(s: string, p: string): (r: Option<nat>)
    ensures r.Some? ==> OccursAt(s, p, r.value)
    ensures r.Some? ==> forall i :: 0 <= i < r.value ==> !OccursAt(s, p, i)
    ensures r.None? ==> forall i :: !OccursAt(s, p, i)
    decreases |s|
  {
    if |p| <= |s| && s[..|p|] == p then Some(0)
    else if |s| <= |p| then None
    else
      var rest := IndexOf(s[1..], p);
      assert !OccursAt(s, p, 0) by {
        assert s[0..|p|] == s[..|p|];
      }
      assert forall i :: 0 <= i ==> (OccursAt(s[1..], p, i) <==> OccursAt(s, p, i + 1)) by {
        forall i | 0 <= i
          ensures OccursAt(s[1..], p, i) <==> OccursAt(s, p, i + 1)
        {
          if i + |p| <= |s[1..]| {
            assert s[1..][i..i + |p|] == s[i + 1..i + 1 + |p|];
          }
        }
      }
      assert forall i :: OccursAt(s, p, i) ==> i == 0 || OccursAt(s[1..], p, i - 1);
      match rest
      case None => None
      case Some(i) => Some(i + 1)
  }

  /** `s.includes(p)`. */
  function Contains(s: string, p: string): (r: bool)
    ensures r <==> exists i :: OccursAt(s, p, i)
  {
    IndexOf(s, p).Some?
  }

  /** `s.replace(p, rep)` with a string pattern: only the first occurrence
      is replaced. */
  function ReplaceFirst(s: string, p: string, rep: string): (r: string)
    ensures !Contains(s, p) ==> r == s
    ensures Contains(s, p) ==> |r| == |s| - |p| + |rep|
    ensures Contains(s, p) ==> var i := IndexOf(s, p).value;
      && r[..i] == s[..i]
      && r[i..i + |rep|] == rep
      && r[i + |rep|..] == s[i + |p|..]
  {
    match IndexOf(s, p)
    case None => s
    case Some(i) => s[..i] + rep + s[i + |p|..]
  }

  /** Replacing a pattern that the string starts with removes that prefix,
      whatever follows it. */
  lemma ReplaceLeadingPattern(p: string, rest: string)
    ensures ReplaceFirst(p + rest, p, "") == rest
  {
    assert (p + rest)[..|p|] == p;
    assert (p + rest)[|p|..] == rest;
  }

  function DigitChar(d: nat): (c: char)
    requires d < 10
    ensures '0' <= c <= '9'
  {
    ('0' as int + d) as char
  }

  function DigitValue(c: char): nat
    requires '0' <= c <= '9'
  {
    c as int - '0' as int
  }

  predicate AllDigits(s: string)
  {
    forall i :: 0 <= i < |s| ==> '0' <= s[i] <= '9'
  }

  /** The decimal rendering of a natural number (template-literal
      interpolation of a non-negative integer). */
  function NatToString(n: nat): (r: string)
    ensures |r| >= 1 && AllDigits(r)
    ensures r[0] == '0' ==> n == 0
    ensures r[0] == '0' ==> r == "0"
  {
    if n < 10 then [DigitChar(n)] else NatToString(n / 10) + [DigitChar(n % 10)]
  }

  /** The value of a string of decimal digits (`Number(s)` on such a string). */
  function DecimalValue(s: string): nat
    requires AllDigits(s)
  {
    if s == [] then 0 else 10 * DecimalValue(s[..|s| - 1]) + DigitValue(s[|s| - 1])
  }

  /** Reading back the decimal rendering of `n` gives `n`. */
  lemma {:induction false} DecimalRoundTrip(n: nat)
    ensures DecimalValue(NatToString(n)) == n
  {
    var s := NatToString(n);
    if n >= 10 {
      DecimalRoundTrip(n / 10);
      assert s[..|s| - 1] == NatToString(n / 10);
      assert DigitValue(s[|s| - 1]) == n % 10;
    } else {
      assert DigitValue(s[0]) == n;
    }
  }

  /** The decimal rendering of any integer, with a leading '-' when negative. */
  function IntToString(n: int): string
  {
    if n < 0 then "-" + NatToString(-n) else NatToString(n)
  }

  /** A rendered integer is a minus sign exactly for a negative number,
      followed by a canonical decimal rendering of its magnitude. */
  lemma IntToStringShape(n: int)
    ensures var r := IntToString(n);
      && |r| >= 1
      && (r[0] == '-' <==> n < 0)
      && (n >= 0 ==> AllDigits(r) && (r[0] == '0' ==> r == "0"))
      && (n < 0 ==> |r| >= 2 && AllDigits(r[1..]) && r[1] != '0')
  {
    if n < 0 {
      assert IntToString(n)[1..] == NatToString(-n);
    }
  }

  /** The white space and line terminators `Number()` ignores around its
      argument. */
  predicate IsSpace(c: char)
  {
    if c < '\U{00A0}' then c == ' ' || '\t' <= c <= '\r'
    else
      || c == '\U{00A0}' || c == '\U{1680}' || '\U{2000}' <= c <= '\U{200A}' || c == '\U{2028}'
      || c == '\U{2029}' || c == '\U{202F}' || c == '\U{205F}' || c == '\U{3000}' || c == '\U{FEFF}'
  }

  function TrimStart(s: string): (r: string)
    ensures r == [] || !IsSpace(r[0])
    ensures |r| <= |s|
  {
    if s != [] && IsSpace(s[0]) then TrimStart(s[1..]) else s
  }

  function TrimEnd(s: string): (r: string)
    ensures r == [] || !IsSpace(r[|r| - 1])
    ensures |r| <= |s|
  {
    if s != [] && IsSpace(s[|s| - 1]) then TrimEnd(s[..|s| - 1]) else s
  }

  /** Trimming the front keeps a suffix of the string. */
  lemma {:induction false} TrimStartIsSuffix(s: string)
    ensures TrimStart(s) == s[|s| - |TrimStart(s)|..]
    decreases |s|
  {
    if s != [] && IsSpace(s[0]) {
      TrimStartIsSuffix(s[1..]);
    }
  }

  /** Trimming the back keeps a prefix of the string. */
  lemma {:induction false} TrimEndIsPrefix(s: string)
    ensures TrimEnd(s) == s[..|TrimEnd(s)|]
    decreases |s|
  {
    if s != [] && IsSpace(s[|s| - 1]) {
      TrimEndIsPrefix(s[..|s| - 1]);
    }
  }

  /** The string without its leading and trailing white space. */
  function Trim(s: string): (r: string)
    ensures r == [] || (!IsSpace(r[0]) && !IsSpace(r[|r| - 1]))
  {
    TrimEndIsPrefix(TrimStart(s));
    TrimEnd(TrimStart(s))
  }

  /** The number an already trimmed string denotes: a blank string is 0,
      one leading sign is allowed, then decimal digits. */
  function ReadTrimmed(t: string): (r: Option<int>)
    ensures t == "" ==> r == Some(0)
    ensures t != "" && AllDigits(t) ==> r == Some(DecimalValue(t))
    ensures r.Some? && r.value < 0 ==> t != "" && t[0] == '-'
  {
    if t == "" then Some(0)
    else if t[0] == '-' || t[0] == '+' then
      if |t| > 1 && AllDigits(t[1..]) then
        Some(if t[0] == '-' then 0 - DecimalValue(t[1..]) else DecimalValue(t[1..]))
      else None
    else if AllDigits(t) then Some(DecimalValue(t))
    else None
  }

  /** `Number(s)` where the result is an integer written in decimal: the
      white space around it is ignored, a blank string reads as 0, and one
      leading sign is allowed. None stands for NaN and for the numeric
      forms not modelled (fractions, exponents, radix prefixes, Infinity). */
  function ParseInt(s: string): Option<int>
  {
    ReadTrimmed(Trim(s))
  }

  /** A blank string reads as 0, a string of digits as its decimal value,
      and only a string with a minus sign in it reads as a negative
      number. */
  lemma ParseIntBasics(s: string)
    ensures Trim(s) == "" ==> ParseInt(s) == Some(0)
    ensures s != "" && AllDigits(s) ==> ParseInt(s) == Some(DecimalValue(s))
    ensures ParseInt(s).Some? && ParseInt(s).value < 0 ==> '-' in s
  {
    DigitsUntrimmed(s);
    TrimWithin(s);
  }

  /** A non-empty string of digits is its own trim. */
  lemma DigitsUntrimmed(s: string)
    ensures s != "" && AllDigits(s) ==> Trim(s) == s
  {
    if s != "" && AllDigits(s) {
      assert '0' <= s[0] <= '9' && '0' <= s[|s| - 1] <= '9';
      TrimUntrimmed(s);
    }
  }

  /** Trimming keeps a contiguous part of the string, so its first
      character occurs in the string. */
  lemma TrimWithin(s: string)
    ensures Trim(s) != "" ==> Trim(s)[0] in s
  {
    var front := TrimStart(s);
    TrimStartIsSuffix(s);
    TrimEndIsPrefix(front);
    if Trim(s) != "" {
      assert Trim(s)[0] == front[0];
      assert front[0] == s[|s| - |front|];
    }
  }

  /** A string with no white space at either end is its own trim. */
  lemma TrimUntrimmed(s: string)
    requires s != [] && !IsSpace(s[0]) && !IsSpace(s[|s| - 1])
    ensures Trim(s) == s
  {
  }

  /** Appending one white-space character changes no trim. */
  lemma {:induction false} TrimStartSnoc(s: string, c: char)
    requires IsSpace(c)
    ensures TrimStart(s + [c]) == if TrimStart(s) == [] then [] else TrimStart(s) + [c]
    decreases |s|
  {
    if s == [] {
      assert s + [c] == [c];
      assert [c][1..] == [];
    } else if IsSpace(s[0]) {
      AppendHeadTail(s, [c]);
      TrimStartSnoc(s[1..], c);
    } else {
      assert (s + [c])[0] == s[0];
    }
  }

  /** `Number()` reads the same number with white space put in front. */
  lemma LeadingSpaceIgnored(s: string, c: char)
    requires IsSpace(c)
    ensures ParseInt([c] + s) == ParseInt(s)
  {
    assert ([c] + s)[1..] == s;
    assert Trim([c] + s) == Trim(s);
  }

  /** `Number()` reads the same number with white space put behind. */
  lemma TrailingSpaceIgnored(s: string, c: char)
    requires IsSpace(c)
    ensures ParseInt(s + [c]) == ParseInt(s)
  {
    TrimStartSnoc(s, c);
    var t := TrimStart(s);
    if t != [] {
      assert (t + [c])[..|t + [c]| - 1] == t;
      assert TrimEnd(t + [c]) == TrimEnd(t);
    }
    assert Trim(s + [c]) == Trim(s);
  }

  /** A sign followed by decimal digits is read as their value, negated
      for minus. */
  lemma ReadSigned(sign: string, digits: string)
    requires sign == "-" || sign == "+"
    requires digits != "" && AllDigits(digits)
    ensures ParseInt(sign + digits) == Some(if sign == "-" then 0 - DecimalValue(digits) else DecimalValue(digits))
  {
    var t := sign + digits;
    assert t[0] == sign[0] && t[1..] == digits;
    assert !IsSpace(t[|t| - 1]) by {
      assert t[|t| - 1] == digits[|digits| - 1];
    }
    TrimUntrimmed(t);
  }

  /** One sign in front of the decimal digits of `n`: minus negates,
      plus keeps the value. */
  lemma SignedDigits(sign: string, n: nat)
    requires sign == "-" || sign == "+"
    ensures sign == "-" ==> ParseInt(sign + NatToString(n)) == Some(0 - n)
    ensures sign == "+" ==> ParseInt(sign + NatToString(n)) == Some(n)
  {
    ReadSigned(sign, NatToString(n));
    DecimalRoundTrip(n);
  }

  /** A leading plus sign reads as the number without it. */
  lemma PlusSign(n: nat)
    ensures ParseInt("+" + NatToString(n)) == Some(n)
  {
    SignedDigits("+", n);
  }

  /** A negative number is rendered as a minus sign and its digits, which
      read back as the number. */
  lemma NegativeRoundTrip(n: int)
    requires n < 0
    ensures ParseInt(IntToString(n)) == Some(n)
  {
    var digits := NatToString(-n);
    assert IntToString(n) == "-" + digits;
    assert ParseInt("-" + digits) == Some(n) by {
      ReadSigned("-", digits);
      DecimalRoundTrip(-n);
    }
  }

  /** Reading back the rendering of any integer gives that integer, so
      distinct integers render as distinct strings. */
  lemma IntRoundTrip(n: int)
    ensures ParseInt(IntToString(n)) == Some(n)
  {
    if n < 0 {
      NegativeRoundTrip(n);
    } else {
      DecimalRoundTrip(n);
      ParseIntBasics(NatToString(n));
    }
  }
}

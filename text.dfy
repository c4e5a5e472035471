/**
 * The .NET string operations the endpoint relies on: `Split`, `string.Join`,
 * `Trim`, `IsNullOrWhiteSpace`, an ordinal case-insensitive `StartsWith`,
 * decimal formatting of integers and `int.TryParse`.
 */
module Text {
  import opened Wrappers

  /** The white-space characters: tab, line feed, vertical tab, form feed, carriage return and space. */
  predicate IsWhiteSpace(c: char) {
    c == ' ' || c == '\t' || c == '\n' || c == '\U{B}' || c == '\U{C}' || c == '\r'
  }

  /** Every character is white space (true of the empty string). */
  predicate IsBlank(s: string) {
    forall i | 0 <= i < |s| :: IsWhiteSpace(s[i])
  }

  /** `string.IsNullOrWhiteSpace`. */
  predicate IsNullOrWhiteSpace(s: Nullable<string>) {
    s.Null? || IsBlank(s.value)
  }

  /** No character of `s` belongs to `chars`. */
  predicate Avoids(s: string, chars: set<char>) {
    forall i | 0 <= i < |s| :: s[i] !in chars
  }

  /** `part` occurs somewhere in `s`. */
  predicate Contains(s: string, part: string) {
    exists i | 0 <= i <= |s| - |part| :: OccursAt(s, part, i)
  }

  /** `part` occurs in `s` starting at index `i`. */
  predicate OccursAt(s: string, part: string, i: nat)
    requires i + |part| <= |s|
  {
    s[i..i + |part|] == part
  }

  lemma ContainsInfix(a: string, part: string, b: string)
    ensures Contains(a + part + b, part)
  {
    assert OccursAt(a + part + b, part, |a|);
  }

  /** What occurs in a string occurs in any extension of it. */
  lemma ContainsExtend(s: string, part: string, c: string)
    requires Contains(s, part)
    ensures Contains(s + c, part)
  {
    var i :| 0 <= i <= |s| - |part| && OccursAt(s, part, i);
    assert (s + c)[i..i + |part|] == s[i..i + |part|];
    assert OccursAt(s + c, part, i);
  }

  // ---------------------------------------------------------------------------
  // Split and Join

  /**
   * `s.Split(separators)`: the pieces between separator characters, empty
   * pieces kept, so a string holding k separators gives k + 1 pieces.
   */
  function Split(s: string, separators: set<char>): (pieces: seq<string>)
    ensures |pieces| >= 1
    ensures forall i | 0 <= i < |pieces| :: Avoids(pieces[i], separators)
    decreases |s|
  {
    if s == [] then [""]
    else
      var rest := Split(s[1..], separators);
      if s[0] in separators then [""] + rest
      else [[s[0]] + rest[0]] + rest[1..]
  }

  /** The total length of the pieces. */
  function TotalLength(pieces: seq<string>): nat {
    if pieces == [] then 0 else |pieces[0]| + TotalLength(pieces[1..])
  }

  /**
   * `string.Join(separator, pieces)`: the pieces in order with one separator
   * between each two of them, so k pieces contribute k - 1 separators.
   */
  function Join(pieces: seq<string>, separator: string): string
  {
    if |pieces| == 0 then ""
    else if |pieces| == 1 then pieces[0]
    else pieces[0] + separator + Join(pieces[1..], separator)
  }

  /** The joined string is as long as the pieces plus one separator between each two of them. */
  lemma {:induction false} JoinLength(pieces: seq<string>, separator: string)
    requires pieces != []
    ensures |Join(pieces, separator)| == TotalLength(pieces) + (|pieces| - 1) * |separator|
    decreases |pieces|
  {
    if |pieces| > 1 {
      JoinLength(pieces[1..], separator);
      assert (|pieces| - 1) * |separator| == (|pieces| - 2) * |separator| + |separator|;
    }
  }

  /** `StringSplitOptions.RemoveEmptyEntries`: the non-empty pieces, in order. */
  function RemoveEmpty(pieces: seq<string>): (kept: seq<string>)
    ensures forall i | 0 <= i < |kept| :: kept[i] != [] && kept[i] in pieces
    ensures (forall i | 0 <= i < |pieces| :: pieces[i] == []) <==> kept == []
  {
    if pieces == [] then []
    else if pieces[0] == [] then RemoveEmpty(pieces[1..])
    else [pieces[0]] + RemoveEmpty(pieces[1..])
  }

  /** The first piece kept is the first non-empty piece: only empty pieces come before it. */
  lemma {:induction false} RemoveEmptyFirst(pieces: seq<string>)
    ensures RemoveEmpty(pieces) != [] ==>
      exists k | 0 <= k < |pieces| :: pieces[k] == RemoveEmpty(pieces)[0] && forall j | 0 <= j < k :: pieces[j] == []
  {
    if pieces != [] && pieces[0] == [] && RemoveEmpty(pieces[1..]) != [] {
      var rest := pieces[1..];
      RemoveEmptyFirst(rest);
      var k :| 0 <= k < |rest| && rest[k] == RemoveEmpty(rest)[0] && forall j | 0 <= j < k :: rest[j] == [];
      assert pieces[k + 1] == rest[k];
      assert forall j | 0 <= j < k + 1 :: pieces[j] == [] by {
        forall j | 0 <= j < k + 1 ensures pieces[j] == [] {
          if j > 0 { assert pieces[j] == rest[j - 1]; }
        }
      }
    } else if pieces != [] && pieces[0] != [] {
      assert pieces[0] == RemoveEmpty(pieces)[0];
    }
  }

  /** Every piece is empty exactly when every character is a separator. */
  lemma {:induction false} SplitAllEmpty(s: string, separators: set<char>)
    ensures (forall i | 0 <= i < |Split(s, separators)| :: Split(s, separators)[i] == []) <==>
      forall i | 0 <= i < |s| :: s[i] in separators
    decreases |s|
  {
    if s != [] {
      SplitAllEmpty(s[1..], separators);
      var rest := Split(s[1..], separators);
      if s[0] in separators {
        assert Split(s, separators) == [""] + rest;
        assert forall i | 0 <= i < |rest| :: Split(s, separators)[i + 1] == rest[i];
        assert forall i | 1 <= i < |s| :: s[i] == s[1..][i - 1];
      } else {
        assert Split(s, separators)[0] != [];
      }
    }
  }

  lemma {:induction false} RemoveEmptyAppend(a: seq<string>, b: seq<string>)
    ensures RemoveEmpty(a + b) == RemoveEmpty(a) + RemoveEmpty(b)
  {
    if a == [] {
      assert a + b == b;
    } else {
      assert (a + b)[0] == a[0] && (a + b)[1..] == a[1..] + b;
      RemoveEmptyAppend(a[1..], b);
      if a[0] != [] {
        assert RemoveEmpty(a + b) == [a[0]] + RemoveEmpty(a[1..] + b);
      }
    }
  }

  /** A string without separators is a single piece. */
  lemma {:induction false} SplitWithoutSeparators(s: string, separators: set<char>)
    requires Avoids(s, separators)
    ensures Split(s, separators) == [s]
    decreases |s|
  {
    if s != [] {
      SplitWithoutSeparators(s[1..], separators);
      assert [s[0]] + s[1..] == s;
    }
  }

  /** A separator after a separator-free prefix closes the first piece. */
  lemma {:induction false} SplitAtSeparator(a: string, c: char, b: string, separators: set<char>)
    requires Avoids(a, separators) && c in separators
    ensures Split(a + [c] + b, separators) == [a] + Split(b, separators)
    decreases |a|
  {
    var s := a + [c] + b;
    if a == [] {
      assert s[1..] == b;
    } else {
      assert s[1..] == a[1..] + [c] + b;
      SplitAtSeparator(a[1..], c, b, separators);
      assert [a[0]] + a[1..] == a;
    }
  }

  /** Splitting on `c` undoes joining with `c` when no piece holds `c`. */
  lemma {:induction false} SplitJoin(pieces: seq<string>, c: char)
    requires |pieces| >= 1
    requires forall i | 0 <= i < |pieces| :: Avoids(pieces[i], {c})
    ensures Split(Join(pieces, [c]), {c}) == pieces
    decreases |pieces|
  {
    if |pieces| == 1 {
      SplitWithoutSeparators(pieces[0], {c});
    } else {
      SplitJoin(pieces[1..], c);
      SplitAtSeparator(pieces[0], c, Join(pieces[1..], [c]), {c});
      assert [pieces[0]] + pieces[1..] == pieces;
    }
  }

  /** Joining the pieces with the separator they were split on gives the string back. */
  lemma {:induction false} JoinSplit(s: string, c: char)
    ensures Join(Split(s, {c}), [c]) == s
    decreases |s|
  {
    if s != [] {
      var rest := Split(s[1..], {c});
      JoinSplit(s[1..], c);
      if s[0] == c {
        assert Split(s, {c}) == [""] + rest;
        assert ([""] + rest)[1..] == rest;
        assert [c] + s[1..] == s;
      } else {
        var pieces := [[s[0]] + rest[0]] + rest[1..];
        assert Split(s, {c}) == pieces;
        assert pieces[1..] == rest[1..];
        if |rest| > 1 {
          assert Join(rest, [c]) == rest[0] + [c] + Join(rest[1..], [c]);
          assert Join(pieces, [c]) == [s[0]] + Join(rest, [c]);
        }
        assert [s[0]] + s[1..] == s;
      }
    }
  }

  /** Joining pieces that avoid some characters with a separator outside them avoids them too. */
  lemma {:induction false} JoinAvoids(pieces: seq<string>, c: char, chars: set<char>)
    requires c !in chars
    requires forall i | 0 <= i < |pieces| :: Avoids(pieces[i], chars)
    ensures Avoids(Join(pieces, [c]), chars)
    decreases |pieces|
  {
    if |pieces| > 1 {
      JoinAvoids(pieces[1..], c, chars);
    }
  }

  // ---------------------------------------------------------------------------
  // Trim

  /** Where the leading white space of `s[i..]` ends. */
  function SkipBlank(s: string, i: nat): (n: nat)
    requires i <= |s|
    ensures i <= n <= |s|
    ensures forall k | i <= k < n :: IsWhiteSpace(s[k])
    ensures n == |s| || !IsWhiteSpace(s[n])
    decreases |s| - i
  {
    if i < |s| && IsWhiteSpace(s[i]) then SkipBlank(s, i + 1) else i
  }

  /** Where the trailing white space of `s[..j]` begins. */
  function BackBlank(s: string, j: nat): (m: nat)
    requires j <= |s|
    ensures m <= j
    ensures forall k | m <= k < j :: IsWhiteSpace(s[k])
    ensures m == 0 || !IsWhiteSpace(s[m - 1])
  {
    if j > 0 && IsWhiteSpace(s[j - 1]) then BackBlank(s, j - 1) else j
  }

  /**
   * `Trim()`: a piece of `s` that neither starts nor ends with white space,
   * empty exactly when `s` is blank.
   */
  function Trim(s: string): (r: string)
    ensures r == [] <==> IsBlank(s)
    ensures r == [] || (!IsWhiteSpace(r[0]) && !IsWhiteSpace(r[|r| - 1]))
    ensures forall i | 0 <= i < |r| :: r[i] in s
  {
    var i := SkipBlank(s, 0);
    var j := BackBlank(s, |s|);
    TrimCuts(s);
    if j <= i then [] else TrimKeepsChars(s, i, j); s[i..j]
  }

  /** The two cuts cross exactly for blank text; otherwise both land on non-white characters. */
  lemma TrimCuts(s: string)
    ensures BackBlank(s, |s|) <= SkipBlank(s, 0) <==> IsBlank(s)
    ensures SkipBlank(s, 0) < BackBlank(s, |s|) ==>
      !IsWhiteSpace(s[SkipBlank(s, 0)]) && !IsWhiteSpace(s[BackBlank(s, |s|) - 1])
  {
    var i := SkipBlank(s, 0);
    var j := BackBlank(s, |s|);
    if !IsBlank(s) {
      var p :| 0 <= p < |s| && !IsWhiteSpace(s[p]);
      assert i <= p < j;
    }
  }

  /** Every character of a slice comes from the string. */
  lemma TrimKeepsChars(s: string, i: nat, j: nat)
    requires i <= j <= |s|
    ensures forall k | 0 <= k < j - i :: s[i..j][k] in s
  {
    forall k | 0 <= k < j - i ensures s[i..j][k] in s {
      assert s[i..j][k] == s[i + k];
    }
  }

  /** What `Trim` keeps is the slice of `s` between a blank start and a blank end. */
  lemma TrimKeepsMiddle(s: string)
    ensures exists i, j | 0 <= i <= j <= |s| :: Trim(s) == s[i..j] && IsBlank(s[..i]) && IsBlank(s[j..])
  {
    var i := SkipBlank(s, 0);
    var j := BackBlank(s, |s|);
    TrimCuts(s);
    if j <= i {
      assert Trim(s) == s[|s|..|s|];
      assert IsBlank(s[..|s|]) && IsBlank(s[|s|..]);
    } else {
      assert Trim(s) == s[i..j];
      assert IsBlank(s[..i]) && IsBlank(s[j..]);
    }
  }

  /** White space from `i` up to a non-white character (or the end) at `n` is what `SkipBlank` skips. */
  lemma {:induction false} SkipBlankTo(s: string, i: nat, n: nat)
    requires i <= n <= |s|
    requires forall k | i <= k < n :: IsWhiteSpace(s[k])
    requires n == |s| || !IsWhiteSpace(s[n])
    ensures SkipBlank(s, i) == n
    decreases n - i
  {
    if i < n {
      SkipBlankTo(s, i + 1, n);
    }
  }

  /** White space from a non-white character (or the start) at `m` up to `j` is what `BackBlank` skips. */
  lemma {:induction false} BackBlankTo(s: string, j: nat, m: nat)
    requires m <= j <= |s|
    requires forall k | m <= k < j :: IsWhiteSpace(s[k])
    requires m == 0 || !IsWhiteSpace(s[m - 1])
    ensures BackBlank(s, j) == m
    decreases j - m
  {
    if m < j {
      BackBlankTo(s, j - 1, m);
    }
  }

  /** Trimming drops exactly the blank margins around a piece that starts and ends with a non-white character. */
  lemma TrimPadded(lead: string, m: string, trail: string)
    requires IsBlank(lead) && IsBlank(trail)
    requires m != [] && !IsWhiteSpace(m[0]) && !IsWhiteSpace(m[|m| - 1])
    ensures Trim(lead + m + trail) == m
  {
    var s := lead + m + trail;
    var i := |lead|;
    var j := |lead| + |m|;
    assert s[i] == m[0] && s[j - 1] == m[|m| - 1];
    forall k | 0 <= k < i ensures IsWhiteSpace(s[k]) {
      assert s[k] == lead[k];
    }
    forall k | j <= k < |s| ensures IsWhiteSpace(s[k]) {
      assert s[k] == trail[k - j];
    }
    SkipBlankTo(s, 0, i);
    BackBlankTo(s, |s|, j);
    assert s[i..j] == m;
  }

  /** A string that neither starts nor ends with white space is its own trim. */
  lemma TrimUnchanged(s: string)
    requires s == [] || (!IsWhiteSpace(s[0]) && !IsWhiteSpace(s[|s| - 1]))
    ensures Trim(s) == s
  {
  }

  // ---------------------------------------------------------------------------
  // Ordinal case-insensitive comparison

  /** Upper-case mapping of the ASCII letters; every other character maps to itself. */
  function AsciiUpper(c: char): char {
    if 'a' <= c <= 'z' then (c as int - 32) as char else c
  }

  /** `s.StartsWith(prefix, StringComparison.OrdinalIgnoreCase)`. */
  predicate StartsWithIgnoreCase(s: string, prefix: string) {
    |prefix| <= |s| && forall i | 0 <= i < |prefix| :: AsciiUpper(s[i]) == AsciiUpper(prefix[i])
  }

  /** `ToUpperInvariant()` restricted to ASCII letters. */
  function UpperAscii(s: string): (u: string)
    ensures |u| == |s|
  {
    if s == [] then [] else [AsciiUpper(s[0])] + UpperAscii(s[1..])
  }

  /**
   * Comparing character by character ignoring case is comparing the
   * upper-cased prefix of `s` with the upper-cased `prefix`.
   */
  lemma {:induction false} StartsWithIgnoreCaseUpper(s: string, prefix: string)
    requires |prefix| <= |s|
    ensures StartsWithIgnoreCase(s, prefix) <==> UpperAscii(s[..|prefix|]) == UpperAscii(prefix)
  {
    UpperAsciiAt(s[..|prefix|]);
    UpperAsciiAt(prefix);
    if UpperAscii(s[..|prefix|]) == UpperAscii(prefix) {
      forall i | 0 <= i < |prefix| ensures AsciiUpper(s[i]) == AsciiUpper(prefix[i]) {
        assert s[..|prefix|][i] == s[i];
      }
    }
    if StartsWithIgnoreCase(s, prefix) {
      assert forall i | 0 <= i < |prefix| :: UpperAscii(s[..|prefix|])[i] == UpperAscii(prefix)[i];
    }
  }

  lemma {:induction false} UpperAsciiAt(s: string)
    ensures forall i | 0 <= i < |s| :: UpperAscii(s)[i] == AsciiUpper(s[i])
  {
    if s != [] {
      UpperAsciiAt(s[1..]);
    }
  }

  /**
   * The comparison is blind to letter case and looks only at the prefix: the
   * prefix itself, or its upper-case spelling, followed by anything passes.
   */
  lemma StartsWithIgnoreCaseAnyCase(prefix: string, rest: string)
    ensures StartsWithIgnoreCase(prefix + rest, prefix)
    ensures StartsWithIgnoreCase(UpperAscii(prefix) + rest, prefix)
  {
    UpperAsciiAt(prefix);
    assert forall i | 0 <= i < |prefix| :: (UpperAscii(prefix) + rest)[i] == AsciiUpper(prefix[i]);
  }

  // ---------------------------------------------------------------------------
  // Decimal numbers

  const Int32Min: int := -0x8000_0000
  const Int32Max: int := 0x7FFF_FFFF

  predicate IsDigit(c: char) { '0' <= c <= '9' }

  predicate AllDigits(s: string) { forall i | 0 <= i < |s| :: IsDigit(s[i]) }

  function DigitChar(d: nat): (c: char)
    requires d < 10
    ensures IsDigit(c)
  {
    ('0' as int + d) as char
  }

  /** The value of a string of decimal digits, most significant first. */
  function DigitsValue(s: string): nat
    requires AllDigits(s)
  {
    if s == [] then 0
    else DigitsValue(s[..|s| - 1]) * 10 + (s[|s| - 1] as int - '0' as int)
  }

  /** `n.ToString()` for a non-negative `n`: its decimal digits without leading zeros. */
  function NatToString(n: nat): (s: string)
    ensures s != [] && AllDigits(s)
  {
    if n < 10 then [DigitChar(n)] else NatToString(n / 10) + [DigitChar(n % 10)]
  }

  /** The digits `NatToString` writes read back as the same number. */
  lemma {:induction false} NatToStringRoundTrip(n: nat)
    ensures DigitsValue(NatToString(n)) == n
  {
    if n >= 10 {
      var s := NatToString(n);
      assert s[..|s| - 1] == NatToString(n / 10);
      NatToStringRoundTrip(n / 10);
    }
  }

  function Pow10(k: nat): nat {
    if k == 0 then 1 else 10 * Pow10(k - 1)
  }

  /** A number below 10^k is written with at most k digits. */
  lemma {:induction false} NatToStringLength(n: nat, k: nat)
    requires 1 <= k && n < Pow10(k)
    ensures |NatToString(n)| <= k
  {
    if n >= 10 {
      NatToStringLength(n / 10, k - 1);
    }
  }

  /** `n.ToString("D" + width)`: the digits of `n`, left-padded with zeros to `width`. */
  function ZeroPad(n: nat, width: nat): (s: string)
    ensures AllDigits(s)
    ensures |s| == if |NatToString(n)| < width then width else |NatToString(n)|
  {
    var digits := NatToString(n);
    if |digits| < width then seq(width - |digits|, _ => '0') + digits else digits
  }

  /**
   * `int.TryParse(s, out v)` with the default integer style: optional
   * leading and trailing white space, an optional sign, then one or more
   * decimal digits whose value fits in 32 bits. `Null` means "did not parse".
   */
  function TryParseInt32(s: Nullable<string>): (r: Nullable<int>)
    ensures r.NonNull? ==> Int32Min <= r.value <= Int32Max
  {
    if s.Null? then Null else ParseSignedDigits(Trim(s.value))
  }

  /** The number a trimmed string writes: an optional sign, then one or more digits, within 32 bits. */
  function ParseSignedDigits(t: string): (r: Nullable<int>)
    ensures r.NonNull? ==> Int32Min <= r.value <= Int32Max
  {
    if t == [] then Null
    else
      var digits := if t[0] == '-' || t[0] == '+' then t[1..] else t;
      if digits == [] || !AllDigits(digits) then Null
      else
        var magnitude: int := DigitsValue(digits);
        var v := if t[0] == '-' then -magnitude else magnitude;
        if Int32Min <= v <= Int32Max then NonNull(v) else Null
  }

  /** Every 32-bit non-negative number written in decimal parses back to itself. */
  lemma TryParseNatToString(n: nat)
    requires n <= Int32Max
    ensures TryParseInt32(NonNull(NatToString(n))) == NonNull(n)
  {
    NatToStringRoundTrip(n);
    TryParseDigits(NatToString(n));
  }

  /** A digit string with a 32-bit value parses to that value. */
  lemma TryParseDigits(s: string)
    requires s != [] && AllDigits(s) && DigitsValue(s) <= Int32Max
    ensures TryParseInt32(NonNull(s)) == NonNull(DigitsValue(s))
  {
    assert IsDigit(s[0]) && IsDigit(s[|s| - 1]);
    TrimUnchanged(s);
    assert s[0] != '-' && s[0] != '+';
  }

  /**
   * `int.TryParse` on optional white space, an optional sign, decimal
   * digits and optional white space: the signed value when it fits in 32
   * bits, no result when it does not.
   */
  lemma TryParseSigned(lead: string, sign: string, digits: string, trail: string)
    requires IsBlank(lead) && IsBlank(trail)
    requires |sign| <= 1 && forall k | 0 <= k < |sign| :: sign[k] == '-' || sign[k] == '+'
    requires digits != [] && AllDigits(digits)
    ensures var magnitude: int := DigitsValue(digits);
      var v := if sign != [] && sign[0] == '-' then -magnitude else magnitude;
      TryParseInt32(NonNull(lead + sign + digits + trail)) == if Int32Min <= v <= Int32Max then NonNull(v) else Null
  {
    var m := sign + digits;
    assert IsDigit(digits[0]) && IsDigit(digits[|digits| - 1]);
    assert m[|m| - 1] == digits[|digits| - 1];
    assert lead + sign + digits + trail == lead + m + trail;
    TrimPadded(lead, m, trail);
    SignedDigitsValue(sign, digits);
  }

  /** A sign, if any, followed by digits reads as the signed value, within 32 bits. */
  lemma SignedDigitsValue(sign: string, digits: string)
    requires |sign| <= 1 && forall k | 0 <= k < |sign| :: sign[k] == '-' || sign[k] == '+'
    requires digits != [] && AllDigits(digits)
    ensures var magnitude: int := DigitsValue(digits);
      var v := if sign != [] && sign[0] == '-' then -magnitude else magnitude;
      ParseSignedDigits(sign + digits) == if Int32Min <= v <= Int32Max then NonNull(v) else Null
  {
    var m := sign + digits;
    assert IsDigit(digits[0]);
    if sign == [] {
      assert m == digits;
      assert m[0] != '-' && m[0] != '+';
    } else {
      assert m[1..] == digits;
      assert m[0] == sign[0];
    }
  }

  /** Every character of `t` is a sign. */
  predicate AllSigns(t: string) {
    forall m | 0 <= m < |t| :: t[m] == '-' || t[m] == '+'
  }

  /**
   * Only the shape `TryParseSigned` describes parses: white space, at most
   * one sign, one or more digits, white space. Anything else, such as
   * "503 Service Unavailable", "5.0" or "0x1F", does not.
   */
  lemma TryParseOnlySigned(s: string)
    requires TryParseInt32(NonNull(s)).NonNull?
    ensures exists i, k, j | 0 <= i <= k <= j <= |s| :: SignedNumberText(s, i, k, j)
  {
    TrimKeepsMiddle(s);
    var i, j :| 0 <= i <= j <= |s| && Trim(s) == s[i..j] && IsBlank(s[..i]) && IsBlank(s[j..]);
    var n := SignedDigitsShape(Trim(s));
    SignedNumberFromSlice(s, i, n, j);
  }

  /** A sign-then-digits slice between blank margins is signed-number text. */
  lemma SignedNumberFromSlice(s: string, i: nat, n: nat, j: nat)
    requires i <= j <= |s| && n <= 1 && n < j - i
    requires IsBlank(s[..i]) && IsBlank(s[j..])
    requires AllSigns(s[i..j][..n]) && AllDigits(s[i..j][n..])
    ensures SignedNumberText(s, i, i + n, j)
  {
    SliceSplit(s, i, i + n, j);
  }

  /**
   * `s` is white space up to `i`, at most one sign up to `k`, one or more
   * digits up to `j`, then white space.
   */
  predicate SignedNumberText(s: string, i: nat, k: nat, j: nat)
    requires i <= k <= j <= |s|
  {
    && IsBlank(s[..i]) && k - i <= 1 && AllSigns(s[i..k])
    && s[k..j] != [] && AllDigits(s[k..j]) && IsBlank(s[j..])
  }

  /** A string `ParseSignedDigits` accepts is `n` signs, `n` at most one, then digits. */
  lemma SignedDigitsShape(t: string) returns (n: nat)
    requires ParseSignedDigits(t).NonNull?
    ensures n <= 1 && n < |t| && AllSigns(t[..n]) && AllDigits(t[n..])
  {
    n := if t[0] == '-' || t[0] == '+' then 1 else 0;
  }

  /** Cutting the slice `s[i..j]` at `k - i` cuts `s` at `k`. */
  lemma SliceSplit(s: string, i: nat, k: nat, j: nat)
    requires i <= k <= j <= |s|
    ensures s[i..j][..k - i] == s[i..k] && s[i..j][k - i..] == s[k..j]
  {
  }

  /** A string without any digit never parses. */
  lemma TryParseNeedsDigit(s: string)
    requires forall i | 0 <= i < |s| :: !IsDigit(s[i])
    ensures TryParseInt32(NonNull(s)) == Null
  {
  }
}

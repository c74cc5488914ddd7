/** Byte-level string helpers used by the scoring rules: ASCII character
    classes, whitespace trimming, the shape of a decimal amount and its value
    in integer cents. Characters stand for bytes; only ASCII is modelled. */
module Text {
  import opened Results

  /** The ASCII whitespace bytes that Go's strings.TrimSpace removes. */
  predicate IsSpace(c: char) {
    c == ' ' || c == '\t' || c == '\n' || c == '\U{B}' || c == '\U{C}' || c == '\r'
  }

  /** Regular-expression class `\d` in Go's RE2 syntax: ASCII digits only. */
  predicate IsDigit(c: char) {
    '0' <= c <= '9'
  }

  /** Regular-expression class `[a-zA-Z0-9]`. */
  predicate IsAlnum(c: char) {
    'a' <= c <= 'z' || 'A' <= c <= 'Z' || IsDigit(c)
  }

  function DigitValue(c: char): (d: nat)
    requires IsDigit(c)
    ensures d < 10
  {
    (c as int) - ('0' as int)
  }

  predicate AllDigits(s: string) {
    forall k :: 0 <= k < |s| ==> IsDigit(s[k])
  }

  // ---------------------------------------------------------------------
  // Counting alphanumerics (one regex match per alphanumeric byte)

  function AlnumCount(s: string): (n: nat)
    ensures n <= |s|
  {
    if s == [] then 0 else (if IsAlnum(s[0]) then 1 else 0) + AlnumCount(s[1..])
  }

  /** The count reaches the length exactly when every byte is alphanumeric,
      and is zero exactly when none is. */
  lemma {:induction false} AlnumCountExtremes(s: string)
    ensures AlnumCount(s) == |s| <==> forall k :: 0 <= k < |s| ==> IsAlnum(s[k])
    ensures AlnumCount(s) == 0 <==> forall k :: 0 <= k < |s| ==> !IsAlnum(s[k])
  {
    if s != [] {
      AlnumCountExtremes(s[1..]);
      assert forall k :: 0 < k < |s| ==> s[k] == s[1..][k - 1];
    }
  }

  /** Counting matches distributes over concatenation. */
  lemma {:induction false} AlnumCountConcat(s: string, t: string)
    ensures AlnumCount(s + t) == AlnumCount(s) + AlnumCount(t)
  {
    if s == [] {
      assert s + t == t;
    } else {
      assert (s + t)[1..] == s[1..] + t;
      AlnumCountConcat(s[1..], t);
    }
  }

  /** Appending one character adds one match exactly when it is alphanumeric. */
  lemma {:induction false} AlnumCountSnoc(s: string, c: char)
    ensures AlnumCount(s + [c]) == AlnumCount(s) + (if IsAlnum(c) then 1 else 0)
  {
    AlnumCountConcat(s, [c]);
    assert [c][1..] == [];
  }

  // ---------------------------------------------------------------------
  // strings.TrimSpace over ASCII whitespace

  /** Number of whitespace bytes at the front of s. */
  function LeadingSpaces(s: string): (n: nat)
    ensures n <= |s|
  {
    if s != [] && IsSpace(s[0]) then 1 + LeadingSpaces(s[1..]) else 0
  }

  /** Number of whitespace bytes at the back of s. */
  function TrailingSpaces(s: string): (n: nat)
    ensures n <= |s|
  {
    if s != [] && IsSpace(s[|s| - 1]) then 1 + TrailingSpaces(s[..|s| - 1]) else 0
  }

  /** The leading run is all whitespace and stops at a non-whitespace byte. */
  lemma {:induction false} LeadingSpacesSpec(s: string)
    ensures forall k :: 0 <= k < LeadingSpaces(s) ==> IsSpace(s[k])
    ensures LeadingSpaces(s) < |s| ==> !IsSpace(s[LeadingSpaces(s)])
  {
    if s != [] && IsSpace(s[0]) {
      LeadingSpacesSpec(s[1..]);
      assert forall k :: 0 < k < |s| ==> s[k] == s[1..][k - 1];
    }
  }

  /** The trailing run is all whitespace and stops at a non-whitespace byte. */
  lemma {:induction false} TrailingSpacesSpec(s: string)
    ensures forall k :: |s| - TrailingSpaces(s) <= k < |s| ==> IsSpace(s[k])
    ensures TrailingSpaces(s) < |s| ==> !IsSpace(s[|s| - 1 - TrailingSpaces(s)])
  {
    if s != [] && IsSpace(s[|s| - 1]) {
      TrailingSpacesSpec(s[..|s| - 1]);
    }
  }

  /** s without its leading and trailing whitespace. */
  function TrimSpace(s: string): (r: string)
    ensures LeadingSpaces(s) + |r| <= |s|
    ensures r == s[LeadingSpaces(s)..LeadingSpaces(s) + |r|]
  {
    var t := s[LeadingSpaces(s)..];
    t[..|t| - TrailingSpaces(t)]
  }

  /** TrimSpace keeps the longest infix that neither starts nor ends with
      whitespace: everything cut away on either side is whitespace. */
  lemma TrimSpaceSpec(s: string)
    ensures var r := TrimSpace(s);
      && (r != [] ==> !IsSpace(r[0]) && !IsSpace(r[|r| - 1]))
      && (forall k :: 0 <= k < LeadingSpaces(s) ==> IsSpace(s[k]))
      && (forall k :: LeadingSpaces(s) + |r| <= k < |s| ==> IsSpace(s[k]))
  {
    var lead := LeadingSpaces(s);
    var t := s[lead..];
    var trail := TrailingSpaces(t);
    LeadingSpacesSpec(s);
    TrailingSpacesSpec(t);
    assert forall k :: lead <= k < |s| ==> s[k] == t[k - lead];
  }

  /** A string that neither starts nor ends with whitespace trims to itself. */
  lemma TrimSpaceNoop(s: string)
    requires s != [] ==> !IsSpace(s[0]) && !IsSpace(s[|s| - 1])
    ensures TrimSpace(s) == s
  {
  }

  /** Trimming leaves nothing exactly when every byte is whitespace. */
  lemma TrimSpaceEmpty(s: string)
    ensures TrimSpace(s) == [] <==> forall k :: 0 <= k < |s| ==> IsSpace(s[k])
  {
    TrimSpaceSpec(s);
    LeadingSpacesSpec(s);
  }

  /** Trimming twice is the same as trimming once. */
  lemma TrimSpaceIdempotent(s: string)
    ensures TrimSpace(TrimSpace(s)) == TrimSpace(s)
  {
    var r := TrimSpace(s);
    TrimSpaceSpec(s);
    if r != [] {
      assert LeadingSpaces(r) == 0;
      assert TrailingSpaces(r) == 0;
    }
  }

  // ---------------------------------------------------------------------
  // The amount shape `^\d+\.(\d{2})$` and its value

  /** Declarative reading of `^\d+\.(\d{2})$`: one or more digits, a dot,
      exactly two digits, and nothing else. */
  predicate IsAmountShape(s: string) {
    |s| >= 4 && AllDigits(s[..|s| - 3]) && s[|s| - 3] == '.'
    && IsDigit(s[|s| - 2]) && IsDigit(s[|s| - 1])
  }

  /** The regular-expression engine's left-to-right scan for the same
      pattern: a first digit, more digits, then exactly ".dd". */
  predicate ScanAmount(s: string) {
    |s| > 0 && IsDigit(s[0]) && ScanAfterDigit(s[1..])
  }

  predicate ScanAfterDigit(t: string) {
    if |t| > 0 && IsDigit(t[0]) then ScanAfterDigit(t[1..])
    else |t| == 3 && t[0] == '.' && IsDigit(t[1]) && IsDigit(t[2])
  }

  lemma {:induction false} ScanAfterDigitIff(t: string)
    ensures ScanAfterDigit(t) <==>
      (|t| >= 3 && AllDigits(t[..|t| - 3]) && t[|t| - 3] == '.'
       && IsDigit(t[|t| - 2]) && IsDigit(t[|t| - 1]))
  {
    if |t| > 0 && IsDigit(t[0]) {
      ScanAfterDigitIff(t[1..]);
      if |t| >= 4 {
        assert t[..|t| - 3] == [t[0]] + t[1..][..|t| - 4];
      }
    }
  }

  /** The scanning matcher accepts exactly the strings of the declared shape. */
  lemma {:induction false} ScanAmountIff(s: string)
    ensures ScanAmount(s) <==> IsAmountShape(s)
  {
    if |s| > 0 {
      ScanAfterDigitIff(s[1..]);
      if |s| >= 4 {
        assert s[..|s| - 3] == [s[0]] + s[1..][..|s| - 4];
      }
    }
  }

  /** Value of a digit string, most significant digit first. */
  function DigitsValue(s: string): (v: nat)
    requires AllDigits(s)
  {
    if s == [] then 0 else 10 * DigitsValue(s[..|s| - 1]) + DigitValue(s[|s| - 1])
  }

  /** A digit string of length k is worth less than 10^k. */
  lemma {:induction false} DigitsValueBound(s: string)
    requires AllDigits(s)
    ensures DigitsValue(s) < Pow10(|s|)
  {
    if s != [] {
      DigitsValueBound(s[..|s| - 1]);
    }
  }

  // ---------------------------------------------------------------------
  // Plain decimal numbers, as prices are read

  /** The number whole + frac / 10^scale, its digits split at the dot. */
  datatype Decimal = Decimal(whole: nat, frac: nat, scale: nat)

  function Pow10(k: nat): (p: nat)
    ensures p >= 1
  {
    if k == 0 then 1 else 10 * Pow10(k - 1)
  }

  /** Position of the first '.', or |s| when there is none. */
  function DotIndex(s: string): (i: nat)
    ensures i <= |s|
  {
    if s == [] || s[0] == '.' then 0 else 1 + DotIndex(s[1..])
  }

  lemma {:induction false} DotIndexSpec(s: string)
    ensures DotIndex(s) < |s| ==> s[DotIndex(s)] == '.'
    ensures forall j :: 0 <= j < DotIndex(s) ==> s[j] != '.'
  {
    if s != [] && s[0] != '.' {
      DotIndexSpec(s[1..]);
      forall j | 1 <= j < DotIndex(s)
        ensures s[j] != '.'
      {
        assert s[j] == s[1..][j - 1];
      }
    }
  }

  /** An unsigned number without exponent: digits, optionally a dot and more
      digits, with at least one digit in all ("7", "7.", ".5", "21.01"). */
  predicate IsPlainDecimal(s: string) {
    (|s| > 0 && AllDigits(s))
    || (exists i :: 0 <= i < |s| && s[i] == '.' && AllDigits(s[..i]) && AllDigits(s[i + 1..]) && |s| >= 2)
  }

  /** The value of a plain decimal, split at its first dot; None for any
      other string. */
  function ParseDecimal(s: string): (d: Option<Decimal>)
  {
    var i := DotIndex(s);
    var whole := s[..i];
    var frac := if i < |s| then s[i + 1..] else [];
    if AllDigits(whole) && AllDigits(frac) && |whole| + |frac| > 0
    then Some(Decimal(DigitsValue(whole), DigitsValue(frac), |frac|))
    else None
  }

  /** ParseDecimal accepts exactly the plain decimals. */
  lemma {:induction false} ParseDecimalIff(s: string)
    ensures ParseDecimal(s).Some? <==> IsPlainDecimal(s)
  {
    DotIndexSpec(s);
    var i := DotIndex(s);
    if |s| > 0 && AllDigits(s) {
      assert i == |s|;
      assert s[..i] == s;
    } else if k :| 0 <= k < |s| && s[k] == '.' && AllDigits(s[..k]) && AllDigits(s[k + 1..]) && |s| >= 2 {
      assert i == k;
    } else if i < |s| {
      assert !(AllDigits(s[..i]) && AllDigits(s[i + 1..]) && |s| >= 2);
    } else {
      assert s[..i] == s;
    }
  }

  /** The fraction digits are worth less than one whole unit. */
  lemma ParseDecimalFraction(s: string)
    requires ParseDecimal(s).Some?
    ensures ParseDecimal(s).value.frac < Pow10(ParseDecimal(s).value.scale)
  {
    var i := DotIndex(s);
    DigitsValueBound(if i < |s| then s[i + 1..] else []);
  }

  /** A number written as an integer is read with no fraction. */
  lemma ParseDecimalInteger(s: string)
    requires |s| > 0 && AllDigits(s)
    ensures ParseDecimal(s) == Some(Decimal(DigitsValue(s), 0, 0))
  {
    DotIndexSpec(s);
    assert DotIndex(s) == |s|;
    assert s[..|s|] == s;
  }

  /** An amount "D.dd" is read as dollars and two-digit cents. */
  lemma {:induction false} ParseDecimalAmount(s: string)
    requires IsAmountShape(s)
    ensures ParseDecimal(s) ==
      Some(Decimal(DigitsValue(s[..|s| - 3]), 10 * DigitValue(s[|s| - 2]) + DigitValue(s[|s| - 1]), 2))
  {
    DotIndexSpec(s);
    assert DotIndex(s) == |s| - 3;
    var f := s[|s| - 2..];
    assert AllDigits(f);
    assert f[..1] == [s[|s| - 2]];
    assert DigitsValue(f[..1]) == DigitValue(s[|s| - 2]) by {
      assert f[..1][..0] == [];
    }
    assert DigitsValue(f) == 10 * DigitValue(s[|s| - 2]) + DigitValue(s[|s| - 1]);
  }

  // ---------------------------------------------------------------------
  // The left-to-right reader, as ParseFloat scans its input

  /** Value of a digit string read left to right onto an accumulator. */
  function Fold(acc: nat, s: string): (v: nat)
    requires AllDigits(s)
    decreases |s|
  {
    if s == [] then acc else Fold(10 * acc + DigitValue(s[0]), s[1..])
  }

  lemma {:induction false} FoldSnoc(acc: nat, s: string, c: char)
    requires AllDigits(s) && IsDigit(c)
    ensures AllDigits(s + [c])
    ensures Fold(acc, s + [c]) == 10 * Fold(acc, s) + DigitValue(c)
    decreases |s|
  {
    if s != [] {
      assert (s + [c])[1..] == s[1..] + [c];
      FoldSnoc(10 * acc + DigitValue(s[0]), s[1..], c);
    }
  }

  /** Reading from the left gives the positional value. */
  lemma {:induction false} FoldValue(s: string)
    requires AllDigits(s)
    ensures Fold(0, s) == DigitsValue(s)
  {
    if s != [] {
      var init := s[..|s| - 1];
      FoldValue(init);
      FoldSnoc(0, init, s[|s| - 1]);
      assert init + [s[|s| - 1]] == s;
    }
  }

  /** One character at a time: digits go to the whole part until a dot and
      to the fraction after it; a second dot or any other byte is an error, and
      so is an input without a single digit. */
  function ScanFloat(s: string, whole: nat, frac: nat, scale: nat, sawDot: bool, sawDigits: bool)
    : (d: Option<Decimal>)
  {
    if s == [] then (if sawDigits then Some(Decimal(whole, frac, scale)) else None)
    else if IsDigit(s[0]) then
      if sawDot then ScanFloat(s[1..], whole, 10 * frac + DigitValue(s[0]), scale + 1, true, true)
      else ScanFloat(s[1..], 10 * whole + DigitValue(s[0]), frac, scale, false, true)
    else if s[0] == '.' && !sawDot then ScanFloat(s[1..], whole, frac, scale, true, sawDigits)
    else None
  }

  function ReadFloat(s: string): (d: Option<Decimal>) {
    ScanFloat(s, 0, 0, 0, false, false)
  }

  /** After the dot the reader accepts digits only. */
  lemma {:induction false} ScanFraction(t: string, w: nat, f: nat, k: nat, any: bool)
    ensures ScanFloat(t, w, f, k, true, any) ==
      if AllDigits(t) && (any || t != []) then Some(Decimal(w, Fold(f, t), k + |t|)) else None
  {
    if t != [] && IsDigit(t[0]) {
      ScanFraction(t[1..], w, 10 * f + DigitValue(t[0]), k + 1, true);
      assert AllDigits(t) <==> AllDigits(t[1..]) by {
        forall j | 1 <= j < |t| ensures t[j] == t[1..][j - 1] { }
      }
    }
  }

  /** Before the dot the reader folds digits into the whole part, then
      continues with the fraction. */
  lemma {:induction false} ScanWhole(t: string, w: nat, any: bool)
    ensures var i := DotIndex(t);
      ScanFloat(t, w, 0, 0, false, any) ==
        if !AllDigits(t[..i]) then None
        else if i == |t| then
          (if any || i > 0 then Some(Decimal(Fold(w, t[..i]), 0, 0)) else None)
        else if AllDigits(t[i + 1..]) && (any || i > 0 || i + 1 < |t|) then
          Some(Decimal(Fold(w, t[..i]), Fold(0, t[i + 1..]), |t| - i - 1))
        else None
  {
    var i := DotIndex(t);
    if t == [] {
    } else if IsDigit(t[0]) {
      var u := t[1..];
      ScanWhole(u, 10 * w + DigitValue(t[0]), true);
      var j := DotIndex(u);
      assert i == j + 1;
      assert t[..i][1..] == u[..j];
      if i < |t| {
        assert t[i + 1..] == u[j + 1..];
      }
      assert AllDigits(t[..i]) <==> AllDigits(u[..j]) by {
        forall m | 1 <= m < i ensures t[..i][m] == u[..j][m - 1] { }
      }
    } else if t[0] == '.' {
      ScanFraction(t[1..], w, 0, 0, any);
      assert t[..i] == [];
    } else {
      assert t[..i][0] == t[0];
    }
  }

  /** The reader and the declarative split at the first dot agree. */
  lemma ReadFloatIsParseDecimal(s: string)
    ensures ReadFloat(s) == ParseDecimal(s)
  {
    var i := DotIndex(s);
    ScanWhole(s, 0, false);
    if AllDigits(s[..i]) {
      FoldValue(s[..i]);
      if i < |s| && AllDigits(s[i + 1..]) {
        FoldValue(s[i + 1..]);
      }
    }
  }

  // ---------------------------------------------------------------------
  // A reference formatter, used to show that ParseDecimal loses nothing

  function DigitChar(d: nat): (c: char)
    requires d < 10
    ensures IsDigit(c) && DigitValue(c) == d
  {
    ('0' as int + d) as char
  }

  /** Shortest decimal digit string of n ("0" for zero). */
  function NatDigits(n: nat): (s: string)
    ensures |s| > 0 && AllDigits(s)
    decreases n
  {
    if n < 10 then [DigitChar(n)] else NatDigits(n / 10) + [DigitChar(n % 10)]
  }

  lemma {:induction false} NatDigitsValue(n: nat)
    ensures DigitsValue(NatDigits(n)) == n
    decreases n
  {
    var s := NatDigits(n);
    if n >= 10 {
      NatDigitsValue(n / 10);
      assert s[..|s| - 1] == NatDigits(n / 10);
    }
  }

  /** A cents amount written as "D.dd". */
  function FormatCents(c: nat): (f: string) {
    NatDigits(c / 100) + ['.', DigitChar(c % 100 / 10), DigitChar(c % 10)]
  }

  /** Reading a formatted amount gives back the amount, in cents. */
  lemma ParseFormatCents(c: nat)
    ensures ParseDecimal(FormatCents(c)) == Some(Decimal(c / 100, c % 100, 2))
  {
    var s := FormatCents(c);
    var d := NatDigits(c / 100);
    assert s[..|s| - 3] == d;
    NatDigitsValue(c / 100);
    assert IsAmountShape(s);
    ParseDecimalAmount(s);
  }
}

/**
 * The java.lang text operations the importer relies on: String.trim, Integer.valueOf,
 * Double.valueOf (plain decimal notation only) and String.split on a one-character
 * separator. Java's int is modelled by the newtype int32.
 */
module JavaText {
  import opened Wrappers

  /** Java's 32-bit int. */
  newtype int32 = x: int | -0x8000_0000 <= x < 0x8000_0000

  // ---------------------------------------------------------------------------
  // String.trim
  // ---------------------------------------------------------------------------

  /** String.trim removes every character whose code is at most U+0020 from both ends. */
  predicate IsTrimmable(c: char) {
    c <= ' '
  }

  /** Drops the trimmable prefix (the facts about the result are in TrimStartShape). */
  function TrimStart(s: string): string {
    if s != [] && IsTrimmable(s[0]) then TrimStart(s[1..]) else s
  }

  /** Drops the trimmable suffix (the facts about the result are in TrimEndShape). */
  function TrimEnd(s: string): string {
    if s != [] && IsTrimmable(s[|s| - 1]) then TrimEnd(s[..|s| - 1]) else s
  }

  /** String.trim. */
  function Trim(s: string): string {
    TrimEnd(TrimStart(s))
  }

  /** TrimStart keeps a suffix of `s`, drops only trimmable characters and stops at the first other one. */
  lemma {:induction false} TrimStartShape(s: string)
    ensures var r := TrimStart(s);
      && |r| <= |s| && r == s[|s| - |r|..]
      && (forall k :: 0 <= k < |s| - |r| ==> IsTrimmable(s[k]))
      && (r != [] ==> !IsTrimmable(r[0]))
  {
    if s != [] && IsTrimmable(s[0]) {
      TrimStartShape(s[1..]);
      var r := TrimStart(s);
      forall k | 0 < k < |s| - |r| ensures IsTrimmable(s[k]) {
        assert s[k] == s[1..][k - 1];
      }
    }
  }

  /** TrimEnd keeps a prefix of `s`, drops only trimmable characters and stops at the last other one. */
  lemma {:induction false} TrimEndShape(s: string)
    ensures var r := TrimEnd(s);
      && |r| <= |s| && r == s[..|r|]
      && (forall k :: |r| <= k < |s| ==> IsTrimmable(s[k]))
      && (r != [] ==> !IsTrimmable(r[|r| - 1]))
  {
    if s != [] && IsTrimmable(s[|s| - 1]) {
      TrimEndShape(s[..|s| - 1]);
      var r := TrimEnd(s);
      forall k | |r| <= k < |s| - 1 ensures IsTrimmable(s[k]) {
        assert s[k] == s[..|s| - 1][k];
      }
    }
  }

  /** Trim keeps a contiguous part of `s` and drops only trimmable characters. */
  lemma TrimShape(s: string)
    ensures |TrimStart(s)| <= |s|
    ensures var r, i := Trim(s), |s| - |TrimStart(s)|;
      i + |r| <= |s| && r == s[i..i + |r|]
        && (forall k :: 0 <= k < i ==> IsTrimmable(s[k]))
        && (forall k :: i + |r| <= k < |s| ==> IsTrimmable(s[k]))
  {
    var t := TrimStart(s);
    var r := TrimEnd(t);
    var i := |s| - |t|;
    TrimStartShape(s);
    TrimEndShape(t);
    assert t == s[i..];
    assert r == t[..|r|];
    forall k | i + |r| <= k < |s| ensures IsTrimmable(s[k]) {
      assert s[k] == t[k - i];
    }
  }

  /** Neither end of a trimmed string is trimmable. */
  lemma TrimEnds(s: string)
    ensures Trim(s) != [] ==> !IsTrimmable(Trim(s)[0]) && !IsTrimmable(Trim(s)[|Trim(s)| - 1])
  {
    var t := TrimStart(s);
    var r := TrimEnd(t);
    TrimStartShape(s);
    TrimEndShape(t);
    if r != [] {
      assert r == t[..|r|];
      assert r[0] == t[0];
    }
  }

  /** A string that neither starts nor ends with a trimmable character is left unchanged. */
  lemma TrimUnchanged(s: string)
    requires s != [] ==> !IsTrimmable(s[0]) && !IsTrimmable(s[|s| - 1])
    ensures Trim(s) == s
  {
  }

  /** Trimming twice is trimming once. */
  lemma TrimIdempotent(s: string)
    ensures Trim(Trim(s)) == Trim(s)
  {
    TrimEnds(s);
    TrimUnchanged(Trim(s));
  }

  // ---------------------------------------------------------------------------
  // Decimal digits
  // ---------------------------------------------------------------------------

  predicate IsDigit(c: char) {
    '0' <= c <= '9'
  }

  predicate AllDigits(s: string) {
    forall k :: 0 <= k < |s| ==> IsDigit(s[k])
  }

  function DigitValue(c: char): nat
    requires IsDigit(c)
  {
    c as int - '0' as int
  }

  function DigitChar(d: nat): (c: char)
    requires d < 10
    ensures IsDigit(c) && DigitValue(c) == d
  {
    ('0' as int + d) as char
  }

  /** The value of a string of decimal digits, most significant first. */
  function DigitsValue(ds: string): nat
    requires AllDigits(ds)
  {
    if ds == [] then 0 else DigitsValue(ds[..|ds| - 1]) * 10 + DigitValue(ds[|ds| - 1])
  }

  function Pow10(n: nat): (p: nat)
    ensures p >= 1
  {
    if n == 0 then 1 else 10 * Pow10(n - 1)
  }

  /** The shortest decimal rendering of a natural number (Integer.toString for n >= 0). */
  function ShowNat(n: nat): (s: string)
    ensures |s| >= 1
  {
    if n < 10 then [DigitChar(n)] else ShowNat(n / 10) + [DigitChar(n % 10)]
  }

  /** Integer.toString. */
  function ShowInt(n: int32): string {
    if n < 0 then "-" + ShowNat(-(n as int)) else ShowNat(n as int)
  }

  /** ShowNat produces digits whose value is the number rendered. */
  lemma {:induction false} ShowNatValue(n: nat)
    ensures AllDigits(ShowNat(n)) && DigitsValue(ShowNat(n)) == n
  {
    if n >= 10 {
      ShowNatValue(n / 10);
      var s := ShowNat(n);
      assert s[..|s| - 1] == ShowNat(n / 10);
    }
  }

  // ---------------------------------------------------------------------------
  // Integer.valueOf(String)
  // ---------------------------------------------------------------------------

  /**
   * Integer.valueOf(String): an optional '+' or '-' followed by at least one decimal
   * digit, whose value fits in 32 bits. No trimming: any other character, a blank
   * included, is a NumberFormatException (None).
   */
  function ParseInt(s: string): Option<int32> {
    var negative := |s| > 0 && s[0] == '-';
    var signed := |s| > 0 && (s[0] == '-' || s[0] == '+');
    var digits := if signed then s[1..] else s;
    if digits == [] || !AllDigits(digits) then None
    else
      var v := if negative then -(DigitsValue(digits) as int) else DigitsValue(digits) as int;
      if -0x8000_0000 <= v < 0x8000_0000 then Some(v as int32) else None
  }

  /** Rendering an int and parsing it back gives the int: Integer.valueOf(Integer.toString(n)) == n. */
  lemma ParseShowInt(n: int32)
    ensures ParseInt(ShowInt(n)) == Some(n)
  {
    if n < 0 {
      ShowNatValue(-(n as int));
      assert ShowInt(n)[1..] == ShowNat(-(n as int));
    } else {
      ShowNatValue(n as int);
    }
  }

  /** What Integer.valueOf accepts: only a sign and digits, at least one digit. */
  lemma ParseIntAccepts(s: string)
    requires ParseInt(s).Some?
    ensures |s| >= 1
    ensures forall k :: 0 < k < |s| ==> IsDigit(s[k])
    ensures IsDigit(s[0]) || (|s| >= 2 && (s[0] == '-' || s[0] == '+'))
  {
    var signed := s[0] == '-' || s[0] == '+';
    var digits := if signed then s[1..] else s;
    forall k | 0 < k < |s| ensures IsDigit(s[k]) {
      if signed { assert s[k] == digits[k - 1]; } else { assert s[k] == digits[k]; }
    }
  }

  /** Integer.valueOf does not trim: a cell with surrounding blanks is not a number. */
  lemma ParseIntRejectsBlank(s: string)
    requires s != [] && (IsTrimmable(s[0]) || IsTrimmable(s[|s| - 1]))
    ensures ParseInt(s) == None
  {
    if ParseInt(s).Some? {
      ParseIntAccepts(s);
      assert false;
    }
  }

  // ---------------------------------------------------------------------------
  // Double.valueOf(String), plain decimal notation
  // ---------------------------------------------------------------------------

  /** Index of the first occurrence of `c` in `s`. */
  function IndexOf(s: string, c: char): (k: nat)
    requires c in s
    ensures k < |s| && s[k] == c && c !in s[..k]
  {
    if s[0] == c then 0 else 1 + IndexOf(s[1..], c)
  }

  /** Digits, optionally followed by '.' and more digits, with at least one digit in all. */
  function ParseDecimal(body: string): Option<real> {
    var point := if '.' in body then IndexOf(body, '.') else |body|;
    var whole := body[..point];
    var fraction := if point < |body| then body[point + 1..] else "";
    if whole + fraction == [] || !AllDigits(whole) || !AllDigits(fraction) then None
    else Some(DecimalValue(whole, fraction))
  }

  /** The exact value of `whole.fraction`. */
  function DecimalValue(whole: string, fraction: string): real
    requires AllDigits(whole) && AllDigits(fraction)
  {
    DigitsValue(whole) as real + (DigitsValue(fraction) as real) / (Pow10(|fraction|) as real)
  }

  /**
   * Double.valueOf(String) for plain decimal notation: it trims the text itself, then
   * takes an optional sign and a decimal number. The value is the exact rational number
   * written (see README for what of Java's double syntax and rounding is not modelled).
   */
  function ParseDouble(s: string): Option<real> {
    var t := Trim(s);
    var negative := |t| > 0 && t[0] == '-';
    var signed := |t| > 0 && (t[0] == '-' || t[0] == '+');
    match ParseDecimal(if signed then t[1..] else t)
    case None => None
    case Some(v) => Some(if negative then -v else v)
  }

  /** Double.valueOf trims its argument itself, so trimming first changes nothing. */
  lemma ParseDoubleIgnoresTrim(s: string)
    ensures ParseDouble(Trim(s)) == ParseDouble(s)
  {
    TrimIdempotent(s);
  }

  /** Every digit string also reads as a double of the same value ("755" is 755.0). */
  lemma ParseDoubleOfDigits(s: string)
    requires s != [] && AllDigits(s)
    ensures ParseDouble(s) == Some(DigitsValue(s) as real)
  {
    ParseDoubleUnsigned(s);
    ParseDecimalWhole(s);
  }

  /** Text that starts with a digit and ends in a visible character needs no trimming and has no sign. */
  lemma ParseDoubleUnsigned(s: string)
    requires s != [] && IsDigit(s[0]) && !IsTrimmable(s[|s| - 1])
    ensures ParseDouble(s) == ParseDecimal(s)
  {
    TrimUnchanged(s);
    var t := Trim(s);
    assert t == s;
    assert !(t[0] == '-' || t[0] == '+');
  }

  /** Digits, a point and digits read as whole part plus fraction. */
  lemma ParseDecimalPoint(whole: string, fraction: string)
    requires whole != [] && AllDigits(whole) && AllDigits(fraction)
    ensures ParseDecimal(whole + "." + fraction) == Some(DecimalValue(whole, fraction))
  {
    var s := whole + "." + fraction;
    assert s[|whole|] == '.';
    var point := IndexOf(s, '.');
    assert s[..point] == whole;
    assert s[point + 1..] == fraction;
  }

  /** Digits alone read as a number with no fraction. */
  lemma ParseDecimalWhole(s: string)
    requires s != [] && AllDigits(s)
    ensures ParseDecimal(s) == Some(DigitsValue(s) as real)
  {
    assert forall k :: 0 <= k < |s| ==> s[k] != '.';
    assert s[..|s|] == s;
    assert DecimalValue(s, "") == DigitsValue(s) as real;
  }

  /** Digits, a point and digits, written without sign or blanks, read as whole part plus fraction. */
  lemma ParseDoubleDecimal(whole: string, fraction: string)
    requires whole != [] && fraction != [] && AllDigits(whole) && AllDigits(fraction)
    ensures ParseDouble(whole + "." + fraction) == Some(DecimalValue(whole, fraction))
  {
    var s := whole + "." + fraction;
    assert s[0] == whole[0] && s[|s| - 1] == fraction[|fraction| - 1];
    ParseDoubleUnsigned(s);
    ParseDecimalPoint(whole, fraction);
  }

  // ---------------------------------------------------------------------------
  // String.split with a one-character separator
  // ---------------------------------------------------------------------------

  /** All pieces between separators, empty ones included: one more piece than separators. */
  function Pieces(s: string, sep: char): (r: seq<string>)
    ensures |r| >= 1
  {
    if s == [] then [""]
    else
      var rest := Pieces(s[1..], sep);
      if s[0] == sep then [""] + rest else [[s[0]] + rest[0]] + rest[1..]
  }

  /** String.join: the inverse of Pieces. */
  function Join(ps: seq<string>, sep: char): string
    requires |ps| >= 1
  {
    if |ps| == 1 then ps[0] else ps[0] + [sep] + Join(ps[1..], sep)
  }

  /** Joining the pieces with the separator gives back the string, and no piece holds a separator. */
  lemma {:induction false} JoinPieces(s: string, sep: char)
    ensures Join(Pieces(s, sep), sep) == s
    ensures forall k :: 0 <= k < |Pieces(s, sep)| ==> sep !in Pieces(s, sep)[k]
  {
    if s != [] {
      JoinPieces(s[1..], sep);
      var rest := Pieces(s[1..], sep);
      if s[0] == sep {
        assert Pieces(s, sep)[1..] == rest;
      } else {
        var ps := Pieces(s, sep);
        assert ps[1..] == rest[1..];
        if |rest| == 1 {
          assert Join(ps, sep) == [s[0]] + rest[0];
        } else {
          assert Join(rest, sep) == rest[0] + [sep] + Join(rest[1..], sep);
        }
        assert s == [s[0]] + s[1..];
        forall k | 0 <= k < |ps| ensures sep !in ps[k] {
          if k > 0 { assert ps[k] == rest[k]; }
        }
      }
    }
  }

  /** Removes trailing empty strings, as String.split with limit 0 does. */
  function DropTrailingEmpty(ps: seq<string>): (r: seq<string>)
    ensures |r| <= |ps| && r == ps[..|r|]
    ensures forall k :: |r| <= k < |ps| ==> ps[k] == ""
    ensures r != [] ==> r[|r| - 1] != ""
  {
    if ps != [] && ps[|ps| - 1] == "" then DropTrailingEmpty(ps[..|ps| - 1]) else ps
  }

  /**
   * String.split(String.valueOf(sep)): with no separator in `s` the result is `[s]`
   * (even for the empty string); otherwise the pieces with trailing empty pieces removed.
   */
  function Split(s: string, sep: char): seq<string> {
    if sep !in s then [s] else DropTrailingEmpty(Pieces(s, sep))
  }

  /** Split gives the pieces of `s`, in order, up to trailing empty ones only. */
  lemma SplitPieces(s: string, sep: char)
    ensures sep !in s ==> Split(s, sep) == [s] == Pieces(s, sep)
    ensures sep in s ==> var r := Split(s, sep); var ps := Pieces(s, sep);
      r == ps[..|r|] && (forall k :: |r| <= k < |ps| ==> ps[k] == "") && (r != [] ==> r[|r| - 1] != "")
  {
    if sep !in s {
      PiecesWithoutSep(s, sep);
    }
  }

  /** A string without the separator is a single piece. */
  lemma {:induction false} PiecesWithoutSep(s: string, sep: char)
    requires sep !in s
    ensures Pieces(s, sep) == [s]
  {
    if s != [] {
      assert sep !in s[1..];
      PiecesWithoutSep(s[1..], sep);
      assert [s[0]] + s[1..] == s;
    }
  }
}

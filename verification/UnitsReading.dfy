/** What `parse_int` makes of numbers that were not printed by the program, and the unit tables. */
module UnitsReading {
  import opened Options
  import opened Text
  import opened Units

  /** An exact half goes to the even neighbour. */
  lemma TieGoesToEven(n: int)
    ensures Round(n as real + 0.5) == if n % 2 == 0 then n else n + 1
  {
    assert (n as real + 0.5).Floor == n;
  }

  // ---------------------------------------------------------------- decimal

  lemma ScansDecimalAlone(n: nat)
    ensures ScanDigits(Decimal(n)) == Some(Scan(n, ""))
  {
    var digits := Decimal(n);
    assert IsDigit(digits[0]) && digits + "" == digits;
    if n == 0 {
      assert digits == "0";
      LeadingExactly(digits, "", IsOctal);
      assert NumberOf(digits, 8) == 8 * NumberOf(digits[..0], 8) + DigitOf('0');
      assert digits[..1] == digits && digits[1..] == "";
    } else {
      LeadingExactly(digits, "", IsDigit);
      assert digits[..|digits|] == digits && digits[|digits|..] == "";
      NumberOfDigits(digits);
      DecimalReads(n);
    }
  }

  lemma DecimalIsTrimmed(n: nat)
    ensures Trimmed(Decimal(n)) && Trimmed("-" + Decimal(n))
  {
    var digits := Decimal(n);
    assert IsDigit(digits[0]) && IsDigit(digits[|digits| - 1]);
    assert ("-" + digits)[|digits|] == digits[|digits| - 1];
  }

  lemma IntTextReads(q: int)
    ensures Strtol(IntText(q)) == (Some(q), "") && Trimmed(IntText(q))
  {
    var n: nat := if q < 0 then -q else q;
    DecimalIsTrimmed(n);
    StripTrims(IntText(q));
    ScansDecimalAlone(n);
    assert IsDigit(Decimal(n)[0]);
    if q < 0 {
      assert IntText(q)[1..] == Decimal(n);
    }
  }

  /** Blanks around a number make no difference. */
  lemma BlanksAround(left: string, s: string, right: string)
    requires AllBlank(left) && AllBlank(right) && Trimmed(s)
    ensures Strtol(left + s + right) == Strtol(s)
  {
    StripRemoves(left, s, right);
    StripTrims(s);
  }

  /** A number without a unit is itself, whatever the base unit. */
  lemma UnitlessReads(q: int, left: string, right: string, baseUnit: string, strtod: Strtod)
    requires AllBlank(left) && AllBlank(right)
    ensures ParseInt(left + IntText(q) + right, baseUnit, strtod) == Number(q)
  {
    IntTextReads(q);
    BlanksAround(left, IntText(q), right);
    StripTrims("");
    RoundOfInt(q);
  }

  /** A plus sign makes no difference. */
  lemma PlusReads(n: nat, baseUnit: string, strtod: Strtod)
    ensures ParseInt("+" + Decimal(n), baseUnit, strtod) == Number(n)
  {
    var s := "+" + Decimal(n);
    DecimalIsTrimmed(n);
    assert s[|s| - 1] == Decimal(n)[|Decimal(n)| - 1] && s[1..] == Decimal(n);
    StripTrims(s);
    ScansDecimalAlone(n);
    StripTrims("");
    RoundOfInt(n);
  }

  /** Text that goes on with a fraction or an exponent is left to `strtod`, and what that reads is
      rounded when no unit follows. */
  lemma FractionsReadBy(text: string, baseUnit: string, strtod: Strtod, rest: string)
    requires
      var tail := Strtol(text).1;
      tail != "" && tail[0] in {'.', 'e', 'E'} && strtod(text).1 == rest && AllBlank(rest)
    ensures ParseInt(text, baseUnit, strtod) ==
      match strtod(text).0 case Some(x) => Number(Round(x)) case None => Nothing
  {
    assert "" + "" + rest == rest;
    StripRemoves("", "", rest);
  }

  /** A unit that the table of the base unit does not know gives nothing, and a base unit scaled by
      zero cannot be divided by. */
  lemma OddUnits(q: int, name: string, baseUnit: string, strtod: Strtod)
    requires Wordy(name)
    ensures
      var (scale, base) := BaseUnit(baseUnit);
      var known := exists u <- ConversionTable(base) :: u.name == name;
      && (!known ==> ParseInt(IntText(q) + name, baseUnit, strtod) == Nothing)
      && (known && scale == 0 ==> ParseInt(IntText(q) + name, baseUnit, strtod) == ZeroDivision)
  {
    ReadsBack(q, name);
    StripTrims(name);
  }

  /** Text that is no number at all, not even a fraction, gives nothing. */
  lemma NoNumber(text: string, baseUnit: string, strtod: Strtod)
    requires Trimmed(text) && text != "" && !IsDigit(text[0]) && text[0] !in {'-', '+', '.', 'e', 'E'}
    ensures ParseInt(text, baseUnit, strtod) == Nothing
  {
    StripTrims(text);
    assert ScanNumber(text) == None;
  }

  // ---------------------------------------------------------------- octal and hexadecimal

  function DigitIn(d: nat): (c: char)
    requires d < 16
    ensures IsHex(c) && DigitOf(c) == d && (d < 8 ==> IsOctal(c))
  {
    if d < 10 then (d + 48) as char else (d + 87) as char
  }

  function InBase(n: nat, base: nat): (s: string)
    requires base == 8 || base == 16
    ensures s != "" && forall c <- s :: IsHex(c) && (base == 8 ==> IsOctal(c))
  {
    if n < base then [DigitIn(n)] else InBase(n / base, base) + [DigitIn(n % base)]
  }

  lemma {:induction false} ReadsInBase(n: nat, base: nat)
    requires base == 8 || base == 16
    ensures NumberOf(InBase(n, base), base) == n
    decreases n
  {
    var s := InBase(n, base);
    if n < base {
      assert s[..0] == "";
    } else {
      ReadsInBase(n / base, base);
      assert s[..|s| - 1] == InBase(n / base, base);
    }
  }

  /** After 0x come hexadecimal digits, after a plain 0 octal ones, up to the first other character. */
  lemma HexReads(n: nat, rest: string)
    requires rest != "" ==> !IsHex(rest[0])
    ensures ScanDigits("0x" + InBase(n, 16) + rest) == Some(Scan(n, rest))
  {
    var digits := InBase(n, 16);
    var body := "0x" + digits + rest;
    assert body[2..] == digits + rest;
    LeadingExactly(digits, rest, IsHex);
    ReadsInBase(n, 16);
    assert body[2..][..|digits|] == digits && body[2..][|digits|..] == rest;
  }

  lemma OctalReads(n: nat, rest: string)
    requires rest != "" ==> !IsOctal(rest[0])
    ensures ScanDigits("0" + InBase(n, 8) + rest) == Some(Scan(n, rest))
  {
    var digits := InBase(n, 8);
    var body := "0" + digits + rest;
    assert body[0] == '0' && body[1] == digits[0] && IsOctal(digits[0]);
    ReadsInBase(n, 8);
    LeadingZero(digits);
    assert body == ("0" + digits) + rest;
    LeadingExactly("0" + digits, rest, IsOctal);
    assert body[..|digits| + 1] == "0" + digits && body[|digits| + 1..] == rest;
  }

  lemma {:induction false} LeadingZero(digits: string)
    requires forall c <- digits :: IsOctal(c)
    ensures NumberOf("0" + digits, 8) == NumberOf(digits, 8)
    decreases |digits|
  {
    if digits == "" {
      assert "0" + digits == "0" && "0"[..0] == "";
      assert NumberOf("0", 8) == 8 * NumberOf("", 8) + DigitOf('0');
    } else {
      var last := |digits| - 1;
      assert forall c <- digits[..last] :: c in digits;
      LeadingZero(digits[..last]);
      assert ("0" + digits)[..last + 1] == "0" + digits[..last];
    }
  }

  // ---------------------------------------------------------------- the tables

  /** Each memory unit is 1024 of the next smaller one, and the base unit is one. */
  lemma MemoryRatios(base: string, i: nat)
    requires base == "B" || base == "kB" || base == "MB"
    requires i < |ConversionTable(base)|
    ensures |ConversionTable(base)| == 5
    ensures i < 4 ==> Value(ConversionTable(base)[i].multiplier) == 1024.0 * Value(ConversionTable(base)[i + 1].multiplier)
    ensures ConversionTable(base)[i].name == base ==> Value(ConversionTable(base)[i].multiplier) == 1.0
  {
  }

  function TimeRatio(i: nat): real {
    match i case 0 => 24.0 case 1 => 60.0 case 2 => 60.0 case _ => 1000.0
  }

  /** A day has 24 hours, an hour 60 minutes, a minute 60 seconds, and so on by thousands. */
  lemma TimeRatios(base: string, i: nat)
    requires base == "ms" || base == "s" || base == "min"
    requires i < |ConversionTable(base)|
    ensures |ConversionTable(base)| == 6
    ensures i < 5 ==> Value(ConversionTable(base)[i].multiplier) == TimeRatio(i) * Value(ConversionTable(base)[i + 1].multiplier)
    ensures ConversionTable(base)[i].name == base ==> Value(ConversionTable(base)[i].multiplier) == 1.0
  {
  }

  lemma UnitNames(base: string)
    requires base == "B" || base == "kB" || base == "MB" || base == "ms" || base == "s" || base == "min"
    ensures
      var names := seq(|ConversionTable(base)|, i requires 0 <= i < |ConversionTable(base)| => ConversionTable(base)[i].name);
      names == if base == "B" || base == "kB" || base == "MB" then ["TB", "GB", "MB", "kB", "B"]
               else ["d", "h", "min", "s", "ms", "us"]
  {
  }
}

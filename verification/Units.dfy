/**
 Configuration values with units: printing an integer in the greatest exact unit and parsing it
 back. Quotients are exact; `round` is Python's, half to even.
 */
module Units {
  import opened Options
  import opened Text

  /** A multiplier of a conversion table: n base units, or one n-th of a base unit. */
  datatype Multiplier = Times(n: nat) | Per(n: nat)

  datatype Unit = Unit(name: string, multiplier: Multiplier)

  function Value(m: Multiplier): (v: real)
    requires m.n > 0
    ensures v > 0.0
  {
    match m case Times(n) => n as real case Per(n) => 1.0 / n as real
  }

  /** `get_conversion_table`, restricted to the column of `base`: greatest unit first. */
  function ConversionTable(base: string): (table: seq<Unit>)
    ensures Usable(table)
  {
    match base
    case "B" => [Unit("TB", Times(1099511627776)), Unit("GB", Times(1073741824)), Unit("MB", Times(1048576)), Unit("kB", Times(1024)), Unit("B", Times(1))]
    case "kB" => [Unit("TB", Times(1073741824)), Unit("GB", Times(1048576)), Unit("MB", Times(1024)), Unit("kB", Times(1)), Unit("B", Per(1024))]
    case "MB" => [Unit("TB", Times(1048576)), Unit("GB", Times(1024)), Unit("MB", Times(1)), Unit("kB", Per(1024)), Unit("B", Per(1048576))]
    case "ms" => [Unit("d", Times(86400000)), Unit("h", Times(3600000)), Unit("min", Times(60000)), Unit("s", Times(1000)), Unit("ms", Times(1)), Unit("us", Per(1000))]
    case "s" => [Unit("d", Times(86400)), Unit("h", Times(3600)), Unit("min", Times(60)), Unit("s", Times(1)), Unit("ms", Per(1000)), Unit("us", Per(1000000))]
    case "min" => [Unit("d", Times(1440)), Unit("h", Times(60)), Unit("min", Times(1)), Unit("s", Per(60)), Unit("ms", Per(60000)), Unit("us", Per(60000000))]
    case _ => []
  }

  // ---------------------------------------------------------------- rounding

  function Round(x: real): int {
    var down := x.Floor;
    var rest := x - down as real;
    if rest < 0.5 then down
    else if 0.5 < rest then down + 1
    else if down % 2 == 0 then down else down + 1
  }

  lemma RoundIsNear(x: real)
    ensures -0.5 <= Round(x) as real - x <= 0.5
  {
  }

  lemma RoundOfInt(n: int)
    ensures Round(n as real) == n
  {
  }

  // ---------------------------------------------------------------- strtol

  /** How many leading characters satisfy `ok`. */
  function Leading(s: string, ok: char -> bool): (n: nat)
    ensures n <= |s|
    ensures forall i :: 0 <= i < n ==> ok(s[i])
    ensures n < |s| ==> !ok(s[n])
  {
    if s != "" && ok(s[0]) then 1 + Leading(s[1..], ok) else 0
  }

  predicate IsOctal(c: char) { '0' <= c <= '7' }

  predicate IsHex(c: char) { IsDigit(c) || 'a' <= c <= 'f' || 'A' <= c <= 'F' }

  function DigitOf(c: char): int {
    if IsDigit(c) then c as int - 48 else if 'a' <= c <= 'f' then c as int - 87 else c as int - 55
  }

  function NumberOf(s: string, base: nat): int {
    if s == "" then 0 else base * NumberOf(s[..|s| - 1], base) + DigitOf(s[|s| - 1])
  }

  /** A matched number and the text behind it. */
  datatype Scan = Scan(number: int, rest: string)

  /** The digits of HEX_RE, OCT_RE and DEC_RE, tried in this order. */
  function ScanDigits(body: string): Option<Scan> {
    if |body| > 2 && body[0] == '0' && body[1] == 'x' && Leading(body[2..], IsHex) > 0 then
      var n := Leading(body[2..], IsHex);
      Some(Scan(NumberOf(body[2..][..n], 16), body[2..][n..]))
    else if body != "" && body[0] == '0' then
      var n := Leading(body, IsOctal);
      Some(Scan(NumberOf(body[..n], 8), body[n..]))
    else if body != "" && IsDigit(body[0]) then
      var n := Leading(body, IsDigit);
      Some(Scan(NumberOf(body[..n], 10), body[n..]))
    else None
  }

  /** With the optional sign in front. */
  function ScanNumber(s: string): Option<Scan> {
    if s != "" && (s[0] == '-' || s[0] == '+') then
      match ScanDigits(s[1..])
      case Some(scan) => Some(Scan(if s[0] == '-' then -scan.number else scan.number, scan.rest))
      case None => None
    else ScanDigits(s)
  }

  function Strtol(value: string): (Option<int>, string) {
    var s := Strip(value);
    match ScanNumber(s)
    case Some(scan) => (Some(scan.number), scan.rest)
    case None => (None, s)
  }

  /** `strtol(base_unit, False)`: the scale of a base unit, 1 unless it starts with a number. */
  function BaseUnit(text: string): (int, string) {
    match Strtol(text)
    case (Some(n), rest) => (n, rest)
    case (None, rest) => (1, rest)
  }

  // ---------------------------------------------------------------- conversion

  function IndexOf(table: seq<Unit>, name: string): (r: Option<nat>)
    ensures r.Some? ==> r.value < |table| && table[r.value].name == name
    ensures r == None ==> forall u <- table :: u.name != name
  {
    if table == [] then None
    else if table[0].name == name then Some(0)
    else match IndexOf(table[1..], name) case Some(i) => Some(i + 1) case None => None
  }

  datatype Conversion = Converted(value: real) | NoSuchUnit | DivisionByZero

  /** A conversion table: greatest unit first, every multiplier meaningful. */
  ghost predicate Usable(table: seq<Unit>) {
    forall i :: 0 <= i < |table| ==> table[i].multiplier.n > 0
  }

  /** `convert_to_base_unit`: all but the smallest unit are rounded to a multiple of the next
      smaller one. */
  function Convert(value: real, unit: string, scale: int, table: seq<Unit>): Conversion
    requires Usable(table)
  {
    match IndexOf(table, unit)
    case None => NoSuchUnit
    case Some(i) =>
      if scale == 0 then DivisionByZero
      else
        var exact := Exact(value, table[i].multiplier, scale);
        if i + 1 < |table| then Converted(Rounded(exact, Value(table[i + 1].multiplier))) else Converted(exact)
  }

  function Exact(value: real, m: Multiplier, scale: int): real
    requires m.n > 0 && scale != 0
  {
    value * (Value(m) / scale as real)
  }

  function Rounded(x: real, step: real): real
    requires step > 0.0
  {
    Round(x / step) as real * step
  }

  function ConvertToBaseUnit(value: real, unit: string, baseUnit: string): Conversion {
    var (scale, base) := BaseUnit(baseUnit);
    Convert(value, unit, scale, ConversionTable(base))
  }

  /** `str` of an integer. */
  function IntText(n: int): string {
    if n < 0 then "-" + Decimal(-n) else Decimal(n)
  }

  predicate Fits(value: int, m: Multiplier)
    requires m.n > 0
  {
    m.Per? || m.n == 1 || value % m.n == 0
  }

  /** The first unit of the table that represents the value without loss. */
  function FirstFit(value: int, table: seq<Unit>): (r: Option<nat>)
    requires Usable(table)
    ensures r.Some? ==> r.value < |table| && Fits(value, table[r.value].multiplier)
    ensures r.Some? ==> forall i :: 0 <= i < r.value ==> !Fits(value, table[i].multiplier)
    ensures r == None ==> forall i :: 0 <= i < |table| ==> !Fits(value, table[i].multiplier)
  {
    if table == [] then None
    else if Fits(value, table[0].multiplier) then Some(0)
    else match FirstFit(value, table[1..]) case Some(i) => Some(i + 1) case None => None
  }

  function Printed(value: int, table: seq<Unit>): Option<string>
    requires Usable(table)
  {
    match FirstFit(value, table)
    case None => None
    case Some(i) => Some(IntText(Round(value as real / Value(table[i].multiplier))) + table[i].name)
  }

  /** `convert_int_from_base_unit`. */
  method ConvertIntFromBaseUnit(baseValue: int, baseUnit: string) returns (text: Option<string>)
    ensures text == Printed(baseValue * BaseUnit(baseUnit).0, ConversionTable(BaseUnit(baseUnit).1))
  {
    var (scale, base) := BaseUnit(baseUnit);
    text := PrintWith(baseValue * scale, ConversionTable(base));
  }

  /** Its search loop. */
  method PrintWith(value: int, table: seq<Unit>) returns (text: Option<string>)
    requires Usable(table)
    ensures text == Printed(value, table)
  {
    for i := 0 to |table|
      invariant forall j :: 0 <= j < i ==> !Fits(value, table[j].multiplier)
    {
      var multiplier := table[i].multiplier;
      if Fits(value, multiplier) {
        assert FirstFit(value, table) == Some(i);
        var quotient := Round(value as real / Value(multiplier));
        return Some(IntText(quotient) + table[i].name);
      }
    }
    return None;
  }

  datatype Parsed = Number(value: int) | Nothing | ZeroDivision

  type Strtod = string -> (Option<real>, string)

  /** `parse_int`; the reader of fractional numbers is a parameter. */
  function ParseInt(value: string, baseUnit: string, strtod: Strtod): Parsed {
    var (n, tail) := Strtol(value);
    var (x, unit) :=
      if (n == None && tail != "" && tail[0] == '.') || (tail != "" && tail[0] in {'.', 'e', 'E'})
      then strtod(value)
      else (if n.Some? then Some(n.value as real) else None, tail);
    if x == None then Nothing
    else
      var name := Strip(unit);
      if name == "" then Number(Round(x.value))
      else match ConvertToBaseUnit(x.value, name, baseUnit)
        case Converted(y) => Number(Round(y))
        case NoSuchUnit => Nothing
        case DivisionByZero => ZeroDivision
  }

  // ---------------------------------------------------------------- laws

  /** Rounding to a step moves a value by at most half the step, and leaves multiples alone. */
  lemma RoundedIsNear(x: real, step: real)
    requires step > 0.0
    ensures Near(Rounded(x, step), x, step / 2.0)
  {
    var q := x / step;
    RoundIsNear(q);
    assert x == q * step;
    var d := Round(q) as real - q;
    assert Rounded(x, step) - x == d * step;
    assert -0.5 * step <= d * step <= 0.5 * step;
  }

  /** The unit-rounding step moves a converted value by at most half the next smaller unit. */
  lemma ConversionIsNear(value: real, scale: int, table: seq<Unit>, i: nat)
    requires Usable(table) && i < |table| && scale != 0
    requires IndexOf(table, table[i].name) == Some(i)
    ensures Convert(value, table[i].name, scale, table).Converted?
    ensures
      var exact := Exact(value, table[i].multiplier, scale);
      var r := Convert(value, table[i].name, scale, table).value;
      if i + 1 == |table| then r == exact else Near(r, exact, Value(table[i + 1].multiplier) / 2.0)
  {
    if i + 1 < |table| {
      RoundedIsNear(Exact(value, table[i].multiplier, scale), Value(table[i + 1].multiplier));
    }
  }

  predicate Near(a: real, b: real, distance: real) {
    -distance <= a - b <= distance
  }

  // ---------------------------------------------------------------- reading a number back

  /** A unit name: a word that cannot be taken for a part of a number. */
  predicate Wordy(name: string) {
    && name != "" && Trimmed(name)
    && !IsDigit(name[0]) && name[0] !in {'x', '.', 'e', 'E', '+', '-'}
  }

  lemma {:induction false} LeadingExactly(a: string, b: string, ok: char -> bool)
    requires forall c <- a :: ok(c)
    requires b != "" ==> !ok(b[0])
    ensures Leading(a + b, ok) == |a|
    decreases |a|
  {
    if a != "" {
      assert a[0] in a && (a + b)[1..] == a[1..] + b;
      LeadingExactly(a[1..], b, ok);
    } else {
      assert a + b == b;
    }
  }

  lemma {:induction false} NumberOfDigits(s: string)
    requires forall c <- s :: IsDigit(c)
    ensures NumberOf(s, 10) == DecimalValue(s)
    decreases |s|
  {
    if s != "" {
      assert IsDigit(s[|s| - 1]);
      NumberOfDigits(s[..|s| - 1]);
    }
  }

  lemma ScansDecimal(n: nat, name: string)
    requires Wordy(name)
    ensures ScanDigits(Decimal(n) + name) == Some(Scan(n, name))
  {
    var digits := Decimal(n);
    var body := digits + name;
    assert IsDigit(digits[0]);
    if n == 0 {
      assert body[1] == name[0];
      assert forall c <- digits :: IsOctal(c);
      LeadingExactly(digits, name, IsOctal);
      assert body[..1] == digits && body[1..] == name;
      assert digits == [Digit(0)] && Digit(0) == '0';
      assert NumberOf(digits, 8) == 8 * NumberOf(digits[..0], 8) + DigitOf('0');
      assert ScanDigits(body) == Some(Scan(NumberOf(body[..1], 8), body[1..]));
    } else {
      LeadingExactly(digits, name, IsDigit);
      assert body[..|digits|] == digits && body[|digits|..] == name;
      NumberOfDigits(digits);
      DecimalReads(n);
    }
  }

  lemma NothingToStrip(n: nat, name: string)
    requires Wordy(name)
    ensures Strip(Decimal(n) + name) == Decimal(n) + name
    ensures Strip("-" + Decimal(n) + name) == "-" + Decimal(n) + name
  {
    assert IsDigit(Decimal(n)[0]);
    StripTrims(Decimal(n) + name);
    StripTrims("-" + Decimal(n) + name);
    assert (Decimal(n) + name)[|Decimal(n) + name| - 1] == name[|name| - 1];
    assert ("-" + Decimal(n) + name)[|Decimal(n) + name|] == name[|name| - 1];
  }

  lemma ReadsBackNatural(n: nat, name: string)
    requires Wordy(name)
    ensures Strtol(Decimal(n) + name) == (Some(n), name)
  {
    NothingToStrip(n, name);
    ScansDecimal(n, name);
    assert (Decimal(n) + name)[0] == Decimal(n)[0] && IsDigit(Decimal(n)[0]);
  }

  lemma SignInFront(n: nat, name: string)
    ensures var s := "-" + Decimal(n) + name; s[0] == '-' && s[1..] == Decimal(n) + name
  {
  }

  lemma ReadsSigned(s: string, n: int, name: string)
    requires Wordy(name) && n > 0 && Strip(s) == s
    requires s != "" && s[0] == '-' && s[1..] == Decimal(n) + name
    ensures Strtol(s) == (Some(-n), name)
  {
    ScansDecimal(n, name);
  }

  lemma ReadsBackNegative(n: int, name: string)
    requires Wordy(name) && n > 0
    ensures Strtol("-" + Decimal(n) + name) == (Some(-n), name)
  {
    var s := "-" + Decimal(n) + name;
    SignInFront(n, name);
    assert Strip(s) == s by {
      NothingToStrip(n, name);
    }
    ReadsSigned(s, n, name);
  }

  /** An integer in front of a unit name is read as that integer and that name. */
  lemma ReadsBack(q: int, name: string)
    requires Wordy(name)
    ensures Strtol(IntText(q) + name) == (Some(q), name)
  {
    if q < 0 {
      ReadsBackNegative(-q, name);
    } else {
      ReadsBackNatural(q, name);
    }
  }

  lemma BaseUnitReads(k: nat, unit: string)
    requires Wordy(unit)
    ensures BaseUnit(Decimal(k) + unit) == (k, unit)
  {
    ReadsBack(k, unit);
    assert IntText(k) == Decimal(k);
  }

  lemma PlainBaseUnitReads(unit: string)
    requires Wordy(unit)
    ensures BaseUnit(unit) == (1, unit)
  {
    StripTrims(unit);
    assert ScanNumber(unit) == None;
  }
}

/** Printing an integer in its greatest exact unit and parsing the text again. */
module UnitsRoundTrip {
  import opened Options
  import opened Text
  import opened Units

  const MEMORY_UNITS := ["TB", "GB", "MB", "kB", "B"]
  const TIME_UNITS := ["d", "h", "min", "s", "ms", "us"]

  /** The base units without a scale in front: the columns of the conversion tables. */
  predicate Plain(base: string) {
    base == "B" || base == "kB" || base == "MB" || base == "ms" || base == "s" || base == "min"
  }

  /** Names that are unit names, all different. */
  ghost predicate Named(names: seq<string>) {
    && (forall i :: 0 <= i < |names| ==> Wordy(names[i]))
    && (forall i, j :: 0 <= i < j < |names| ==> names[i] != names[j])
  }

  /** Shape of a conversion table: first the multiples, each a multiple of the one below it, down
      to the base unit at index `one`, then the fractions. */
  ghost predicate Ladder(table: seq<Unit>, one: nat) {
    && Usable(table)
    && one < |table| && table[one].multiplier == Times(1)
    && (forall i :: 0 <= i < |table| ==> (table[i].multiplier.Times? <==> i <= one))
    && (forall i :: 0 <= i < one ==> table[i].multiplier.n % table[i + 1].multiplier.n == 0)
  }

  ghost predicate NamedBy(table: seq<Unit>, names: seq<string>) {
    && |table| == |names|
    && forall i :: 0 <= i < |table| ==> table[i].name == names[i]
  }

  lemma MemoryNames()
    ensures Named(MEMORY_UNITS)
  {
    assert forall i :: 0 <= i < |MEMORY_UNITS| ==> MEMORY_UNITS[i] == "B" || |MEMORY_UNITS[i]| == 2;
  }

  lemma TimeNames()
    ensures Named(TIME_UNITS)
  {
  }

  lemma MemoryTable(base: string) returns (one: nat)
    requires base == "B" || base == "kB" || base == "MB"
    ensures Ladder(ConversionTable(base), one)
    ensures NamedBy(ConversionTable(base), MEMORY_UNITS)
  {
    one := if base == "B" then 4 else if base == "kB" then 3 else 2;
  }

  lemma TimeTable(base: string) returns (one: nat)
    requires base == "ms" || base == "s" || base == "min"
    ensures Ladder(ConversionTable(base), one)
    ensures NamedBy(ConversionTable(base), TIME_UNITS)
  {
    one := if base == "ms" then 4 else if base == "s" then 3 else 2;
  }

  lemma TableShape(base: string) returns (one: nat, names: seq<string>)
    requires Plain(base)
    ensures Ladder(ConversionTable(base), one)
    ensures NamedBy(ConversionTable(base), names) && Named(names)
  {
    if base == "B" || base == "kB" || base == "MB" {
      one := MemoryTable(base);
      names := MEMORY_UNITS;
      MemoryNames();
    } else {
      one := TimeTable(base);
      names := TIME_UNITS;
      TimeNames();
    }
  }

  lemma {:induction false} FoundByName(table: seq<Unit>, names: seq<string>, i: nat)
    requires NamedBy(table, names) && Named(names) && i < |table|
    ensures IndexOf(table, table[i].name) == Some(i)
  {
    assert table[i] in table;
    var j := IndexOf(table, table[i].name).value;
    assert names[j] == names[i];
  }

  // ---------------------------------------------------------------- arithmetic

  /** Rounding an integer to a whole step keeps it exactly when it is a multiple of the step. */
  lemma RoundedToTimes(v: int, n: nat)
    requires n > 0
    ensures Round(Rounded(v as real, n as real)) == v <==> v % n == 0
  {
    var q := Round(v as real / n as real);
    assert Rounded(v as real, n as real) == (q * n) as real;
    RoundOfInt(q * n);
    if v % n == 0 {
      Divides(v, n);
      RoundOfInt(v / n);
    } else {
      MultipleLeavesNothing(q, n);
    }
  }

  lemma RoundedToPer(v: int, n: nat)
    requires n > 0
    ensures Round(Rounded(v as real, 1.0 / n as real)) == v
  {
    var step := 1.0 / n as real;
    assert step * n as real == 1.0;
    assert v as real / step == (v * n) as real by {
      assert ((v * n) as real) * step == v as real;
    }
    RoundOfInt(v * n);
    RoundOfInt(v);
  }

  lemma Divides(v: int, n: nat)
    requires n > 0 && v % n == 0
    ensures v == v / n * n && v as real / n as real == (v / n) as real
  {
    assert v as real == (v / n) as real * n as real;
  }

  lemma GrowsPast(k: nat, n: nat)
    requires k > 0
    ensures k * n >= n
  {
    assert (k - 1) * n >= 0;
  }

  lemma MultipleLeavesNothing(q: int, n: nat)
    requires n > 0
    ensures (q * n) % n == 0
  {
    var r := (q * n) % n;
    var d := (q * n) / n;
    assert (q - d) * n == r;
    if q > d {
      GrowsPast(q - d, n);
    } else if q < d {
      GrowsPast(d - q, n);
    }
  }

  lemma DividesThrough(v: int, n: nat, m: nat)
    requires n > 0 && m > 0 && v % n == 0 && n % m == 0
    ensures v % m == 0
  {
    assert v == (v / n) * (n / m) * m;
    MultipleLeavesNothing((v / n) * (n / m), m);
  }

  // ---------------------------------------------------------------- the round trip

  /** The unit below the chosen one does not round `v` away. */
  predicate Survives(v: int, chosen: nat, table: seq<Unit>)
    requires Usable(table)
  {
    chosen + 1 < |table| ==> Fits(v, table[chosen + 1].multiplier)
  }

  /** Converting the exact quotient back, for any scale in front of the base unit. */
  lemma ConvertsBack(v: int, scale: nat, table: seq<Unit>, one: nat, chosen: nat)
    requires Ladder(table, one) && chosen <= one && scale > 0
    requires Fits(v * scale, table[chosen].multiplier)
    requires IndexOf(table, table[chosen].name) == Some(chosen)
    ensures
      var q := Round((v * scale) as real / Value(table[chosen].multiplier));
      var back := Convert(q as real, table[chosen].name, scale, table);
      back.Converted? && (Round(back.value) == v <==> Survives(v, chosen, table))
  {
    var n := table[chosen].multiplier.n;
    Divides(v * scale, n);
    RoundOfInt(v * scale / n);
    var q := v * scale / n;
    assert Exact(q as real, Times(n), scale) == v as real by {
      Cancels(q, n, v, scale);
    }
    if chosen + 1 < |table| {
      match table[chosen + 1].multiplier
      case Times(m) => RoundedToTimes(v, m);
      case Per(m) => RoundedToPer(v, m);
    } else {
      RoundOfInt(v);
    }
  }

  lemma Cancels(q: int, n: nat, v: int, scale: nat)
    requires q * n == v * scale && scale > 0
    ensures q as real * (n as real / scale as real) == v as real
  {
    assert q as real * n as real == v as real * scale as real;
  }

  /** Every integer is printed, in a unit no smaller than the base unit. */
  lemma AlwaysPrinted(value: int, table: seq<Unit>, one: nat)
    requires Ladder(table, one)
    ensures FirstFit(value, table).Some? && FirstFit(value, table).value <= one
  {
    assert Fits(value, table[one].multiplier);
  }

  /** Which texts `parse_int` reads back: those whose value the next smaller unit does not round
      away. `chosen` is the unit that was printed. */
  lemma ScaledRoundTripIff(v: int, scale: nat, unit: string, strtod: Strtod)
    requires Plain(unit) && scale > 0
    ensures
      var baseUnit, table := Decimal(scale) + unit, ConversionTable(unit);
      && Printed(v * scale, table).Some?
      && (ParseInt(Printed(v * scale, table).value, baseUnit, strtod) == Number(v)
          <==> Survives(v, FirstFit(v * scale, table).value, table))
  {
    BaseUnitReads(scale, unit);
    ParsesBack(v, scale, unit, Decimal(scale) + unit, strtod);
  }

  lemma ParsesBack(v: int, scale: nat, unit: string, baseUnit: string, strtod: Strtod)
    requires Plain(unit) && scale > 0 && BaseUnit(baseUnit) == (scale, unit)
    ensures
      var table := ConversionTable(unit);
      && Printed(v * scale, table).Some?
      && (ParseInt(Printed(v * scale, table).value, baseUnit, strtod) == Number(v)
          <==> Survives(v, FirstFit(v * scale, table).value, table))
  {
    var table := ConversionTable(unit);
    var one, names := TableShape(unit);
    AlwaysPrinted(v * scale, table, one);
    var i := FirstFit(v * scale, table).value;
    FoundByName(table, names, i);
    ConvertsBack(v, scale, table, one, i);
    var q := Round((v * scale) as real / Value(table[i].multiplier));
    assert Wordy(names[i]);
    ReadsBack(q, table[i].name);
    StripTrims(table[i].name);
  }

  /** With a plain base unit every integer survives the round trip. */
  lemma PlainRoundTrip(v: int, unit: string, strtod: Strtod)
    requires Plain(unit)
    ensures Printed(v, ConversionTable(unit)).Some?
    ensures ParseInt(Printed(v, ConversionTable(unit)).value, unit, strtod) == Number(v)
  {
    var table := ConversionTable(unit);
    var one, names := TableShape(unit);
    PlainBaseUnitReads(unit);
    ParsesBack(v, 1, unit, unit, strtod);
    AlwaysPrinted(v, table, one);
    var i := FirstFit(v, table).value;
    if i < one {
      DividesThrough(v, table[i].multiplier.n, table[i + 1].multiplier.n);
    }
  }

  lemma ScaleOfSixteenMegabytes()
    ensures BaseUnit("16384kB") == (16384, "kB")
  {
    assert Decimal(163) == "163";
    assert Decimal(16384) == "16384";
    BaseUnitReads(16384, "kB");
    assert "16384" + "kB" == "16384kB";
  }

  lemma GigabytePrints()
    ensures Printed(64 * 16384, ConversionTable("kB")) == Some("1GB")
  {
    var table := ConversionTable("kB");
    assert table[1] == Unit("GB", Times(1048576));
    assert !Fits(64 * 16384, table[0].multiplier) && Fits(64 * 16384, table[1].multiplier);
    assert FirstFit(64 * 16384, table) == Some(1);
    assert (64 * 16384) as real / 1048576.0 == 1.0;
    RoundOfInt(1);
    assert IntText(1) == "1";
    assert "1" + "GB" == "1GB";
  }

  lemma GigabyteConverts()
    ensures Convert(1.0, "GB", 16384, ConversionTable("kB")) == Converted(0.0)
  {
    var table := ConversionTable("kB");
    assert IndexOf(table, "GB") == Some(1) by {
      MemoryNames();
      var one := MemoryTable("kB");
      FoundByName(table, MEMORY_UNITS, 1);
    }
    assert Rounded(64.0, 1024.0) == 0.0;
    assert Exact(1.0, Times(1048576), 16384) == 64.0;
  }

  lemma OneGigabyteReads()
    ensures Strtol("1GB") == (Some(1), "GB") && Strip("GB") == "GB"
  {
    ReadsBack(1, "GB");
    assert IntText(1) + "GB" == "1GB";
    StripTrims("GB");
  }

  /** A gigabyte in units of sixteen megabytes is 64, prints as "1GB" and reads back as 0. */
  lemma GigabyteIsLost(strtod: Strtod)
    ensures Printed(64 * 16384, ConversionTable("kB")) == Some("1GB")
    ensures ParseInt("1GB", "16384kB", strtod) == Number(0)
  {
    GigabytePrints();
    OneGigabyteReads();
    ScaleOfSixteenMegabytes();
    GigabyteConverts();
    RoundOfInt(0);
  }
}

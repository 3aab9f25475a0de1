/** The string operations the program relies on, over ASCII. */
module Text {
  predicate Blank(c: char) {
    c == ' ' || 9 as char <= c <= 13 as char || 28 as char <= c <= 31 as char
  }

  function LowerChar(c: char): char {
    if 'A' <= c <= 'Z' then (c as int + 32) as char else c
  }

  /** `str.lower`. */
  function Lower(s: string): (r: string)
    ensures |r| == |s|
    ensures forall i :: 0 <= i < |s| ==> r[i] == LowerChar(s[i])
  {
    if s == "" then "" else [LowerChar(s[0])] + Lower(s[1..])
  }

  /** The same letter, but for its case. */
  predicate SameLetter(c: char, d: char) {
    || c == d
    || ('A' <= c <= 'Z' && d as int == c as int + 32)
    || ('A' <= d <= 'Z' && c as int == d as int + 32)
  }

  lemma SameLetterIff(c: char, d: char)
    ensures LowerChar(c) == LowerChar(d) <==> SameLetter(c, d)
  {
    assert LowerChar(c) as int == if 'A' <= c <= 'Z' then c as int + 32 else c as int;
    assert LowerChar(d) as int == if 'A' <= d <= 'Z' then d as int + 32 else d as int;
    assert LowerChar(c) == LowerChar(d) <==> LowerChar(c) as int == LowerChar(d) as int;
  }

  /** Lower-casing makes two texts equal exactly when they differ in case only. */
  lemma {:induction false} SameLetters(s: string, t: string)
    ensures Lower(s) == Lower(t) <==> |s| == |t| && forall i :: 0 <= i < |s| ==> SameLetter(s[i], t[i])
    decreases |s|
  {
    if s != "" && t != "" {
      SameLetterIff(s[0], t[0]);
      SameLetters(s[1..], t[1..]);
      assert Lower(s)[1..] == Lower(s[1..]) && Lower(t)[1..] == Lower(t[1..]);
      assert Lower(s) == [Lower(s)[0]] + Lower(s)[1..] && Lower(t) == [Lower(t)[0]] + Lower(t)[1..];
      assert (forall i :: 0 <= i < |s| && i < |t| ==> SameLetter(s[i], t[i])) <==>
          SameLetter(s[0], t[0]) && forall i :: 0 <= i < |s[1..]| && i < |t[1..]| ==> SameLetter(s[1..][i], t[1..][i]) by {
        Shifted(s, t);
      }
    }
  }

  lemma Shifted(s: string, t: string)
    requires s != "" && t != ""
    ensures (forall i :: 0 <= i < |s| && i < |t| ==> SameLetter(s[i], t[i])) <==>
            SameLetter(s[0], t[0]) && forall i :: 0 <= i < |s[1..]| && i < |t[1..]| ==> SameLetter(s[1..][i], t[1..][i])
  {
    if SameLetter(s[0], t[0]) && forall i :: 0 <= i < |s[1..]| && i < |t[1..]| ==> SameLetter(s[1..][i], t[1..][i]) {
      forall i | 0 <= i < |s| && i < |t| ensures SameLetter(s[i], t[i]) {
        if i > 0 {
          assert s[i] == s[1..][i - 1] && t[i] == t[1..][i - 1];
        }
      }
    }
  }

  function LeftStrip(s: string): string {
    if s != "" && Blank(s[0]) then LeftStrip(s[1..]) else s
  }

  function RightStrip(s: string): string {
    if s != "" && Blank(s[|s| - 1]) then RightStrip(s[..|s| - 1]) else s
  }

  /** `str.strip`. */
  function Strip(s: string): string {
    RightStrip(LeftStrip(s))
  }

  /** `str.split` with a one-character separator: always at least one piece. */
  function Split(s: string, sep: char): (pieces: seq<string>)
    ensures pieces != []
    ensures forall p <- pieces :: sep !in p
  {
    if s == "" then [""]
    else
      var rest := Split(s[1..], sep);
      if s[0] == sep then [""] + rest
      else
        assert forall p <- rest[1..] :: p in rest;
        [[s[0]] + rest[0]] + rest[1..]
  }

  /** `sep.join`. */
  function Join(pieces: seq<string>, sep: char): string {
    if pieces == [] then ""
    else if |pieces| == 1 then pieces[0]
    else pieces[0] + [sep] + Join(pieces[1..], sep)
  }

  lemma {:induction false} SplitHead(p: string, rest: string, sep: char)
    requires sep !in p
    ensures Split(p + [sep] + rest, sep) == [p] + Split(rest, sep)
    decreases |p|
  {
    var s := p + [sep] + rest;
    if p == "" {
      assert s[1..] == rest;
    } else {
      assert s[1..] == p[1..] + [sep] + rest;
      SplitHead(p[1..], rest, sep);
      assert [p[0]] + p[1..] == p;
    }
  }

  lemma {:induction false} SplitAtom(p: string, sep: char)
    requires sep !in p
    ensures Split(p, sep) == [p]
    decreases |p|
  {
    if p != "" {
      SplitAtom(p[1..], sep);
      assert [p[0]] + p[1..] == p;
    }
  }

  /** Splitting undoes joining when no piece holds the separator. */
  lemma {:induction false} SplitJoin(pieces: seq<string>, sep: char)
    requires pieces != [] && forall p <- pieces :: sep !in p
    ensures Split(Join(pieces, sep), sep) == pieces
    decreases |pieces|
  {
    if |pieces| == 1 {
      SplitAtom(pieces[0], sep);
    } else {
      SplitJoin(pieces[1..], sep);
      SplitHead(pieces[0], Join(pieces[1..], sep), sep);
    }
  }

  lemma {:induction false} LowerConcat(s: string, t: string)
    ensures Lower(s + t) == Lower(s) + Lower(t)
  {
  }

  const WHITESPACE := {' ', '\t', '\n', '\r', 11 as char, 12 as char, 28 as char, 29 as char, 30 as char, 31 as char}

  lemma BlankIff(c: char)
    ensures Blank(c) <==> c in WHITESPACE
  {
    assert c == c as int as char;
  }

  predicate AllBlank(s: string) {
    forall c <- s :: c in WHITESPACE
  }

  lemma {:induction false} LeftStripRemoves(left: string, s: string)
    requires AllBlank(left) && (s != "" ==> !Blank(s[0]))
    ensures LeftStrip(left + s) == s
    decreases |left|
  {
    if left == "" {
      assert left + s == s;
    } else {
      assert left[0] in left && (forall c <- left[1..] :: c in left);
      assert (left + s)[1..] == left[1..] + s;
      LeftStripRemoves(left[1..], s);
    }
  }

  lemma {:induction false} RightStripRemoves(s: string, right: string)
    requires AllBlank(right) && (s != "" ==> !Blank(s[|s| - 1]))
    ensures RightStrip(s + right) == s
    decreases |right|
  {
    if right == "" {
      assert s + right == s;
    } else {
      var last := |right| - 1;
      assert right[last] in right && (forall c <- right[..last] :: c in right);
      assert (s + right)[..|s + right| - 1] == s + right[..last];
      RightStripRemoves(s, right[..last]);
    }
  }

  /** Stripping removes all blanks at the ends, and nothing else. */
  lemma StripRemoves(left: string, s: string, right: string)
    requires AllBlank(left) && AllBlank(right) && Trimmed(s)
    ensures Strip(left + s + right) == s
  {
    if s == "" {
      assert AllBlank(left + right) && left + s + right == (left + right) + "";
      LeftStripRemoves(left + right, "");
    } else {
      assert left + s + right == left + (s + right);
      LeftStripRemoves(left, s + right);
      RightStripRemoves(s, right);
    }
  }

  predicate Trimmed(s: string) {
    s != "" ==> !Blank(s[0]) && !Blank(s[|s| - 1])
  }

  lemma {:induction false} StripTrims(s: string)
    ensures Trimmed(Strip(s))
    ensures forall c <- Strip(s) :: c in s
    ensures Trimmed(s) ==> Strip(s) == s
  {
    LeftStripTrims(s);
    RightStripTrims(LeftStrip(s));
  }

  lemma {:induction false} LeftStripTrims(s: string)
    ensures var r := LeftStrip(s); (r != "" ==> !Blank(r[0])) && forall c <- r :: c in s
    decreases |s|
  {
    if s != "" && Blank(s[0]) {
      LeftStripTrims(s[1..]);
    }
  }

  lemma {:induction false} RightStripTrims(s: string)
    ensures var r := RightStrip(s); (r != "" ==> !Blank(r[|r| - 1])) && r <= s
    decreases |s|
  {
    if s != "" && Blank(s[|s| - 1]) {
      RightStripTrims(s[..|s| - 1]);
    }
  }

  // ---------------------------------------------------------------- numbers

  predicate IsDigit(c: char) {
    '0' <= c <= '9'
  }

  function Digit(d: nat): (c: char)
    requires d < 10
    ensures IsDigit(c)
  {
    (d + 48) as char
  }

  /** `str` of a natural number: digits only, and no leading zero but for zero itself. */
  function Decimal(n: nat): (s: string)
    ensures s != "" && forall c <- s :: IsDigit(c)
    ensures s[0] == '0' <==> n == 0
    ensures n < 10 ==> |s| == 1
  {
    if n < 10 then [Digit(n)] else Decimal(n / 10) + [Digit(n % 10)]
  }

  /** The value of a run of decimal digits. */
  function DecimalValue(s: string): nat
    requires forall c <- s :: IsDigit(c)
  {
    if s == "" then 0
    else
      assert IsDigit(s[|s| - 1]);
      10 * DecimalValue(s[..|s| - 1]) + (s[|s| - 1] as int - 48)
  }

  lemma {:induction false} DecimalReads(n: nat)
    ensures DecimalValue(Decimal(n)) == n
    decreases n
  {
    var s := Decimal(n);
    if n < 10 {
      assert s[..0] == "";
    } else {
      DecimalReads(n / 10);
      assert s[..|s| - 1] == Decimal(n / 10);
    }
  }
}

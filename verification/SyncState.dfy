/** The /sync key as text: writing a set of standby names and reading it back. */
module SyncState {
  import opened Options
  import opened Text

  datatype SyncState = SyncState(version: Option<nat>, leader: Option<string>, syncStandby: Option<string>)

  /** `is_empty`: no leader. */
  predicate IsEmpty(s: SyncState) {
    s.leader == None || s.leader.value == ""
  }

  /** `_str_to_list`: comma separated, stripped, blanks dropped. */
  function StrToList(value: string): seq<string> {
    Cleaned(Split(value, ','))
  }

  function Cleaned(pieces: seq<string>): seq<string> {
    if pieces == [] then []
    else
      var head := Strip(pieces[0]);
      (if head == "" then [] else [head]) + Cleaned(pieces[1..])
  }

  function Members(s: SyncState): seq<string> {
    if !IsEmpty(s) && s.syncStandby.Some? && s.syncStandby.value != "" then StrToList(s.syncStandby.value) else []
  }

  function StandbyText(s: SyncState): string {
    if s.syncStandby.Some? then s.syncStandby.value else ""
  }

  /** The text `matches` searches, and the names it stands for. */
  function SearchText(s: SyncState, checkLeader: bool): string
    requires !IsEmpty(s)
  {
    StandbyText(s) + if checkLeader then "," + s.leader.value else ""
  }

  predicate Matches(s: SyncState, name: string, checkLeader: bool) {
    name != "" && !IsEmpty(s) && Lower(name) in StrToList(Lower(SearchText(s, checkLeader)))
  }

  predicate LeaderMatches(s: SyncState, name: string) {
    name != "" && !IsEmpty(s) && Lower(name) == Lower(s.leader.value)
  }

  // ---------------------------------------------------------------- writing

  predicate Precedes(a: string, b: string) {
    a == "" || (b != "" && (a[0] < b[0] || (a[0] == b[0] && Precedes(a[1..], b[1..]))))
  }

  function Insert(x: string, xs: seq<string>): (r: seq<string>)
    ensures multiset(r) == multiset(xs) + multiset{x}
  {
    if xs == [] then [x]
    else if Precedes(x, xs[0]) then [x] + xs
    else
      assert xs == [xs[0]] + xs[1..];
      [xs[0]] + Insert(x, xs[1..])
  }

  /** `sorted`. */
  function Sorted(xs: seq<string>): (r: seq<string>)
    ensures multiset(r) == multiset(xs)
  {
    if xs == [] then []
    else
      assert xs == [xs[0]] + xs[1..];
      Insert(xs[0], Sorted(xs[1..]))
  }

  /** `write_sync_state`, when the store accepted the value under `version`. */
  function Written(version: nat, leader: string, standbys: seq<string>): SyncState {
    SyncState(Some(version), Some(leader), if standbys == [] then None else Some(Join(Sorted(standbys), ',')))
  }

  // ---------------------------------------------------------------- laws

  /** A name that survives the text form: not empty, no comma, no blank at either end. */
  predicate Clean(name: string) {
    name != "" && ',' !in name && Trimmed(name)
  }

  lemma {:induction false} CleanedKeeps(pieces: seq<string>)
    requires forall p <- pieces :: Clean(p)
    ensures Cleaned(pieces) == pieces
    decreases |pieces|
  {
    if pieces != [] {
      assert Clean(pieces[0]);
      StripTrims(pieces[0]);
      CleanedKeeps(pieces[1..]);
      assert [pieces[0]] + pieces[1..] == pieces;
    }
  }

  lemma {:induction false} CleanedIsClean(pieces: seq<string>)
    requires forall p <- pieces :: ',' !in p
    ensures forall p <- Cleaned(pieces) :: Clean(p)
    decreases |pieces|
  {
    if pieces != [] {
      var head := Strip(pieces[0]);
      StripTrims(pieces[0]);
      CleanedIsClean(pieces[1..]);
      forall p | p in Cleaned(pieces) ensures Clean(p) {
        assert pieces[0] in pieces && ',' !in head;
        assert p == head != "" || p in Cleaned(pieces[1..]);
      }
    }
  }

  lemma SameElements(xs: seq<string>, ys: seq<string>, s: string)
    requires multiset(xs) == multiset(ys)
    ensures s in xs <==> s in ys
  {
    assert s in multiset(xs) <==> s in xs;
    assert s in multiset(ys) <==> s in ys;
  }

  lemma SortedKeeps(names: seq<string>)
    requires forall n <- names :: Clean(n)
    ensures forall n <- Sorted(names) :: Clean(n)
    ensures |Sorted(names)| == |names|
  {
    forall n | n in Sorted(names) ensures Clean(n) {
      SameElements(Sorted(names), names, n);
    }
    assert |multiset(names)| == |names| && |multiset(Sorted(names))| == |Sorted(names)|;
  }

  lemma ReadBack(version: nat, leader: string, names: seq<string>)
    requires leader != "" && forall n <- names :: Clean(n)
    ensures Members(Written(version, leader, names)) == if names == [] then [] else Sorted(names)
    ensures InOrder(Members(Written(version, leader, names)))
  {
    SortedInOrder(names);
    SortedKeeps(names);
    if names != [] {
      SplitJoin(Sorted(names), ',');
      CleanedKeeps(Sorted(names));
      assert Join(Sorted(names), ',') != "" by {
        assert Clean(Sorted(names)[0]);
      }
    }
  }

  /** Writing a set of names and reading it back gives the same set exactly when every name is
      clean. */
  lemma RoundTripIff(version: nat, leader: string, names: seq<string>)
    requires leader != ""
    ensures (forall n :: n in Members(Written(version, leader, names)) <==> n in names)
            <==> (forall n <- names :: Clean(n))
  {
    var s := Written(version, leader, names);
    if forall n <- names :: Clean(n) {
      ReadBack(version, leader, names);
      forall n: string ensures n in Members(s) <==> n in names {
        SameElements(Sorted(names), names, n);
      }
    } else {
      var n :| n in names && !Clean(n);
      CleanedIsClean(Split(StandbyText(s), ','));
      assert n !in Members(s);
    }
  }

  function LowerAll(names: seq<string>): (r: seq<string>)
    ensures |r| == |names| && forall i :: 0 <= i < |r| ==> r[i] == Lower(names[i])
  {
    if names == [] then [] else [Lower(names[0])] + LowerAll(names[1..])
  }

  lemma {:induction false} LowerJoin(names: seq<string>)
    ensures Lower(Join(names, ',')) == Join(LowerAll(names), ',')
    decreases |names|
  {
    if |names| <= 1 {
      assert LowerAll(names) == if names == [] then [] else [Lower(names[0])];
    } else {
      var rest := Join(names[1..], ',');
      calc {
        Lower(Join(names, ','));
        { LowerConcat(names[0] + [','], rest); LowerConcat(names[0], [',']); }
        Lower(names[0]) + Lower([',']) + Lower(rest);
        { LowerJoin(names[1..]); assert Lower([',']) == [',']; }
        Lower(names[0]) + [','] + Join(LowerAll(names[1..]), ',');
        { assert LowerAll(names)[1..] == LowerAll(names[1..]); }
        Join(LowerAll(names), ',');
      }
    }
  }

  // ---------------------------------------------------------------- searching

  /** A name the search can deal with: clean, or empty and then dropped. */
  predicate Searchable(name: string) {
    name == "" || Clean(name)
  }

  function NonEmpty(names: seq<string>): (r: seq<string>)
    ensures forall n :: n in r <==> n in names && n != ""
  {
    if names == [] then []
    else
      assert forall n :: n in names <==> n == names[0] || n in names[1..];
      (if names[0] == "" then [] else [names[0]]) + NonEmpty(names[1..])
  }

  lemma {:induction false} CleanedDropsEmpty(pieces: seq<string>)
    requires forall p <- pieces :: Searchable(p)
    ensures Cleaned(pieces) == NonEmpty(pieces)
    decreases |pieces|
  {
    if pieces != [] {
      assert Searchable(pieces[0]);
      StripTrims(pieces[0]);
      CleanedDropsEmpty(pieces[1..]);
    }
  }

  lemma CleanLower(name: string)
    ensures Clean(Lower(name)) <==> Clean(name)
  {
    if ',' in name {
      var i :| 0 <= i < |name| && name[i] == ',';
      assert Lower(name)[i] == ',';
    }
  }

  /** Lower-casing the joined text and splitting it gives the lower-cased names. */
  lemma ListOfLower(names: seq<string>)
    requires names != [] && forall n <- names :: Searchable(n)
    ensures StrToList(Lower(Join(names, ','))) == NonEmpty(LowerAll(names))
  {
    forall p | p in LowerAll(names) ensures Searchable(p) && ',' !in p {
      var i :| 0 <= i < |names| && p == Lower(names[i]);
      assert Searchable(names[i]);
      CleanLower(names[i]);
    }
    LowerJoin(names);
    SplitJoin(LowerAll(names), ',');
    CleanedDropsEmpty(LowerAll(names));
  }

  function Searched(s: SyncState, listed: seq<string>, checkLeader: bool): seq<string>
    requires !IsEmpty(s)
  {
    if checkLeader then listed + [s.leader.value] else listed
  }

  lemma SearchList(s: SyncState, listed: seq<string>, checkLeader: bool)
    requires !IsEmpty(s) && StandbyText(s) == Join(listed, ',')
    requires forall n <- Searched(s, listed, checkLeader) :: Searchable(n)
    ensures StrToList(Lower(SearchText(s, checkLeader))) == NonEmpty(LowerAll(Searched(s, listed, checkLeader)))
  {
    if listed != [] && checkLeader {
      JoinSnoc(listed, s.leader.value);
      assert SearchText(s, checkLeader) == Join(Searched(s, listed, checkLeader), ',');
      ListOfLower(Searched(s, listed, checkLeader));
    } else if listed != [] {
      assert SearchText(s, checkLeader) == Join(listed, ',');
      ListOfLower(listed);
    } else if checkLeader {
      LeaderAlone(s.leader.value);
      assert SearchText(s, checkLeader) == Join(["", s.leader.value], ',');
      assert Searched(s, listed, checkLeader) == [s.leader.value];
    } else {
      assert Split("", ',') == [""];
    }
  }

  lemma LeaderAlone(leader: string)
    requires Searchable(leader)
    ensures StrToList(Lower(Join(["", leader], ','))) == NonEmpty(LowerAll([leader]))
  {
    ListOfLower(["", leader]);
    assert ["", leader][1..] == [leader];
    assert LowerAll(["", leader]) == [""] + LowerAll([leader]);
    assert (([""] + LowerAll([leader])))[1..] == LowerAll([leader]);
  }

  lemma {:induction false} JoinSnoc(names: seq<string>, last: string)
    requires names != []
    ensures Join(names + [last], ',') == Join(names, ',') + "," + last
    decreases |names|
  {
    if |names| == 1 {
      assert (names + [last])[1..] == [last];
    } else {
      assert (names + [last])[1..] == names[1..] + [last];
      JoinSnoc(names[1..], last);
    }
  }

  ghost predicate SameWord(names: seq<string>, name: string) {
    exists n <- names :: Lower(n) == Lower(name)
  }

  lemma Found(names: seq<string>, name: string)
    ensures Lower(name) in NonEmpty(LowerAll(names)) <==> name != "" && SameWord(names, name)
  {
    if n :| n in names && Lower(n) == Lower(name) {
      var i :| 0 <= i < |names| && names[i] == n;
      assert LowerAll(names)[i] == Lower(name);
    }
    assert |Lower(name)| == |name|;
  }

  /** Case-insensitive membership, with the leader included on request. */
  ghost predicate Listed(leader: string, names: seq<string>, name: string, checkLeader: bool) {
    name != "" && (SameWord(names, name) || (checkLeader && Lower(leader) == Lower(name)))
  }

  lemma SameWordAppended(names: seq<string>, last: string, name: string)
    ensures SameWord(names + [last], name) <==> SameWord(names, name) || Lower(last) == Lower(name)
  {
    if SameWord(names, name) {
      var n :| n in names && Lower(n) == Lower(name);
      assert n in names + [last];
    }
    assert last in names + [last];
  }

  lemma SameWordSorted(names: seq<string>, name: string)
    ensures SameWord(Sorted(names), name) <==> SameWord(names, name)
  {
    forall n: string ensures n in Sorted(names) <==> n in names {
      SameElements(Sorted(names), names, n);
    }
  }

  lemma SearchedAreSearchable(s: SyncState, names: seq<string>, checkLeader: bool)
    requires !IsEmpty(s) && (checkLeader ==> Clean(s.leader.value)) && forall n <- names :: Searchable(n)
    ensures forall n <- Searched(s, Sorted(names), checkLeader) :: Searchable(n)
  {
    forall n | n in Searched(s, Sorted(names), checkLeader) ensures Searchable(n) {
      SameElements(Sorted(names), names, n);
    }
  }

  lemma MatchesIsMembership(version: nat, leader: string, names: seq<string>, name: string, checkLeader: bool)
    requires leader != "" && (checkLeader ==> Clean(leader)) && forall n <- names :: Searchable(n)
    ensures Matches(Written(version, leader, names), name, checkLeader) <==> Listed(leader, names, name, checkLeader)
  {
    var s := Written(version, leader, names);
    SearchedAreSearchable(s, names, checkLeader);
    assert StandbyText(s) == Join(Sorted(names), ',') by {
      assert |multiset(Sorted(names))| == |multiset(names)|;
    }
    SearchList(s, Sorted(names), checkLeader);
    Found(Searched(s, Sorted(names), checkLeader), name);
    SameWordSorted(names, name);
    SameWordAppended(Sorted(names), leader, name);
  }

  /** A name with a comma or with blanks at an end is never found. */
  lemma UncleanNeverMatches(s: SyncState, name: string, checkLeader: bool)
    requires !Clean(name)
    ensures !Matches(s, name, checkLeader)
  {
    if name != "" && !IsEmpty(s) {
      CleanLower(name);
      CleanedIsClean(Split(Lower(SearchText(s, checkLeader)), ','));
    }
  }

  /** `matches` is that membership for every name exactly when all names searched are clean, empty
      ones aside. */
  lemma MatchesIsMembershipIff(version: nat, leader: string, names: seq<string>, checkLeader: bool)
    requires leader != ""
    ensures (forall name :: Matches(Written(version, leader, names), name, checkLeader) <==> Listed(leader, names, name, checkLeader))
            <==> (forall n <- names :: Searchable(n)) && (checkLeader ==> Clean(leader))
  {
    var s := Written(version, leader, names);
    if (forall n <- names :: Searchable(n)) && (checkLeader ==> Clean(leader)) {
      forall name: string ensures Matches(s, name, checkLeader) <==> Listed(leader, names, name, checkLeader) {
        MatchesIsMembership(version, leader, names, name, checkLeader);
      }
    } else if checkLeader && !Clean(leader) {
      UncleanNeverMatches(s, leader, checkLeader);
      assert Listed(leader, names, leader, checkLeader);
    } else {
      var n :| n in names && !Searchable(n);
      UncleanNeverMatches(s, n, checkLeader);
      assert SameWord(names, n);
      assert Listed(leader, names, n, checkLeader);
    }
  }

  /** `leader_matches` is equality with the written leader, whatever the case. */
  lemma LeaderMatchesIff(version: nat, leader: string, names: seq<string>, name: string)
    requires leader != ""
    ensures LeaderMatches(Written(version, leader, names), name) <==>
            |name| == |leader| && forall i :: 0 <= i < |name| ==> SameLetter(name[i], leader[i])
  {
    SameLetters(name, leader);
  }

  // ---------------------------------------------------------------- order

  /** Alphabetical order: a is a beginning of b, or smaller at the first difference. */
  lemma {:induction false} PrecedesIff(a: string, b: string)
    ensures Precedes(a, b) <==>
            a <= b || exists k :: 0 <= k < |a| && k < |b| && a[..k] == b[..k] && a[k] < b[k]
    decreases |a|
  {
    if a != "" && b != "" {
      if a[0] == b[0] {
        PrecedesIff(a[1..], b[1..]);
        if a <= b {
          assert a[1..] <= b[1..];
        } else if k :| 0 <= k < |a| && k < |b| && a[..k] == b[..k] && a[k] < b[k] {
          assert a[1..][..k - 1] == a[..k][1..] && b[1..][..k - 1] == b[..k][1..];
        }
        if a[1..] <= b[1..] {
          assert a == [a[0]] + a[1..] && b == [b[0]] + b[1..];
        } else if k :| 0 <= k < |a[1..]| && k < |b[1..]| && a[1..][..k] == b[1..][..k] && a[1..][k] < b[1..][k] {
          assert a[..k + 1] == [a[0]] + a[1..][..k] && b[..k + 1] == [b[0]] + b[1..][..k];
        }
      } else if a[0] < b[0] {
        assert a[..0] == b[..0];
      }
    }
  }

  lemma {:induction false} PrecedesTotal(a: string, b: string)
    ensures Precedes(a, b) || Precedes(b, a)
    decreases |a|
  {
    if a != "" && b != "" && a[0] == b[0] {
      PrecedesTotal(a[1..], b[1..]);
    }
  }

  lemma {:induction false} PrecedesTransitive(a: string, b: string, c: string)
    requires Precedes(a, b) && Precedes(b, c)
    ensures Precedes(a, c)
    decreases |a|
  {
    if a != "" && a[0] == b[0] == c[0] {
      PrecedesTransitive(a[1..], b[1..], c[1..]);
    }
  }

  ghost predicate InOrder(xs: seq<string>) {
    forall i, j :: 0 <= i < j < |xs| ==> Precedes(xs[i], xs[j])
  }

  lemma {:induction false} InsertInOrder(x: string, xs: seq<string>)
    requires InOrder(xs)
    ensures InOrder(Insert(x, xs))
    decreases |xs|
  {
    if xs != [] {
      if Precedes(x, xs[0]) {
        forall j | 0 <= j < |xs| ensures Precedes(x, xs[j]) {
          if j > 0 { PrecedesTransitive(x, xs[0], xs[j]); }
        }
      } else {
        PrecedesTotal(x, xs[0]);
        InsertInOrder(x, xs[1..]);
        var rest := Insert(x, xs[1..]);
        forall y | y in rest ensures Precedes(xs[0], y) {
          assert y in multiset(rest);
          assert y == x || y in xs[1..];
        }
      }
    }
  }

  lemma {:induction false} SortedInOrder(xs: seq<string>)
    ensures InOrder(Sorted(xs))
    decreases |xs|
  {
    if xs != [] {
      SortedInOrder(xs[1..]);
      InsertInOrder(xs[0], Sorted(xs[1..]));
    }
  }
}

/** Cascading replication: which slot connects a node to the primary, and who needs feedback. */
module ReplicationSlots {
  import opened Options
  import opened Text

  datatype Member = Member(name: string, replicatefrom: Option<string>, nostream: bool)

  datatype Cluster = Cluster(members: seq<Member>, leader: Option<string>)

  predicate HasMember(c: Cluster, name: string) {
    exists m <- c.members :: m.name == name
  }

  /** `get_member` without fallback: the first member of that name. */
  function GetMember(members: seq<Member>, name: string): (r: Option<Member>)
    ensures r.Some? ==> r.value in members && r.value.name == name
    ensures r == None ==> forall m <- members :: m.name != name
  {
    if members == [] then None
    else if members[0].name == name then Some(members[0])
    else GetMember(members[1..], name)
  }

  // ---------------------------------------------------------------- slot names

  predicate SlotChar(c: char) {
    'a' <= c <= 'z' || '0' <= c <= '9' || c == '_'
  }

  function Padded(digits: string): string {
    if |digits| < 4 then seq(4 - |digits|, _ => '0') + digits else digits
  }

  function SlotPiece(c: char): (s: string)
    ensures s != "" && forall x <- s :: SlotChar(x)
  {
    if SlotChar(c) then [c]
    else if c == '-' || c == '.' then "_"
    else "u" + Padded(Decimal(c as int))
  }

  function SlotText(name: string): (s: string)
    ensures forall x <- s :: SlotChar(x)
    ensures |name| <= |s|
  {
    if name == "" then "" else SlotPiece(name[0]) + SlotText(name[1..])
  }

  /** `slot_name_from_member_name`: always acceptable to PostgreSQL. */
  function SlotName(name: string): (s: string)
    ensures |s| <= 63 && forall x <- s :: SlotChar(x)
    ensures s == "" <==> name == ""
  {
    var text := SlotText(Lower(name));
    if |text| <= 63 then text else text[..63]
  }

  lemma {:induction false} SlotTextFixed(s: string)
    requires forall x <- s :: SlotChar(x)
    ensures Lower(s) == s && SlotText(s) == s
    decreases |s|
  {
    forall i | 0 <= i < |s| ensures LowerChar(s[i]) == s[i] {
      assert s[i] in s;
    }
    if s != "" {
      assert s[0] in s;
      SlotTextFixed(s[1..]);
      assert [s[0]] + s[1..] == s;
    }
  }

  /** A slot name, taken as a member name, is its own slot name. */
  lemma SlotNameIsStable(name: string)
    ensures SlotName(SlotName(name)) == SlotName(name)
  {
    SlotTextFixed(SlotName(name));
  }

  lemma Regroup(a: string, b: string, c: string)
    ensures a + (b + c) == (a + b) + c
  {
  }

  lemma CutOnce(s: string, t: string, bound: nat)
    ensures
      var u, v := if |s| <= bound then s else s[..bound], if |t| <= bound then t else t[..bound];
      (if |s + t| <= bound then s + t else (s + t)[..bound]) == if |u + v| <= bound then u + v else (u + v)[..bound]
  {
  }

  lemma {:induction false} SlotTextConcat(a: string, b: string)
    ensures SlotText(a + b) == SlotText(a) + SlotText(b)
    decreases |a|
  {
    if a == "" {
      assert a + b == b;
    } else {
      assert (a + b)[1..] == a[1..] + b;
      SlotTextConcat(a[1..], b);
      Regroup(SlotPiece(a[0]), SlotText(a[1..]), SlotText(b));
    }
  }

  /** A name is translated character by character, and cut at 63. */
  lemma SlotNameConcat(a: string, b: string)
    ensures
      var both := SlotName(a) + SlotName(b);
      SlotName(a + b) == if |both| <= 63 then both else both[..63]
  {
    LowerConcat(a, b);
    SlotTextConcat(Lower(a), Lower(b));
    CutOnce(SlotText(Lower(a)), SlotText(Lower(b)), 63);
  }

  lemma {:induction false} LeadingZeros(zeros: string, digits: string)
    requires (forall c <- zeros :: c == '0') && forall c <- digits :: IsDigit(c)
    ensures (forall c <- zeros + digits :: IsDigit(c)) && DecimalValue(zeros + digits) == DecimalValue(digits)
    decreases |zeros|, |digits|
  {
    if digits != "" {
      var last := |digits| - 1;
      assert forall c <- digits[..last] :: c in digits;
      LeadingZeros(zeros, digits[..last]);
      assert (zeros + digits)[..|zeros| + last] == zeros + digits[..last];
    } else if zeros != "" {
      var last := |zeros| - 1;
      assert forall c <- zeros[..last] :: c in zeros;
      LeadingZeros(zeros[..last], "");
      assert (zeros + "")[..last] == zeros[..last] + "" && zeros[last] in zeros;
    }
  }

  lemma {:induction false} ShortDecimal(n: nat, bound: nat, width: nat)
    requires n < bound && bound == Tens(width) && width > 0
    ensures |Decimal(n)| <= width
    decreases width
  {
    if n >= 10 {
      ShortDecimal(n / 10, Tens(width - 1), width - 1);
    }
  }

  function Tens(width: nat): nat {
    if width == 0 then 1 else 10 * Tens(width - 1)
  }

  /** The code of a character with at least four digits reads back as that code. */
  lemma PaddedReads(n: nat)
    requires n < 10000000
    ensures
      var s := Padded(Decimal(n));
      4 <= |s| <= 7 && (forall d <- s :: IsDigit(d)) && DecimalValue(s) == n
  {
    var digits := Decimal(n);
    assert Tens(7) == 10000000 by { assert Tens(4) == 10000; }
    ShortDecimal(n, 10000000, 7);
    DecimalReads(n);
    if |digits| < 4 {
      var zeros := seq(4 - |digits|, _ => '0');
      LeadingZeros(zeros, digits);
    }
  }

  /** What a single character becomes: itself, its lower case, an underscore for a dash or a dot, and
      otherwise the letter u with at least four digits of its code. */
  lemma SlotNameOfCharacter(c: char)
    ensures
      var s := SlotName([c]);
      if 'a' <= c <= 'z' || '0' <= c <= '9' || c == '_' then s == [c]
      else if 'A' <= c <= 'Z' then s == [(c as int + 32) as char]
      else if c == '-' || c == '.' then s == "_"
      else |s| >= 5 && s[0] == 'u' && (forall d <- s[1..] :: IsDigit(d)) && DecimalValue(s[1..]) == c as int
  {
    var l := LowerChar(c);
    assert Lower([c]) == [l];
    assert SlotText([l]) == SlotPiece(l) by {
      assert [l][1..] == "" && SlotPiece(l) + "" == SlotPiece(l);
    }
    if !SlotChar(l) && c != '-' && c != '.' {
      PaddedReads(c as int);
      assert SlotPiece(l)[1..] == Padded(Decimal(c as int));
    }
  }

  // ---------------------------------------------------------------- the chain up to the primary

  /** replicatefrom edges do not form a cycle: every edge goes to a smaller rank. */
  ghost predicate Acyclic(c: Cluster, rank: string -> nat) {
    forall m <- c.members :: Descends(m, rank)
  }

  ghost predicate Descends(m: Member, rank: string -> nat) {
    m.replicatefrom.Some? ==> rank(m.replicatefrom.value) < rank(m.name)
  }

  function Parent(c: Cluster, m: Member): (p: Option<Member>)
    ensures p.Some? ==> p.value in c.members
  {
    if m.replicatefrom.Some? && m.replicatefrom.value != "" then GetMember(c.members, m.replicatefrom.value) else None
  }

  function GetSlotNameOnPrimary(c: Cluster, m: Member, ghost rank: string -> nat): Option<string>
    requires Acyclic(c, rank) && Descends(m, rank)
    decreases rank(m.name)
  {
    if m.nostream then None
    else match Parent(c, m)
      case Some(p) => GetSlotNameOnPrimary(c, p, rank)
      case None => Some(SlotName(m.name))
  }

  /** The chain from m upwards: m, its parent, and so on to the member without a known parent. */
  ghost function Chain(c: Cluster, m: Member, rank: string -> nat): (chain: seq<Member>)
    requires Acyclic(c, rank) && Descends(m, rank)
    ensures chain != [] && chain[0] == m
    ensures Parent(c, chain[|chain| - 1]) == None
    ensures forall i :: 0 <= i < |chain| - 1 ==> Parent(c, chain[i]) == Some(chain[i + 1])
    decreases rank(m.name)
  {
    match Parent(c, m)
    case Some(p) => [m] + Chain(c, p, rank)
    case None => [m]
  }

  ghost function Top(c: Cluster, m: Member, rank: string -> nat): Member
    requires Acyclic(c, rank) && Descends(m, rank)
  {
    var chain := Chain(c, m, rank);
    chain[|chain| - 1]
  }

  /** Streaming is disabled somewhere along the chain. */
  ghost predicate Cut(chain: seq<Member>) {
    exists x <- chain :: x.nostream
  }

  lemma CutAbove(m: Member, rest: seq<Member>)
    ensures Cut([m] + rest) <==> m.nostream || Cut(rest)
  {
    assert m in [m] + rest;
    assert forall x <- rest :: x in [m] + rest;
  }

  lemma TopAbove(c: Cluster, m: Member, p: Member, rank: string -> nat)
    requires Acyclic(c, rank) && Descends(m, rank) && Parent(c, m) == Some(p)
    ensures Chain(c, m, rank) == [m] + Chain(c, p, rank) && Top(c, m, rank) == Top(c, p, rank)
  {
  }

  /** The answer is the slot of the node at the top of the chain, or nothing when streaming is
      disabled anywhere along it. */
  lemma {:induction false} SlotOfTop(c: Cluster, m: Member, rank: string -> nat)
    requires Acyclic(c, rank) && Descends(m, rank)
    ensures GetSlotNameOnPrimary(c, m, rank) ==
      if Cut(Chain(c, m, rank)) then None else Some(SlotName(Top(c, m, rank).name))
    decreases rank(m.name)
  {
    match Parent(c, m) {
      case Some(p) =>
        SlotOfTop(c, p, rank);
        TopAbove(c, m, p, rank);
        CutAbove(m, Chain(c, p, rank));
      case None =>
        assert Chain(c, m, rank) == [m] + [];
        CutAbove(m, []);
    }
  }

  // ---------------------------------------------------------------- the slots a node keeps

  datatype Role = Primary | StandbyLeader | Replica

  /** The members that source from node `name`, as `_get_members_slots` filters them. */
  predicate Sources(c: Cluster, name: string, role: Role, m: Member) {
    && m in c.members && m.name != name && !m.nostream
    && if role == Replica then m.replicatefrom == Some(name) && Some(m.name) != c.leader
       else m.replicatefrom == None || m.replicatefrom == Some(name) || !HasMember(c, m.replicatefrom.value)
  }

  function GetMembersSlots(c: Cluster, name: string, role: Role, useSlots: bool): set<string> {
    if useSlots then set m | m in c.members && Sources(c, name, role, m) :: SlotName(m.name) else {}
  }

  ghost predicate Proper(c: Cluster) {
    && (forall m <- c.members :: m.name != "")
    && (forall m <- c.members, n <- c.members :: m.name == n.name ==> m == n)
  }

  /** The top of a chain sources from the primary unless it is the primary. */
  lemma TopSources(c: Cluster, m: Member, rank: string -> nat, primary: string)
    requires Acyclic(c, rank) && Proper(c) && m in c.members
    requires !Cut(Chain(c, m, rank))
    requires Top(c, m, rank).name != primary
    ensures Sources(c, primary, Primary, Top(c, m, rank))
  {
    var chain := Chain(c, m, rank);
    var top := Top(c, m, rank);
    if |chain| > 1 {
      assert Parent(c, chain[|chain| - 2]) == Some(top);
    }
    assert Parent(c, top) == None;
  }

  /** The slot a member relies on is one that the primary keeps; when slot names do not collide,
      this holds exactly if the chain does not end at the primary itself. */
  lemma SlotIsKeptIff(c: Cluster, m: Member, rank: string -> nat, primary: string)
    requires Acyclic(c, rank) && Proper(c) && m in c.members
    requires !Cut(Chain(c, m, rank))
    ensures
      var slot := GetSlotNameOnPrimary(c, m, rank);
      && slot.Some?
      && (Top(c, m, rank).name != primary ==> slot.value in GetMembersSlots(c, primary, Primary, true))
      && (NoCollision(c) && slot.value in GetMembersSlots(c, primary, Primary, true) ==> Top(c, m, rank).name != primary)
  {
    SlotOfTop(c, m, rank);
    var chain := Chain(c, m, rank);
    var top := Top(c, m, rank);
    assert top in chain;
    if top.name != primary {
      TopSources(c, m, rank, primary);
    }
    if |chain| > 1 {
      assert Parent(c, chain[|chain| - 2]) == Some(top);
    }
    assert top in c.members;
  }

  ghost predicate NoCollision(c: Cluster) {
    forall m <- c.members, n <- c.members :: SlotName(m.name) == SlotName(n.name) ==> m == n
  }

  // ---------------------------------------------------------------- hot_standby_feedback

  /** `should_enforce_hot_standby_feedback`; whether a node has permanent logical slots of its own
      is a parameter, ranks are bounded by `bound`. */
  predicate ShouldEnforceFeedback(c: Cluster, m: Member, logical: Member -> bool, useSlots: bool,
                                  ghost rank: string -> nat, ghost bound: nat)
    requires Acyclic(c, rank) && rank(m.name) <= bound && forall x <- c.members :: rank(x.name) <= bound
    decreases bound - rank(m.name)
  {
    || logical(m)
    || (useSlots && exists x <- c.members :: Cascades(c, m, x) && ShouldEnforceFeedback(c, x, logical, useSlots, rank, bound))
  }

  /** x replicates from m and is not the leader. */
  predicate Cascades(c: Cluster, m: Member, x: Member)
    ensures Cascades(c, m, x) ==> x.replicatefrom == Some(m.name)
  {
    x.replicatefrom == Some(m.name) && Some(x.name) != c.leader
  }

  /** A walk down replicatefrom edges through members that are not the leader. */
  ghost predicate Walk(c: Cluster, m: Member, path: seq<Member>)
    decreases |path|
  {
    path == [] || (path[0] in c.members && Cascades(c, m, path[0]) && Walk(c, path[0], path[1..]))
  }

  ghost function End(m: Member, path: seq<Member>): Member {
    if path == [] then m else path[|path| - 1]
  }

  lemma {:induction false} WalkEnforces(c: Cluster, m: Member, logical: Member -> bool, rank: string -> nat, bound: nat, path: seq<Member>)
    requires Acyclic(c, rank) && rank(m.name) <= bound && forall x <- c.members :: rank(x.name) <= bound
    requires Walk(c, m, path) && logical(End(m, path))
    ensures ShouldEnforceFeedback(c, m, logical, true, rank, bound)
    decreases |path|
  {
    if path != [] {
      assert End(path[0], path[1..]) == End(m, path);
      WalkEnforces(c, path[0], logical, rank, bound, path[1..]);
    }
  }

  lemma {:induction false} EnforcedWalk(c: Cluster, m: Member, logical: Member -> bool, rank: string -> nat, bound: nat) returns (path: seq<Member>)
    requires Acyclic(c, rank) && rank(m.name) <= bound && forall x <- c.members :: rank(x.name) <= bound
    requires ShouldEnforceFeedback(c, m, logical, true, rank, bound)
    ensures Walk(c, m, path) && logical(End(m, path))
    decreases bound - rank(m.name)
  {
    if logical(m) {
      return [];
    }
    var x :| x in c.members && Cascades(c, m, x) && ShouldEnforceFeedback(c, x, logical, true, rank, bound);
    assert Descends(x, rank);
    var rest := EnforcedWalk(c, x, logical, rank, bound);
    path := [x] + rest;
    assert path[1..] == rest;
  }

  /** Feedback is enforced exactly when this node, or with slots in use some node it feeds through
      any number of non-leaders, has permanent logical slots. */
  lemma FeedbackIff(c: Cluster, m: Member, logical: Member -> bool, useSlots: bool, rank: string -> nat, bound: nat)
    requires Acyclic(c, rank) && rank(m.name) <= bound && forall x <- c.members :: rank(x.name) <= bound
    ensures ShouldEnforceFeedback(c, m, logical, useSlots, rank, bound) <==>
      logical(m) || (useSlots && exists path :: Walk(c, m, path) && logical(End(m, path)))
  {
    if useSlots {
      if ShouldEnforceFeedback(c, m, logical, true, rank, bound) {
        var path := EnforcedWalk(c, m, logical, rank, bound);
      }
      if path :| Walk(c, m, path) && logical(End(m, path)) {
        WalkEnforces(c, m, logical, rank, bound, path);
      }
    }
  }

  // ---------------------------------------------------------------- what each node keeps

  /** The member m streams from, in terms of its tag. */
  lemma ParentMeans(c: Cluster, m: Member, p: Member)
    requires Proper(c)
    ensures Parent(c, m) == Some(p) <==> p in c.members && m.replicatefrom == Some(p.name)
  {
  }

  /** A node keeps a slot exactly for the other streaming members that source from it: on a replica
      those tagged with its name, the leader excepted; on a primary or standby leader those tagged
      with its name, with no name, or with that of nobody in the cluster. */
  lemma KeepsSlotIff(c: Cluster, name: string, role: Role, useSlots: bool, slot: string)
    ensures slot in GetMembersSlots(c, name, role, useSlots) <==>
      useSlots && exists m <- c.members ::
        && SlotName(m.name) == slot && m.name != name && !m.nostream
        && if role == Replica then m.replicatefrom == Some(name) && c.leader != Some(m.name)
           else m.replicatefrom.Some? && m.replicatefrom.value != name ==>
                  forall p <- c.members :: p.name != m.replicatefrom.value
  {
  }

  /** Every hop of a cascade is kept: the replica that a member streams from keeps its slot. */
  lemma SourceKeepsSlot(c: Cluster, m: Member, p: Member)
    requires Proper(c) && m in c.members && Parent(c, m) == Some(p) && m != p
    requires !m.nostream && c.leader != Some(m.name)
    ensures SlotName(m.name) in GetMembersSlots(c, p.name, Replica, true)
  {
    ParentMeans(c, m, p);
    assert Sources(c, p.name, Replica, m);
  }

  /** One hop is enough: a node feeds back for a non-leader that is tagged with its name and has
      permanent logical slots; without slots of its own and without such members it does not. */
  lemma FeedbackOneHop(c: Cluster, m: Member, logical: Member -> bool, useSlots: bool, rank: string -> nat, bound: nat)
    requires Acyclic(c, rank) && rank(m.name) <= bound && forall x <- c.members :: rank(x.name) <= bound
    ensures useSlots && (exists x <- c.members :: x.replicatefrom == Some(m.name) && c.leader != Some(x.name) && logical(x)) ==>
              ShouldEnforceFeedback(c, m, logical, useSlots, rank, bound)
    ensures !logical(m) && (!useSlots || forall x <- c.members :: x.replicatefrom == Some(m.name) ==> c.leader == Some(x.name)) ==>
              !ShouldEnforceFeedback(c, m, logical, useSlots, rank, bound)
  {
    if x :| x in c.members && x.replicatefrom == Some(m.name) && c.leader != Some(x.name) && logical(x) {
      assert Cascades(c, m, x) && Descends(x, rank);
      assert useSlots ==> ShouldEnforceFeedback(c, x, logical, useSlots, rank, bound);
    }
  }
}

/** What the indented tree shows, and what it leaves out. */
module TopologyFacts {
  import opened Options
  import opened Topology

  // ---------------------------------------------------------------- climbing

  function ReplicaOf(ms: seq<Member>, name: string): (r: Option<Member>)
    ensures r.Some? ==> r.value in ms && !r.value.isLeader && r.value.name == name
    ensures r == None ==> forall m <- ms :: !m.isLeader ==> m.name != name
  {
    if ms == [] then None
    else if !ms[0].isLeader && ms[0].name == name then Some(ms[0])
    else ReplicaOf(ms[1..], name)
  }

  /** From a replica's name to the key it is filed under; the root leads nowhere. */
  function Up(ms: seq<Member>, key: Option<string>): Option<string> {
    if key.Some? && ReplicaOf(ms, key.value).Some? then ParentOf(ms, ReplicaOf(ms, key.value).value) else None
  }

  function Climb(ms: seq<Member>, key: Option<string>, steps: nat): Option<string>
    decreases steps
  {
    if steps == 0 then key else Climb(ms, Up(ms, key), steps - 1)
  }

  /** The root is reached from `key` after exactly `depth` steps, for the first time. */
  predicate Reaches(ms: seq<Member>, key: Option<string>, depth: nat)
    decreases depth
  {
    if key == Root(ms) then depth == 0
    else depth > 0 && key.Some? && ReplicaOf(ms, key.value).Some? && Reaches(ms, Up(ms, key), depth - 1)
  }

  /** Depth of a member below the leader. */
  predicate HasDepth(ms: seq<Member>, m: Member, depth: nat) {
    m in ms && Reaches(ms, Some(m.name), depth)
  }

  lemma {:induction false} DepthUnique(ms: seq<Member>, key: Option<string>, a: nat, b: nat)
    requires Reaches(ms, key, a) && Reaches(ms, key, b)
    ensures a == b
    decreases a
  {
    if key != Root(ms) {
      DepthUnique(ms, Up(ms, key), a - 1, b - 1);
    }
  }

  lemma {:induction false} ClimbUp(ms: seq<Member>, key: Option<string>, steps: nat)
    ensures Climb(ms, key, steps + 1) == Up(ms, Climb(ms, key, steps))
    decreases steps
  {
    if steps > 0 {
      ClimbUp(ms, Up(ms, key), steps - 1);
    }
  }

  lemma {:induction false} ClimbLowers(ms: seq<Member>, key: Option<string>, steps: nat, depth: nat)
    requires Reaches(ms, key, depth) && steps <= depth
    ensures Reaches(ms, Climb(ms, key, steps), depth - steps)
    decreases steps
  {
    if steps > 0 {
      ClimbLowers(ms, Up(ms, key), steps - 1, depth - 1);
    }
  }

  lemma UpOfReplica(ms: seq<Member>, m: Member)
    requires Proper(ms) && m in ms && !m.isLeader
    ensures ReplicaOf(ms, m.name) == Some(m) && Up(ms, Some(m.name)) == ParentOf(ms, m)
    ensures Root(ms) != Some(m.name)
  {
    Unique(ms, m, ReplicaOf(ms, m.name).value);
    RootIsLeader(ms);
  }

  // ---------------------------------------------------------------- rows are right

  predicate RowOk(ms: seq<Member>, row: Row) {
    row.text == Label(row.level, row.member.name) && HasDepth(ms, row.member, row.level)
  }

  /** Rows of a tree carry their true depth, and climb to the member at its top. */
  lemma {:induction false} TreeSound(ms: seq<Member>, level: nat, m: Member, key: Option<string>, path: set<string>)
    requires Proper(ms) && OnPath(ms, path, key) && AreFiled(ms, [m], key)
    requires level > 0 && Reaches(ms, key, level - 1)
    ensures HasDepth(ms, m, level)
    ensures forall row <- Tree(ms, level, m, key, path) ::
      RowOk(ms, row) && level <= row.level && Climb(ms, Some(row.member.name), row.level - level) == Some(m.name)
    decreases Names(ms) - path, 0, 0
  {
    assert m in [m];
    Descend(ms, path, key, m);
    UpOfReplica(ms, m);
    ChildrenIff(ms, Some(m.name));
    ForestSound(ms, level + 1, Children(ms, Some(m.name)), Some(m.name), path + {m.name});
    forall row | row in Forest(ms, level + 1, Children(ms, Some(m.name)), Some(m.name), path + {m.name})
      ensures Climb(ms, Some(row.member.name), row.level - level) == Some(m.name)
    {
      ClimbUp(ms, Some(row.member.name), row.level - level - 1);
    }
  }

  lemma {:induction false} ForestSound(ms: seq<Member>, level: nat, kids: seq<Member>, key: Option<string>, path: set<string>)
    requires Proper(ms) && OnPath(ms, path, key) && AreFiled(ms, kids, key)
    requires level > 0 && Reaches(ms, key, level - 1)
    ensures forall row <- Forest(ms, level, kids, key, path) ::
      && RowOk(ms, row) && level <= row.level
      && exists m <- kids :: Climb(ms, Some(row.member.name), row.level - level) == Some(m.name)
    ensures key.Some? ==> forall row <- Forest(ms, level, kids, key, path) ::
      Up(ms, Climb(ms, Some(row.member.name), row.level - level)) == key
    decreases Names(ms) - path, 1, |kids|
  {
    if kids != [] {
      var last := kids[|kids| - 1];
      ForestSound(ms, level, kids[..|kids| - 1], key, path);
      TreeSound(ms, level, last, key, path);
      UpOfReplica(ms, last);
      assert last in kids;
      forall row | row in Forest(ms, level, kids, key, path)
        ensures RowOk(ms, row) && level <= row.level
        ensures exists m <- kids :: Climb(ms, Some(row.member.name), row.level - level) == Some(m.name)
        ensures key.Some? ==> Up(ms, Climb(ms, Some(row.member.name), row.level - level)) == key
      {
        if row in Tree(ms, level, last, key, path) {
          assert Climb(ms, Some(row.member.name), row.level - level) == Some(last.name);
        } else {
          assert row in Forest(ms, level, kids[..|kids| - 1], key, path);
          var m :| m in kids[..|kids| - 1] && Climb(ms, Some(row.member.name), row.level - level) == Some(m.name);
          assert m in kids;
        }
      }
    }
  }

  // ---------------------------------------------------------------- nobody is missing

  /** With a member the output shows everything attached to it, one level further in. */
  predicate Closed(ms: seq<Member>, rows: seq<Row>, row: Row) {
    forall c <- Children(ms, Some(row.member.name)) :: exists r <- rows :: r.member == c && r.level == row.level + 1
  }

  lemma {:induction false} TreeClosed(ms: seq<Member>, level: nat, m: Member, key: Option<string>, path: set<string>)
    requires Proper(ms) && OnPath(ms, path, key) && AreFiled(ms, [m], key)
    ensures forall row <- Tree(ms, level, m, key, path) :: Closed(ms, Tree(ms, level, m, key, path), row)
    decreases Names(ms) - path, 0, 0
  {
    assert m in [m];
    Descend(ms, path, key, m);
    ChildrenIff(ms, Some(m.name));
    var kids := Children(ms, Some(m.name));
    var below := Forest(ms, level + 1, kids, Some(m.name), path + {m.name});
    ForestClosed(ms, level + 1, kids, Some(m.name), path + {m.name});
    var rows := Tree(ms, level, m, key, path);
    assert rows == [rows[0]] + below;
    forall row | row in rows ensures Closed(ms, rows, row) {
      forall c | c in Children(ms, Some(row.member.name)) ensures exists r <- rows :: r.member == c && r.level == row.level + 1 {
        var r :| r in below && r.member == c && r.level == row.level + 1;
        assert r in rows;
      }
    }
  }

  lemma {:induction false} ForestClosed(ms: seq<Member>, level: nat, kids: seq<Member>, key: Option<string>, path: set<string>)
    requires Proper(ms) && OnPath(ms, path, key) && AreFiled(ms, kids, key)
    ensures forall row <- Forest(ms, level, kids, key, path) :: Closed(ms, Forest(ms, level, kids, key, path), row)
    ensures forall m <- kids :: exists r <- Forest(ms, level, kids, key, path) :: r.member == m && r.level == level
    decreases Names(ms) - path, 1, |kids|
  {
    if kids != [] {
      var last := kids[|kids| - 1];
      var front := kids[..|kids| - 1];
      ForestClosed(ms, level, front, key, path);
      TreeClosed(ms, level, last, key, path);
      var rows := Forest(ms, level, kids, key, path);
      var first, second := Forest(ms, level, front, key, path), Tree(ms, level, last, key, path);
      assert rows == first + second;
      assert second[0] in second && second[0] in rows;
      assert second[0].member == last && second[0].level == level;
      forall row | row in rows ensures Closed(ms, rows, row) {
        ClosedGrows(ms, if row in first then first else second, rows, row);
      }
      forall m | m in kids ensures exists r <- rows :: r.member == m && r.level == level {
        if m != last {
          assert m in front;
          var r :| r in first && r.member == m && r.level == level;
          assert r in rows;
        }
      }
    }
  }

  lemma ClosedGrows(ms: seq<Member>, rows: seq<Row>, more: seq<Row>, row: Row)
    requires Closed(ms, rows, row) && forall r <- rows :: r in more
    ensures Closed(ms, more, row)
  {
    forall c | c in Children(ms, Some(row.member.name)) ensures exists r <- more :: r.member == c && r.level == row.level + 1 {
      var r :| r in rows && r.member == c && r.level == row.level + 1;
      assert r in more;
    }
  }

  /** The rows below the leader. */
  ghost function Below(ms: seq<Member>): seq<Row>
    requires Proper(ms)
  {
    ChildrenIff(ms, Root(ms));
    Forest(ms, 1, Children(ms, Root(ms)), Root(ms), {})
  }

  lemma BelowClosed(ms: seq<Member>)
    requires Proper(ms)
    ensures forall row <- Below(ms) :: Closed(ms, Below(ms), row)
    ensures forall m <- ms :: !m.isLeader && ParentOf(ms, m) == Root(ms) ==> exists r <- Below(ms) :: r.member == m && r.level == 1
  {
    ChildrenIff(ms, Root(ms));
    ForestClosed(ms, 1, Children(ms, Root(ms)), Root(ms), {});
  }

  lemma {:induction false} EveryDepthShown(ms: seq<Member>, m: Member, depth: nat)
    requires Proper(ms) && HasDepth(ms, m, depth) && !m.isLeader
    ensures exists r <- Below(ms) :: r.member == m && r.level == depth
    decreases depth
  {
    UpOfReplica(ms, m);
    BelowClosed(ms);
    var key := ParentOf(ms, m);
    assert Reaches(ms, key, depth - 1);
    if key != Root(ms) {
      var p := ReplicaOf(ms, key.value).value;
      EveryDepthShown(ms, p, depth - 1);
      var q :| q in Below(ms) && q.member == p && q.level == depth - 1;
      assert Closed(ms, Below(ms), q);
      ChildrenIff(ms, Some(p.name));
    }
  }

  lemma OutputIsBelow(ms: seq<Member>)
    requires Proper(ms)
    ensures Output(ms) == (match LeaderOf(ms) case Some(l) => [Row(l.name, 0, l)] case None => []) + Below(ms)
  {
  }

  lemma EveryMemberShown(ms: seq<Member>, m: Member, depth: nat)
    requires Proper(ms) && HasDepth(ms, m, depth)
    ensures exists r <- Output(ms) :: r.member == m && r.level == depth
  {
    OutputIsBelow(ms);
    if m.isLeader {
      RootIsLeader(ms);
      Unique(ms, m, LeaderOf(ms).value);
      assert Reaches(ms, Some(m.name), 0);
      DepthUnique(ms, Some(m.name), depth, 0);
      assert Output(ms)[0] in Output(ms);
    } else {
      EveryDepthShown(ms, m, depth);
      var r :| r in Below(ms) && r.member == m && r.level == depth;
      assert r in Output(ms);
    }
  }

  // ---------------------------------------------------------------- nobody is shown twice

  ghost predicate Distinct(rows: seq<Row>) {
    forall i, j :: 0 <= i < j < |rows| ==> rows[i].member != rows[j].member
  }

  lemma DistinctConcat(a: seq<Row>, b: seq<Row>)
    requires Distinct(a) && Distinct(b)
    requires forall r <- a, q <- b :: r.member != q.member
    ensures Distinct(a + b)
  {
    var rows := a + b;
    forall i, j | 0 <= i < j < |rows| ensures rows[i].member != rows[j].member {
      if i < |a| <= j {
        assert a[i] in a && b[j - |a|] in b;
      }
    }
  }

  lemma {:induction false} TreeDistinct(ms: seq<Member>, level: nat, m: Member, key: Option<string>, path: set<string>)
    requires Proper(ms) && OnPath(ms, path, key) && AreFiled(ms, [m], key)
    requires level > 0 && Reaches(ms, key, level - 1)
    ensures Distinct(Tree(ms, level, m, key, path))
    decreases Names(ms) - path, 0, 0
  {
    assert m in [m];
    Descend(ms, path, key, m);
    UpOfReplica(ms, m);
    ChildrenIff(ms, Some(m.name));
    var kids := Children(ms, Some(m.name));
    var below := Forest(ms, level + 1, kids, Some(m.name), path + {m.name});
    ChildrenUnique(ms, Some(m.name));
    ForestDistinct(ms, level + 1, kids, Some(m.name), path + {m.name});
    ForestSound(ms, level + 1, kids, Some(m.name), path + {m.name});
    var top := [Row(Label(level, m.name), level, m)];
    forall r, q | r in top && q in below ensures r.member != q.member {
      if q.member == m {
        DepthUnique(ms, Some(m.name), q.level, level);
      }
    }
    DistinctConcat(top, below);
  }

  lemma {:induction false} ForestDistinct(ms: seq<Member>, level: nat, kids: seq<Member>, key: Option<string>, path: set<string>)
    requires Proper(ms) && OnPath(ms, path, key) && AreFiled(ms, kids, key)
    requires level > 0 && Reaches(ms, key, level - 1)
    requires UniqueNames(kids)
    ensures Distinct(Forest(ms, level, kids, key, path))
    decreases Names(ms) - path, 1, |kids|
  {
    if kids != [] {
      var last := kids[|kids| - 1];
      var front := kids[..|kids| - 1];
      ForestDistinct(ms, level, front, key, path);
      TreeDistinct(ms, level, last, key, path);
      ForestSound(ms, level, front, key, path);
      TreeSound(ms, level, last, key, path);
      var a, b := Forest(ms, level, front, key, path), Tree(ms, level, last, key, path);
      forall r, q | r in a && q in b ensures r.member != q.member {
        if r.member == q.member {
          DepthUnique(ms, Some(r.member.name), r.level, q.level);
        }
      }
      DistinctConcat(a, b);
    }
  }

  ghost predicate UniqueNames(ms: seq<Member>) {
    forall i, j :: 0 <= i < j < |ms| ==> ms[i].name != ms[j].name
  }

  lemma {:induction false} FiledUnique(ms: seq<Member>, some: seq<Member>, key: Option<string>)
    requires UniqueNames(some)
    ensures UniqueNames(Filed(ms, some, key))
    decreases |some|
  {
    if some != [] {
      var front := some[..|some| - 1];
      var f := Filed(ms, front, key);
      FiledUnique(ms, front, key);
      forall i | 0 <= i < |f| ensures f[i].name != some[|some| - 1].name {
        FiledIff(ms, front, key, f[i]);
      }
    }
  }

  lemma ChildrenUnique(ms: seq<Member>, key: Option<string>)
    requires Proper(ms)
    ensures UniqueNames(Children(ms, key))
  {
    FiledUnique(ms, ms, key);
  }

  // ---------------------------------------------------------------- parents come first

  /** Every row below the given level has its parent where the indentation shows it. */
  ghost predicate ParentsFirst(ms: seq<Member>, rows: seq<Row>, level: nat) {
    forall j :: 0 <= j < |rows| && level < rows[j].level ==> HasParentRow(ms, rows, j)
  }

  ghost predicate HasParentRow(ms: seq<Member>, rows: seq<Row>, j: nat)
    requires j < |rows|
  {
    exists i :: IsParentRow(ms, rows, i, j)
  }

  /** Row i is the parent of row j: one level further out, and nothing as far out as it between. */
  ghost predicate IsParentRow(ms: seq<Member>, rows: seq<Row>, i: int, j: nat)
    requires j < |rows|
  {
    && 0 <= i < j && rows[j].level == rows[i].level + 1
    && ParentOf(ms, rows[j].member) == Some(rows[i].member.name)
    && forall k :: i < k < j ==> rows[i].level < rows[k].level
  }

  lemma ParentRowKeeps(ms: seq<Member>, rows: seq<Row>, after: seq<Row>, j: nat)
    requires j < |rows| && HasParentRow(ms, rows, j)
    ensures HasParentRow(ms, rows + after, j)
  {
    var i :| IsParentRow(ms, rows, i, j);
    var all := rows + after;
    assert forall k :: 0 <= k <= j ==> all[k] == rows[k];
    assert IsParentRow(ms, all, i, j);
  }

  lemma ParentRowShifts(ms: seq<Member>, before: seq<Row>, rows: seq<Row>, j: nat)
    requires j < |rows| && HasParentRow(ms, rows, j)
    ensures HasParentRow(ms, before + rows, |before| + j)
  {
    var i :| IsParentRow(ms, rows, i, j);
    var all := before + rows;
    forall k | |before| + i < k < |before| + j ensures rows[i].level < all[k].level {
      assert all[k] == rows[k - |before|];
    }
    assert all[|before| + i] == rows[i] && all[|before| + j] == rows[j];
    assert IsParentRow(ms, all, |before| + i, |before| + j);
  }

  lemma ParentsFirstConcat(ms: seq<Member>, a: seq<Row>, b: seq<Row>, level: nat)
    requires ParentsFirst(ms, a, level) && ParentsFirst(ms, b, level)
    ensures ParentsFirst(ms, a + b, level)
  {
    forall j | 0 <= j < |a + b| && level < (a + b)[j].level ensures HasParentRow(ms, a + b, j) {
      RowOfConcat(ms, a, b, level, j);
    }
  }

  lemma RowOfConcat(ms: seq<Member>, a: seq<Row>, b: seq<Row>, level: nat, j: nat)
    requires ParentsFirst(ms, a, level) && ParentsFirst(ms, b, level) && j < |a + b| && level < (a + b)[j].level
    ensures HasParentRow(ms, a + b, j)
  {
    if j < |a| {
      ParentRowKeeps(ms, a, b, j);
    } else {
      ParentRowShifts(ms, a, b, j - |a|);
    }
  }

  lemma TopRow(ms: seq<Member>, top: Row, below: seq<Row>, k: nat)
    requires k < |below| && below[k].level == top.level + 1
    requires ParentOf(ms, below[k].member) == Some(top.member.name)
    requires forall row <- below :: top.level < row.level
    ensures HasParentRow(ms, [top] + below, k + 1)
  {
    var rows := [top] + below;
    assert rows[0] == top && rows[k + 1] == below[k];
    forall i | 0 < i < k + 1 ensures rows[0].level < rows[i].level {
      assert rows[i] == below[i - 1];
    }
    assert IsParentRow(ms, rows, 0, k + 1);
  }

  /** Rows whose outermost members hang off `top` may follow it. */
  lemma ParentInFront(ms: seq<Member>, top: Row, below: seq<Row>)
    requires ParentsFirst(ms, below, top.level + 1)
    requires forall row <- below :: row.level == top.level + 1 ==> ParentOf(ms, row.member) == Some(top.member.name)
    requires forall row <- below :: top.level < row.level
    ensures ParentsFirst(ms, [top] + below, top.level)
  {
    var rows := [top] + below;
    forall j | 0 <= j < |rows| && top.level < rows[j].level ensures HasParentRow(ms, rows, j) {
      assert rows[j] == below[j - 1];
      RowInFront(ms, top, below, j);
    }
  }

  lemma RowInFront(ms: seq<Member>, top: Row, below: seq<Row>, j: nat)
    requires ParentsFirst(ms, below, top.level + 1) && 0 < j <= |below|
    requires below[j - 1].level == top.level + 1 ==> ParentOf(ms, below[j - 1].member) == Some(top.member.name)
    requires forall row <- below :: top.level < row.level
    ensures HasParentRow(ms, [top] + below, j)
  {
    assert below[j - 1] in below;
    if top.level + 1 < below[j - 1].level {
      ParentRowShifts(ms, [top], below, j - 1);
    } else {
      TopRow(ms, top, below, j - 1);
    }
  }

  lemma {:induction false} TreeParentsFirst(ms: seq<Member>, level: nat, m: Member, key: Option<string>, path: set<string>)
    requires Proper(ms) && OnPath(ms, path, key) && AreFiled(ms, [m], key)
    ensures ParentsFirst(ms, Tree(ms, level, m, key, path), level)
    decreases Names(ms) - path, 0, 0
  {
    assert m in [m];
    Descend(ms, path, key, m);
    ChildrenIff(ms, Some(m.name));
    var kids := Children(ms, Some(m.name));
    ForestParentsFirst(ms, level + 1, kids, Some(m.name), path + {m.name});
    ParentInFront(ms, Row(Label(level, m.name), level, m), Forest(ms, level + 1, kids, Some(m.name), path + {m.name}));
  }

  lemma {:induction false} ForestParentsFirst(ms: seq<Member>, level: nat, kids: seq<Member>, key: Option<string>, path: set<string>)
    requires Proper(ms) && OnPath(ms, path, key) && AreFiled(ms, kids, key)
    ensures ParentsFirst(ms, Forest(ms, level, kids, key, path), level)
    ensures forall row <- Forest(ms, level, kids, key, path) :: level <= row.level && (row.level == level ==> ParentOf(ms, row.member) == key)
    decreases Names(ms) - path, 1, |kids|
  {
    if kids != [] {
      var last := kids[|kids| - 1];
      var front := kids[..|kids| - 1];
      ForestParentsFirst(ms, level, front, key, path);
      TreeParentsFirst(ms, level, last, key, path);
      var a, b := Forest(ms, level, front, key, path), Tree(ms, level, last, key, path);
      ParentsFirstConcat(ms, a, b, level);
      TreeLevels(ms, level, last, key, path);
    }
  }

  lemma {:induction false} TreeLevels(ms: seq<Member>, level: nat, m: Member, key: Option<string>, path: set<string>)
    requires Proper(ms) && OnPath(ms, path, key) && AreFiled(ms, [m], key)
    ensures forall row <- Tree(ms, level, m, key, path) :: level <= row.level && (row.level == level ==> row.member == m)
    decreases Names(ms) - path, 0, 0
  {
    assert m in [m];
    Descend(ms, path, key, m);
    ChildrenIff(ms, Some(m.name));
    ForestLevels(ms, level + 1, Children(ms, Some(m.name)), Some(m.name), path + {m.name});
  }

  lemma {:induction false} ForestLevels(ms: seq<Member>, level: nat, kids: seq<Member>, key: Option<string>, path: set<string>)
    requires Proper(ms) && OnPath(ms, path, key) && AreFiled(ms, kids, key)
    ensures forall row <- Forest(ms, level, kids, key, path) :: level <= row.level
    decreases Names(ms) - path, 1, |kids|
  {
    if kids != [] {
      ForestLevels(ms, level, kids[..|kids| - 1], key, path);
      TreeLevels(ms, level, kids[|kids| - 1], key, path);
    }
  }

  // ---------------------------------------------------------------- the whole output

  /** The output lists the leader and every replica whose chain of parents reaches it, each exactly
      once, indented by its depth, and no other member. */
  lemma OutputIsTheTree(ms: seq<Member>)
    requires Proper(ms)
    ensures Distinct(Output(ms))
    ensures forall row <- Output(ms) :: RowOk(ms, row)
    ensures forall m, depth :: HasDepth(ms, m, depth) ==> exists r <- Output(ms) :: r.member == m && r.level == depth
  {
    var kids := Children(ms, Root(ms));
    ChildrenIff(ms, Root(ms));
    ChildrenUnique(ms, Root(ms));
    ForestSound(ms, 1, kids, Root(ms), {});
    ForestDistinct(ms, 1, kids, Root(ms), {});
    RootIsLeader(ms);
    var top := match LeaderOf(ms) case Some(l) => [Row(l.name, 0, l)] case None => [];
    var below := Forest(ms, 1, kids, Root(ms), {});
    forall r, q | r in top && q in below ensures r.member != q.member {
      assert RowOk(ms, q);
    }
    DistinctConcat(top, below);
    forall m, depth | HasDepth(ms, m, depth) ensures exists r <- Output(ms) :: r.member == m && r.level == depth {
      EveryMemberShown(ms, m, depth);
    }
  }

  /** Parents stand before their children, one level further out; without a leader the outermost
      rows have no parent row. */
  lemma OutputParentsFirst(ms: seq<Member>)
    requires Proper(ms)
    ensures ParentsFirst(ms, Output(ms), if LeaderOf(ms).Some? then 0 else 1)
  {
    var kids := Children(ms, Root(ms));
    ChildrenIff(ms, Root(ms));
    ForestParentsFirst(ms, 1, kids, Root(ms), {});
    match LeaderOf(ms) {
      case None => assert Output(ms) == Forest(ms, 1, kids, Root(ms), {});
      case Some(l) => ParentInFront(ms, Row(l.name, 0, l), Forest(ms, 1, kids, Root(ms), {}));
    }
  }

  // ---------------------------------------------------------------- who is left out

  /** Climbing from m comes back to a name it has already passed. */
  ghost predicate OnOrBelowCycle(ms: seq<Member>, m: Member) {
    exists i: nat, j: nat :: i < j && Climb(ms, Some(m.name), i).Some? && Climb(ms, Some(m.name), i) != Root(ms)
                   && Climb(ms, Some(m.name), i) == Climb(ms, Some(m.name), j)
  }

  lemma {:induction false} NeverReaching(ms: seq<Member>, key: Option<string>, steps: nat)
    requires Proper(ms) && key.Some? && ReplicaOf(ms, key.value).Some?
    requires forall d: nat :: !Reaches(ms, key, d)
    ensures
      var k := Climb(ms, key, steps);
      k != Root(ms) && k.Some? && ReplicaOf(ms, k.value).Some?
    decreases steps
  {
    if key == Root(ms) {
      assert Reaches(ms, key, 0);
    }
    if steps > 0 {
      var up := Up(ms, key);
      forall d: nat ensures !Reaches(ms, up, d) {
        assert !Reaches(ms, key, d + 1);
      }
      if up == Root(ms) {
        assert Reaches(ms, up, 0);
      }
      NeverReaching(ms, up, steps - 1);
    }
  }

  ghost predicate PassedBefore(ms: seq<Member>, key: Option<string>, k: nat, name: string) {
    exists h: nat :: h < k && Climb(ms, key, h) == Some(name)
  }

  /** So many different names cannot fit among the members. */
  lemma {:induction false} Pigeonhole(ms: seq<Member>, key: Option<string>, n: nat) returns (i: nat, j: nat)
    requires forall k: nat :: k <= n ==> Climb(ms, key, k).Some? && Climb(ms, key, k).value in Names(ms)
    requires |Names(ms)| <= n
    ensures i < j <= n && Climb(ms, key, i) == Climb(ms, key, j)
  {
    var seen: set<string> := {};
    var k := 0;
    while k <= n
      invariant k <= n + 1 && |seen| == k && seen <= Names(ms)
      invariant forall s <- seen :: PassedBefore(ms, key, k, s)
    {
      var s := Climb(ms, key, k).value;
      if s in seen {
        assert PassedBefore(ms, key, k, s);
        var h: nat :| h < k && Climb(ms, key, h) == Some(s);
        return h, k;
      }
      forall q | q in seen + {s} ensures PassedBefore(ms, key, k + 1, q) {
        assert q != s ==> PassedBefore(ms, key, k, q);
        assert Climb(ms, key, k) == Some(s);
      }
      seen := seen + {s};
      k := k + 1;
    }
    Cardinality(seen, Names(ms));
    assert false;
  }

  lemma {:induction false} Cardinality(a: set<string>, b: set<string>)
    requires a <= b
    ensures |a| <= |b|
    decreases a
  {
    if a != {} {
      var x :| x in a;
      Cardinality(a - {x}, b - {x});
    }
  }

  /** A replica is left out exactly when it is on, or below, a cycle of replicatefrom edges. */
  lemma LeftOutIff(ms: seq<Member>, m: Member)
    requires Proper(ms) && m in ms && !m.isLeader
    ensures (forall row <- Output(ms) :: row.member != m) <==> OnOrBelowCycle(ms, m)
  {
    OutputIsTheTree(ms);
    UpOfReplica(ms, m);
    var key := Some(m.name);
    if forall d: nat :: !Reaches(ms, key, d) {
      forall k: nat ensures Climb(ms, key, k).Some? && Climb(ms, key, k) != Root(ms) && Climb(ms, key, k).value in Names(ms) {
        NeverReaching(ms, key, k);
      }
      var i, j := Pigeonhole(ms, key, |Names(ms)|);
    } else {
      var d: nat :| Reaches(ms, key, d);
      assert HasDepth(ms, m, d);
      if OnOrBelowCycle(ms, m) {
        var i: nat, j: nat :| i < j && Climb(ms, key, i).Some? && Climb(ms, key, i) != Root(ms) && Climb(ms, key, i) == Climb(ms, key, j);
        RepeatImpossible(ms, key, d, i, j);
      }
    }
  }

  lemma {:induction false} RepeatImpossible(ms: seq<Member>, key: Option<string>, d: nat, i: nat, j: nat)
    requires Proper(ms) && Reaches(ms, key, d) && i < j
    requires Climb(ms, key, i).Some? && Climb(ms, key, i) != Root(ms)
    ensures Climb(ms, key, i) != Climb(ms, key, j)
  {
    if d <= i { PastRoot(ms, key, d, i); }
    if d <= j { PastRoot(ms, key, d, j); }
    if j <= d && Climb(ms, key, i) == Climb(ms, key, j) {
      ClimbLowers(ms, key, i, d);
      ClimbLowers(ms, key, j, d);
      DepthUnique(ms, Climb(ms, key, i), d - i, d - j);
    }
  }

  /** Beyond the root there is nothing. */
  lemma {:induction false} PastRoot(ms: seq<Member>, key: Option<string>, d: nat, k: nat)
    requires Proper(ms) && Reaches(ms, key, d) && d <= k
    ensures Climb(ms, key, k) == if k == d then Root(ms) else None
    decreases k
  {
    if k == d {
      ClimbLowers(ms, key, d, d);
    } else {
      PastRoot(ms, key, d, k - 1);
      ClimbUp(ms, key, k - 1);
      RootIsLeader(ms);
    }
  }

  // ---------------------------------------------------------------- siblings keep their order

  /** x is listed before y. */
  ghost predicate Listed(ms: seq<Member>, x: Member, y: Member) {
    exists a, b :: 0 <= a < b < |ms| && ms[a] == x && ms[b] == y
  }

  ghost predicate InListOrder(ms: seq<Member>, some: seq<Member>) {
    forall i, j :: 0 <= i < j < |some| ==> Listed(ms, some[i], some[j])
  }

  lemma {:induction false} FiledInOrder(ms: seq<Member>, n: nat, key: Option<string>)
    requires n <= |ms|
    ensures InListOrder(ms, Filed(ms, ms[..n], key))
    decreases n
  {
    if n > 0 {
      FiledInOrder(ms, n - 1, key);
      FiledSnoc(ms, n - 1, key);
      var front, all := Filed(ms, ms[..n - 1], key), Filed(ms, ms[..n], key);
      forall i, j | 0 <= i < j < |all| ensures Listed(ms, all[i], all[j]) {
        if j == |front| {
          FiledIff(ms, ms[..n - 1], key, all[i]);
          var a :| 0 <= a < n - 1 && ms[..n - 1][a] == all[i];
          assert ms[a] == all[i] && ms[n - 1] == all[j];
        }
      }
    }
  }

  lemma ChildrenInOrder(ms: seq<Member>, key: Option<string>)
    ensures InListOrder(ms, Children(ms, key))
  {
    FiledInOrder(ms, |ms|, key);
    assert ms[..|ms|] == ms;
  }

  ghost predicate SiblingsInOrder(ms: seq<Member>, rows: seq<Row>) {
    forall i, j :: 0 <= i < j < |rows| && Siblings(ms, rows[i], rows[j]) ==> Listed(ms, rows[i].member, rows[j].member)
  }

  ghost predicate Siblings(ms: seq<Member>, r: Row, q: Row) {
    !r.member.isLeader && !q.member.isLeader && ParentOf(ms, r.member) == ParentOf(ms, q.member)
  }

  /** Siblings are equally far out, and climb to the same place. */
  lemma SiblingsAlike(ms: seq<Member>, r: Row, q: Row)
    requires Proper(ms) && RowOk(ms, r) && RowOk(ms, q) && Siblings(ms, r, q)
    ensures r.level == q.level > 0
    ensures forall n: nat :: n > 0 ==> Climb(ms, Some(r.member.name), n) == Climb(ms, Some(q.member.name), n)
  {
    UpOfReplica(ms, r.member);
    UpOfReplica(ms, q.member);
    DepthUnique(ms, ParentOf(ms, r.member), r.level - 1, q.level - 1);
  }

  lemma {:induction false} ForestTop(ms: seq<Member>, level: nat, kids: seq<Member>, key: Option<string>, path: set<string>)
    requires Proper(ms) && OnPath(ms, path, key) && AreFiled(ms, kids, key)
    ensures forall row <- Forest(ms, level, kids, key, path) :: row.level == level ==> row.member in kids
    decreases |kids|
  {
    if kids != [] {
      ForestTop(ms, level, kids[..|kids| - 1], key, path);
      TreeLevels(ms, level, kids[|kids| - 1], key, path);
    }
  }

  lemma {:induction false} TreeSiblings(ms: seq<Member>, level: nat, m: Member, key: Option<string>, path: set<string>)
    requires Proper(ms) && OnPath(ms, path, key) && AreFiled(ms, [m], key)
    requires level > 0 && Reaches(ms, key, level - 1)
    ensures SiblingsInOrder(ms, Tree(ms, level, m, key, path))
    decreases Names(ms) - path, 0, 0
  {
    assert m in [m];
    Descend(ms, path, key, m);
    UpOfReplica(ms, m);
    ChildrenIff(ms, Some(m.name));
    ChildrenUnique(ms, Some(m.name));
    ChildrenInOrder(ms, Some(m.name));
    var kids := Children(ms, Some(m.name));
    ForestSiblings(ms, level + 1, kids, Some(m.name), path + {m.name});
    ForestSound(ms, level + 1, kids, Some(m.name), path + {m.name});
    var top, below := Row(Label(level, m.name), level, m), Forest(ms, level + 1, kids, Some(m.name), path + {m.name});
    forall q | q in below ensures !Siblings(ms, top, q) {
      if Siblings(ms, top, q) {
        SiblingsAlike(ms, top, q);
      }
    }
    SiblingsBelow(ms, top, below);
  }

  lemma SiblingsBelow(ms: seq<Member>, top: Row, below: seq<Row>)
    requires SiblingsInOrder(ms, below) && forall q <- below :: !Siblings(ms, top, q)
    ensures SiblingsInOrder(ms, [top] + below)
  {
    var rows := [top] + below;
    forall i, j | 0 <= i < j < |rows| && Siblings(ms, rows[i], rows[j]) ensures Listed(ms, rows[i].member, rows[j].member) {
      assert rows[j] == below[j - 1] && below[j - 1] in below;
      if i > 0 {
        assert rows[i] == below[i - 1];
      }
    }
  }

  lemma SiblingsConcat(ms: seq<Member>, a: seq<Row>, b: seq<Row>)
    requires SiblingsInOrder(ms, a) && SiblingsInOrder(ms, b)
    requires forall r <- a, q <- b :: Siblings(ms, r, q) ==> Listed(ms, r.member, q.member)
    ensures SiblingsInOrder(ms, a + b)
  {
    var rows := a + b;
    forall i, j | 0 <= i < j < |rows| && Siblings(ms, rows[i], rows[j]) ensures Listed(ms, rows[i].member, rows[j].member) {
      if j < |a| {
        assert rows[i] == a[i] && rows[j] == a[j];
      } else if i < |a| {
        assert rows[i] == a[i] && rows[j] == b[j - |a|];
        assert a[i] in a && b[j - |a|] in b;
      } else {
        assert rows[i] == b[i - |a|] && rows[j] == b[j - |a|];
      }
    }
  }

  lemma {:induction false} ForestSiblings(ms: seq<Member>, level: nat, kids: seq<Member>, key: Option<string>, path: set<string>)
    requires Proper(ms) && OnPath(ms, path, key) && AreFiled(ms, kids, key)
    requires level > 0 && Reaches(ms, key, level - 1)
    requires UniqueNames(kids) && InListOrder(ms, kids)
    ensures SiblingsInOrder(ms, Forest(ms, level, kids, key, path))
    decreases Names(ms) - path, 1, |kids|
  {
    if kids != [] {
      var last, front := kids[|kids| - 1], kids[..|kids| - 1];
      OthersNames(kids);
      ForestSiblings(ms, level, front, key, path);
      TreeSiblings(ms, level, last, key, path);
      var a, b := Forest(ms, level, front, key, path), Tree(ms, level, last, key, path);
      forall r, q | r in a && q in b && Siblings(ms, r, q) ensures Listed(ms, r.member, q.member) {
        OnTopOfForest(ms, level, front, key, path, r, q, last);
        BeforeLast(ms, kids, r.member);
      }
      SiblingsConcat(ms, a, b);
    }
  }

  /** Siblings that climb to two different members on top of a forest are these members. */
  lemma SiblingsOnTop(ms: seq<Member>, level: nat, r: Row, q: Row, m: Member, last: Member)
    requires Proper(ms) && RowOk(ms, r) && RowOk(ms, q) && Siblings(ms, r, q)
    requires level <= r.level && level <= q.level && m.name != last.name
    requires Climb(ms, Some(r.member.name), r.level - level) == Some(m.name)
    requires Climb(ms, Some(q.member.name), q.level - level) == Some(last.name)
    ensures r.level == q.level == level
  {
    SiblingsAlike(ms, r, q);
  }

  lemma BeforeLast(ms: seq<Member>, kids: seq<Member>, x: Member)
    requires kids != [] && InListOrder(ms, kids) && x in kids[..|kids| - 1]
    ensures Listed(ms, x, kids[|kids| - 1])
  {
    var front := kids[..|kids| - 1];
    var k :| 0 <= k < |front| && front[k] == x;
    assert kids[k] == x;
  }

  lemma OthersNames(kids: seq<Member>)
    requires kids != [] && UniqueNames(kids)
    ensures forall m <- kids[..|kids| - 1] :: m.name != kids[|kids| - 1].name
  {
    var front := kids[..|kids| - 1];
    forall m | m in front ensures m.name != kids[|kids| - 1].name {
      var k :| 0 <= k < |front| && front[k] == m;
      assert kids[k] == m;
    }
  }

  lemma ForestRowClimbs(ms: seq<Member>, level: nat, front: seq<Member>, key: Option<string>, path: set<string>, r: Row) returns (m: Member)
    requires Proper(ms) && OnPath(ms, path, key) && AreFiled(ms, front, key)
    requires level > 0 && Reaches(ms, key, level - 1) && r in Forest(ms, level, front, key, path)
    ensures RowOk(ms, r) && level <= r.level && m in front
    ensures Climb(ms, Some(r.member.name), r.level - level) == Some(m.name)
  {
    ForestSound(ms, level, front, key, path);
    m :| m in front && Climb(ms, Some(r.member.name), r.level - level) == Some(m.name);
  }

  lemma TreeRowClimbs(ms: seq<Member>, level: nat, m: Member, key: Option<string>, path: set<string>, q: Row)
    requires Proper(ms) && OnPath(ms, path, key) && AreFiled(ms, [m], key)
    requires level > 0 && Reaches(ms, key, level - 1) && q in Tree(ms, level, m, key, path)
    ensures RowOk(ms, q) && level <= q.level
    ensures Climb(ms, Some(q.member.name), q.level - level) == Some(m.name)
  {
    TreeSound(ms, level, m, key, path);
  }

  lemma OnTopOfForest(ms: seq<Member>, level: nat, front: seq<Member>, key: Option<string>, path: set<string>, r: Row, q: Row, last: Member)
    requires Proper(ms) && OnPath(ms, path, key) && AreFiled(ms, front, key) && AreFiled(ms, [last], key)
    requires level > 0 && Reaches(ms, key, level - 1) && forall m <- front :: m.name != last.name
    requires r in Forest(ms, level, front, key, path) && q in Tree(ms, level, last, key, path) && Siblings(ms, r, q)
    ensures r.member in front && q.member == last
  {
    var m := ForestRowClimbs(ms, level, front, key, path, r);
    TreeRowClimbs(ms, level, last, key, path, q);
    SiblingsOnTop(ms, level, r, q, m, last);
    ForestTop(ms, level, front, key, path);
    TreeLevels(ms, level, last, key, path);
  }

  /** Members attached to the same node come out in the order in which they were listed. */
  lemma OutputKeepsOrder(ms: seq<Member>)
    requires Proper(ms)
    ensures SiblingsInOrder(ms, Output(ms))
  {
    var kids := Children(ms, Root(ms));
    ChildrenIff(ms, Root(ms));
    ChildrenUnique(ms, Root(ms));
    ChildrenInOrder(ms, Root(ms));
    ForestSiblings(ms, 1, kids, Root(ms), {});
    RootIsLeader(ms);
    OutputIsBelow(ms);
    match LeaderOf(ms) {
      case None => assert Output(ms) == Below(ms);
      case Some(l) => SiblingsBelow(ms, Row(l.name, 0, l), Below(ms));
    }
  }

  // ---------------------------------------------------------------- who hangs where

  /** A replica hangs below the other replica it is told to replicate from, if there is one, and else
      below the leader, or on the outermost level if there is none. */
  lemma ParentMeans(ms: seq<Member>, m: Member)
    requires Proper(ms) && m in ms && !m.isLeader
    ensures (exists p <- ms :: !p.isLeader && p != m && m.replicatefrom == Some(p.name)) ==> ParentOf(ms, m) == m.replicatefrom
    ensures !(exists p <- ms :: !p.isLeader && p != m && m.replicatefrom == Some(p.name)) ==>
      && (forall l <- ms :: l.isLeader ==> ParentOf(ms, m) == Some(l.name))
      && ((forall l <- ms :: !l.isLeader) ==> ParentOf(ms, m) == None)
  {
    RootIsLeader(ms);
    if LeaderOf(ms).Some? {
      forall l | l in ms && l.isLeader ensures l == LeaderOf(ms).value {
        OneLeader(ms, l, LeaderOf(ms).value);
      }
    }
  }

  lemma OneLeader(ms: seq<Member>, l: Member, k: Member)
    requires Proper(ms) && l in ms && k in ms && l.isLeader && k.isLeader
    ensures l == k
  {
    var i :| 0 <= i < |ms| && ms[i] == l;
    var j :| 0 <= j < |ms| && ms[j] == k;
    assert i == j;
  }

  // ---------------------------------------------------------------- how it looks

  /** The label: the leader's bare name; otherwise two blanks for each level below the first, a plus
      sign and a blank, and the name. */
  lemma LabelLooks(level: nat, name: string)
    ensures level == 0 ==> Label(level, name) == name
    ensures level > 0 ==>
      var text := Label(level, name);
      && |text| == 2 * level + |name| && text[2 * level..] == name
      && text[2 * level - 2..2 * level] == "+ " && forall i :: 0 <= i < 2 * level - 2 ==> text[i] == ' '
  {
    if level > 0 {
      var blanks := seq(2 * (level - 1), _ => ' ');
      assert Label(level, name) == blanks + "+ " + name;
    }
  }
}

/** The administrator's view of all submissions: the query's rows, already
    ordered by (round, submission time), are grouped by round and each entry
    gets its 1-based arrival position within its round as its rank. */
module AdminSubmissionsRoute {
  import opened Common
  import opened Auth
  import opened SubmissionModel

  /** The populated user of a submission: only its name and email. */
  datatype Owner = Owner(name: string, email: string)

  /** One row of the query: the submission and its populated user, which is
      missing when the account no longer exists. */
  datatype Row = Row(sub: Submission, owner: Option<Owner>)

  /** One entry of the response. */
  datatype RankedEntry = RankedEntry(
    id: Id,
    userName: string,
    userEmail: string,
    round: int,
    imageName: string,
    teamName: string,
    prompt: string,
    imagePath: string,
    submittedAt: int,
    rank: nat)

  /** The response's `submissions` object: entries by round number. */
  type Groups = map<int, seq<RankedEntry>>

  const Unknown := "Unknown"

  /** The rounds the response always has a group for. */
  const InitialRounds: set<int> := {1, 2, 3}

  /** The entry pushed for a row when `rank` is its position in its round. */
  function ToEntry(row: Row, rank: nat): RankedEntry
  {
    RankedEntry(
      row.sub.id,
      if row.owner.Some? then row.owner.value.name else Unknown,
      if row.owner.Some? then row.owner.value.email else Unknown,
      row.sub.round, row.sub.imageName, row.sub.teamName, row.sub.prompt, row.sub.imagePath,
      row.sub.submittedAt, rank)
  }

  /** The rows of one round, in input order. */
  function InRound(rows: seq<Row>, r: int): seq<Row>
  {
    if rows == [] then []
    else
      var rest := InRound(rows[..|rows| - 1], r);
      if rows[|rows| - 1].sub.round == r then rest + [rows[|rows| - 1]] else rest
  }

  /** A round's rows, each ranked by its position. */
  function Ranked(rs: seq<Row>): (es: seq<RankedEntry>)
    ensures |es| == |rs|
  {
    seq(|rs|, k requires 0 <= k < |rs| => ToEntry(rs[k], k + 1))
  }

  lemma RankedAt(rs: seq<Row>, i: int)
    requires 0 <= i < |rs|
    ensures Ranked(rs)[i] == ToEntry(rs[i], i + 1)
  {
  }

  lemma RankedSnoc(rs: seq<Row>, row: Row)
    ensures Ranked(rs + [row]) == Ranked(rs) + [ToEntry(row, |rs| + 1)]
  {
    var a := Ranked(rs + [row]);
    var b := Ranked(rs) + [ToEntry(row, |rs| + 1)];
    assert |a| == |b|;
    forall k | 0 <= k < |a|
      ensures a[k] == b[k]
    {
      if k < |rs| {
        assert (rs + [row])[k] == rs[k];
      }
    }
  }

  /** Appending a row extends its own round's list and no other. */
  lemma InRoundSnoc(front: seq<Row>, row: Row, r: int)
    ensures InRound(front + [row], r) == if row.sub.round == r then InRound(front, r) + [row] else InRound(front, r)
  {
    var rows := front + [row];
    assert rows[..|rows| - 1] == front;
  }

  /** Some row belongs to round `r`. */
  predicate HasRound(rows: seq<Row>, r: int)
  {
    exists i | 0 <= i < |rows| :: rows[i].sub.round == r
  }

  /** A row is in its round's list exactly when it is an input row of that
      round. */
  lemma {:induction false} InRoundMembership(rows: seq<Row>, r: int, x: Row)
    ensures x in InRound(rows, r) <==> x in rows && x.sub.round == r
  {
    if rows != [] {
      var front := rows[..|rows| - 1];
      InRoundMembership(front, r, x);
      assert rows == front + [rows[|rows| - 1]];
    }
  }

  /** A round has no rows exactly when no input row belongs to it. */
  lemma InRoundEmpty(rows: seq<Row>, r: int)
    ensures InRound(rows, r) == [] <==> !HasRound(rows, r)
  {
    if HasRound(rows, r) {
      var i :| 0 <= i < |rows| && rows[i].sub.round == r;
      InRoundMembership(rows, r, rows[i]);
    } else if InRound(rows, r) != [] {
      InRoundMembership(rows, r, InRound(rows, r)[0]);
    }
  }

  /** One iteration of the grouping loop: the row is pushed onto its
      round's list, created on first use, with rank one more than the
      list's length so far. */
  function Push(g: Groups, row: Row): Groups
  {
    var bucket := if row.sub.round in g then g[row.sub.round] else [];
    g[row.sub.round := bucket + [ToEntry(row, |bucket| + 1)]]
  }

  /** The grouping loop over the rows in their query order, starting from
      empty groups for rounds 1, 2 and 3. */
  function GroupAndRank(rows: seq<Row>): (g: Groups)
    ensures forall r :: r in g <==> r in InitialRounds || HasRound(rows, r)
    ensures forall r | r in g :: g[r] == Ranked(InRound(rows, r))
  {
    if rows == [] then map[1 := [], 2 := [], 3 := []]
    else
      var front := rows[..|rows| - 1];
      var g0 := GroupAndRank(front);
      GroupStep(front, rows[|rows| - 1], g0);
      assert rows == front + [rows[|rows| - 1]];
      Push(g0, rows[|rows| - 1])
  }

  /** The induction step of `GroupAndRank`, for the set of rounds: pushing a
      row adds its round and no other. */
  lemma GroupStepRounds(front: seq<Row>, row: Row, g0: Groups)
    requires forall r :: r in g0 <==> r in InitialRounds || HasRound(front, r)
    ensures forall r :: r in Push(g0, row) <==> r in InitialRounds || HasRound(front + [row], r)
  {
    var rows := front + [row];
    var g := Push(g0, row);
    forall r
      ensures r in g <==> r in InitialRounds || HasRound(rows, r)
    {
      if HasRound(rows, r) && r != row.sub.round {
        var i :| 0 <= i < |rows| && rows[i].sub.round == r;
        assert front[i] == rows[i];
      }
      if HasRound(front, r) {
        var i :| 0 <= i < |front| && front[i].sub.round == r;
        assert rows[i] == front[i];
      }
      assert rows[|rows| - 1] == row;
    }
  }

  /** The induction step of `GroupAndRank`, for the lists: pushing one more
      row keeps every group equal to its ranked round. */
  lemma GroupStepLists(front: seq<Row>, row: Row, g0: Groups)
    requires forall r | r in g0 :: g0[r] == Ranked(InRound(front, r))
    requires HasRound(front, row.sub.round) ==> row.sub.round in g0
    ensures forall r | r in Push(g0, row) :: Push(g0, row)[r] == Ranked(InRound(front + [row], r))
  {
    var g := Push(g0, row);
    var k := row.sub.round;
    forall r | r in g
      ensures g[r] == Ranked(InRound(front + [row], r))
    {
      InRoundSnoc(front, row, r);
      if r == k {
        var rs := InRound(front, k);
        if k !in g0 {
          InRoundEmpty(front, k);
        }
        assert g[k] == Ranked(rs) + [ToEntry(row, |rs| + 1)];
        RankedSnoc(rs, row);
      }
    }
  }

  /** Both halves of the induction step. */
  lemma GroupStep(front: seq<Row>, row: Row, g0: Groups)
    requires forall r :: r in g0 <==> r in InitialRounds || HasRound(front, r)
    requires forall r | r in g0 :: g0[r] == Ranked(InRound(front, r))
    ensures forall r :: r in Push(g0, row) <==> r in InitialRounds || HasRound(front + [row], r)
    ensures forall r | r in Push(g0, row) :: Push(g0, row)[r] == Ranked(InRound(front + [row], r))
  {
    GroupStepRounds(front, row, g0);
    GroupStepLists(front, row, g0);
  }

  /** Every round's entries are ranked 1, 2, ... by position: no gaps and no
      repeats. */
  lemma RanksArePositions(rows: seq<Row>, r: int)
    requires r in GroupAndRank(rows)
    ensures |GroupAndRank(rows)[r]| == |InRound(rows, r)|
    ensures forall i | 0 <= i < |GroupAndRank(rows)[r]| :: GroupAndRank(rows)[r][i].rank == i + 1
  {
    var rs := InRound(rows, r);
    var es := GroupAndRank(rows)[r];
    assert es == Ranked(rs);
    forall i | 0 <= i < |es|
      ensures es[i].rank == i + 1
    {
      RankedAt(rs, i);
    }
  }

  /** Every input row lands in the group of its own round, including a round
      outside 1..3, which gets a group of its own. */
  lemma EveryRowHasItsGroup(rows: seq<Row>, j: int)
    requires 0 <= j < |rows|
    ensures rows[j].sub.round in GroupAndRank(rows)
    ensures rows[j] in InRound(rows, rows[j].sub.round)
  {
    InRoundMembership(rows, rows[j].sub.round, rows[j]);
  }

  /** An entry copies its row's submission; the user's name and email are
      "Unknown" when the user is missing. */
  lemma EntriesCopyTheirRows(rows: seq<Row>, r: int, i: int)
    requires r in GroupAndRank(rows) && 0 <= i < |GroupAndRank(rows)[r]|
    ensures var e := GroupAndRank(rows)[r][i]; var row := InRound(rows, r)[i];
      && e.id == row.sub.id && e.round == row.sub.round == r
      && e.imageName == row.sub.imageName && e.teamName == row.sub.teamName
      && e.prompt == row.sub.prompt && e.imagePath == row.sub.imagePath
      && e.submittedAt == row.sub.submittedAt
      && (row.owner.None? ==> e.userName == Unknown && e.userEmail == Unknown)
      && (row.owner.Some? ==> e.userName == row.owner.value.name && e.userEmail == row.owner.value.email)
  {
    var rs := InRound(rows, r);
    assert GroupAndRank(rows)[r] == Ranked(rs);
    RankedAt(rs, i);
    InRoundMembership(rows, r, rs[i]);
  }

  /** The query's order: ascending by round, then by submission time. */
  predicate SortedByRoundAndTime(rows: seq<Row>)
  {
    forall i, j | 0 <= i < j < |rows| ::
      rows[i].sub.round < rows[j].sub.round
      || (rows[i].sub.round == rows[j].sub.round && rows[i].sub.submittedAt <= rows[j].sub.submittedAt)
  }

  lemma {:induction false} InRoundSortedByTime(rows: seq<Row>, r: int)
    requires SortedByRoundAndTime(rows)
    ensures forall i, j | 0 <= i < j < |InRound(rows, r)| ::
      InRound(rows, r)[i].sub.submittedAt <= InRound(rows, r)[j].sub.submittedAt
  {
    if rows != [] {
      var front := rows[..|rows| - 1];
      var last := rows[|rows| - 1];
      assert SortedByRoundAndTime(front);
      InRoundSortedByTime(front, r);
      if last.sub.round == r {
        var rest := InRound(front, r);
        forall i | 0 <= i < |rest|
          ensures rest[i].sub.submittedAt <= last.sub.submittedAt
        {
          InRoundMembership(front, r, rest[i]);
          var p :| 0 <= p < |front| && front[p] == rest[i];
          assert rows[p] == rest[i];
        }
      }
    }
  }

  /** On the query's order, a better rank within a round never belongs to a
      later submission. */
  lemma RankOrderFollowsTime(rows: seq<Row>, r: int, e1: RankedEntry, e2: RankedEntry)
    requires SortedByRoundAndTime(rows)
    requires r in GroupAndRank(rows)
    requires e1 in GroupAndRank(rows)[r] && e2 in GroupAndRank(rows)[r]
    requires e1.rank < e2.rank
    ensures e1.submittedAt <= e2.submittedAt
  {
    var es := GroupAndRank(rows)[r];
    var i :| 0 <= i < |es| && es[i] == e1;
    var j :| 0 <= j < |es| && es[j] == e2;
    RanksArePositions(rows, r);
    assert i < j;
    EntriesCopyTheirRows(rows, r, i);
    EntriesCopyTheirRows(rows, r, j);
    InRoundSortedByTime(rows, r);
  }

  /** The order in which the loop creates the groups: rounds 1, 2 and 3,
      then each further round at its first row. */
  function KeyOrder(rows: seq<Row>): (ks: seq<int>)
    ensures forall r :: r in ks <==> r in InitialRounds || HasRound(rows, r)
    ensures Distinct(ks)
  {
    if rows == [] then [1, 2, 3]
    else
      var front := rows[..|rows| - 1];
      var ks0 := KeyOrder(front);
      var r := rows[|rows| - 1].sub.round;
      assert rows == front + [rows[|rows| - 1]];
      assert forall q :: HasRound(rows, q) <==> HasRound(front, q) || q == r by {
        forall q | HasRound(front, q)
          ensures HasRound(rows, q)
        {
          var i :| 0 <= i < |front| && front[i].sub.round == q;
          assert rows[i] == front[i];
        }
      }
      if r in ks0 then ks0 else ks0 + [r]
  }

  predicate Distinct(ks: seq<int>)
  {
    forall i, j | 0 <= i < j < |ks| :: ks[i] != ks[j]
  }

  /** The total of the sizes of the listed groups. */
  function SizeSum(g: Groups, ks: seq<int>): nat
    requires forall i | 0 <= i < |ks| :: ks[i] in g
  {
    if ks == [] then 0 else SizeSum(g, ks[..|ks| - 1]) + |g[ks[|ks| - 1]]|
  }

  /** The total only depends on the listed groups. */
  lemma {:induction false} SizeSumFrame(g: Groups, h: Groups, ks: seq<int>)
    requires forall i | 0 <= i < |ks| :: ks[i] in g && ks[i] in h && g[ks[i]] == h[ks[i]]
    ensures SizeSum(g, ks) == SizeSum(h, ks)
  {
    if ks != [] {
      SizeSumFrame(g, h, ks[..|ks| - 1]);
    }
  }

  /** Replacing a group listed once changes the total by the change in that
      group's size. */
  lemma {:induction false} SizeSumUpdate(g: Groups, ks: seq<int>, r: int, v: seq<RankedEntry>)
    requires forall i | 0 <= i < |ks| :: ks[i] in g
    requires Distinct(ks) && r in ks
    ensures SizeSum(g[r := v], ks) + |g[r]| == SizeSum(g, ks) + |v|
  {
    var front := ks[..|ks| - 1];
    if ks[|ks| - 1] == r {
      assert r !in front;
      SizeSumFrame(g[r := v], g, front);
    } else {
      assert r in front;
      SizeSumUpdate(g, front, r, v);
    }
  }

  /** Group sizes add up to the number of rows. */
  lemma {:induction false} GroupSizesSumToTotal(rows: seq<Row>)
    ensures forall i | 0 <= i < |KeyOrder(rows)| :: KeyOrder(rows)[i] in GroupAndRank(rows)
    ensures SizeSum(GroupAndRank(rows), KeyOrder(rows)) == |rows|
  {
    if rows == [] {
      assert SizeSum(map[1 := [], 2 := [], 3 := []], [1, 2, 3][..2]) == 0;
    } else {
      var front := rows[..|rows| - 1];
      var row := rows[|rows| - 1];
      GroupSizesSumToTotal(front);
      PushAddsOne(GroupAndRank(front), KeyOrder(front), row);
    }
  }

  /** One iteration of the loop adds one entry to the total. */
  lemma PushAddsOne(g0: Groups, ks0: seq<int>, row: Row)
    requires forall i | 0 <= i < |ks0| :: ks0[i] in g0
    requires forall k | k in g0 :: k in ks0
    requires Distinct(ks0)
    ensures var ks := if row.sub.round in ks0 then ks0 else ks0 + [row.sub.round];
      && (forall i | 0 <= i < |ks| :: ks[i] in Push(g0, row))
      && SizeSum(Push(g0, row), ks) == SizeSum(g0, ks0) + 1
  {
    var g := Push(g0, row);
    var r := row.sub.round;
    if r in ks0 {
      SizeSumUpdate(g0, ks0, r, g[r]);
    } else {
      var ks := ks0 + [r];
      assert ks[..|ks| - 1] == ks0;
      SizeSumFrame(g, g0, ks0);
    }
  }

  /** The response: the groups and the number of rows. */
  datatype AdminView = AdminView(groups: Groups, total: nat)

  /** GET /api/admin/submissions on the query's rows: the administrator gate
      first, its error status returned as is; otherwise the grouped view. */
  function AdminGet(auth: AuthContext, header: Option<string>, rows: seq<Row>): (r: Result<AdminView, AuthError>)
    ensures r.Err? <==> RequireAdmin(auth, header).Err?
    ensures r.Err? ==> r.error == RequireAdmin(auth, header).error
    ensures r.Ok? ==>
      && r.value.total == |rows|
      && (forall i | 0 <= i < |KeyOrder(rows)| :: KeyOrder(rows)[i] in r.value.groups)
      && SizeSum(r.value.groups, KeyOrder(rows)) == r.value.total
      && r.value.groups == GroupAndRank(rows)
  {
    match RequireAdmin(auth, header)
    case Err(e) => Err(e)
    case Ok(_) =>
      GroupSizesSumToTotal(rows);
      Ok(AdminView(GroupAndRank(rows), |rows|))
  }
}

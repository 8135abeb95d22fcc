/** The pure helpers of the administrator's submissions table: the ordinal
    label and the icon of a rank, and the test for a view with no entries. */
module RankDisplay {
  import opened Common
  import opened Text
  import opened AdminSubmissionsRoute

  /** The suffix table: "st", "nd" and "rd" for ranks 1, 2 and 3 only; every
      other rank, 11 and 21 included, gets "th". */
  function Suffix(rank: int): (s: string)
    ensures |s| == 2
  {
    if rank == 1 then "st" else if rank == 2 then "nd" else if rank == 3 then "rd" else "th"
  }

  /** The rank's decimal numeral followed by its two-letter suffix. */
  function RankLabel(rank: int): (s: string)
    ensures |s| >= 3
    ensures s[..|s| - 2] == IntToDecimal(rank)
    ensures s[|s| - 2..] == "st" <==> rank == 1
    ensures s[|s| - 2..] == "nd" <==> rank == 2
    ensures s[|s| - 2..] == "rd" <==> rank == 3
    ensures s[|s| - 2..] == "th" <==> rank !in {1, 2, 3}
  {
    var d := IntToDecimal(rank);
    var s := d + Suffix(rank);
    assert s[..|s| - 2] == d;
    assert s[|s| - 2..] == Suffix(rank);
    s
  }

  /** Reads a label back: the number before the two-letter suffix. */
  function ParseRankLabel(s: string): Option<int>
  {
    if |s| < 2 then None else ParseInt(s[..|s| - 2])
  }

  /** Every label reads back as its rank. */
  lemma RankLabelRoundTrip(rank: int)
    ensures ParseRankLabel(RankLabel(rank)) == Some(rank)
  {
    IntDecimalRoundTrip(rank);
  }

  /** Distinct ranks get distinct labels. */
  lemma RankLabelInjective(a: int, b: int)
    requires RankLabel(a) == RankLabel(b)
    ensures a == b
  {
    RankLabelRoundTrip(a);
    RankLabelRoundTrip(b);
  }

  /** A label is the rank's digits followed by its suffix. */
  lemma LabelFromDigits(rank: int, digits: string)
    requires IntToDecimal(rank) == digits
    ensures RankLabel(rank) == digits + Suffix(rank)
  {
  }

  /** A one-digit rank's label is that digit and its suffix. */
  lemma SingleDigitLabel(rank: nat)
    requires rank < 10
    ensures RankLabel(rank) == [DigitChar(rank)] + Suffix(rank)
  {
    LabelFromDigits(rank, [DigitChar(rank)]);
  }

  /** The first three ranks get "1st", "2nd" and "3rd". */
  lemma FirstLabel()
    ensures RankLabel(1) == "1st"
  {
    SingleDigitLabel(1);
  }

  lemma SecondLabel()
    ensures RankLabel(2) == "2nd"
  {
    SingleDigitLabel(2);
  }

  lemma ThirdLabel()
    ensures RankLabel(3) == "3rd"
  {
    SingleDigitLabel(3);
  }

  /** 21 is labelled "21th": the suffix depends on the whole rank, not on its
      last digit. */
  lemma TwentyFirstLabel()
    ensures RankLabel(21) == "21th"
  {
    assert NatToDecimal(21) == NatToDecimal(2) + [DigitChar(1)];
    LabelFromDigits(21, "21");
  }

  /** 11 is labelled "11th". */
  lemma EleventhLabel()
    ensures RankLabel(11) == "11th"
  {
    assert NatToDecimal(11) == NatToDecimal(1) + [DigitChar(1)];
    LabelFromDigits(11, "11");
  }

  datatype Icon = Trophy | Medal | Award

  /** The trophy, medal and award icons of the first three ranks; nothing
      for any other rank. */
  function RankIcon(rank: int): (i: Option<Icon>)
    ensures i.Some? <==> 1 <= rank <= 3
  {
    if rank == 1 then Some(Trophy)
    else if rank == 2 then Some(Medal)
    else if rank == 3 then Some(Award)
    else None
  }

  /** A rank has an icon exactly when its label does not end in "th", and
      the three icons go to three different ranks. */
  lemma IconsFollowLabels(rank: int)
    ensures RankIcon(rank).Some? <==> RankLabel(rank)[|RankLabel(rank)| - 2..] != "th"
    ensures forall other: int | other != rank && RankIcon(other).Some? :: RankIcon(other) != RankIcon(rank)
  {
  }

  /** `allEmpty`: every round's list is empty. */
  predicate AllEmpty(g: Groups)
  {
    forall k | k in g :: g[k] == []
  }

  /** The view is empty exactly when there are no submissions at all. */
  lemma AllEmptyIffNoRows(rows: seq<Row>)
    ensures AllEmpty(GroupAndRank(rows)) <==> rows == []
  {
    if rows != [] {
      EveryRowHasItsGroup(rows, 0);
    }
  }
}

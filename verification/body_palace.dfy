/** The body-palace rule: one branch, fixed by the birth month and hour, is
    marked as the body palace (身宮). */
module BodyPalace {
  import opened Alphabets
  import Palace

  /** The branch of the body palace: counting `hour` branches back from it
      reaches the month branch. */
  function BodyPalaceBranch(month: BranchIndex, hour: BranchIndex): (b: BranchIndex)
    ensures (b + 12 - hour) % 12 == month
  {
    (month + hour) % 12
  }

  /** One flag per branch, indexed by branch; a branch is flagged when its
      label equals the label of the body-palace branch. */
  function BirthBodyPalace(month: BranchIndex, hour: BranchIndex): (r: seq<bool>)
    ensures |r| == 12
    ensures forall i :: 0 <= i < 12 ==> (r[i] <==> i == BodyPalaceBranch(month, hour))
  {
    var b := BodyPalaceBranch(month, hour);
    TablesWellFormed();
    seq(12, i requires 0 <= i < 12 => Earthlys[i] == Earthlys[b])
  }

  /** Number of true flags in s. */
  function CountTrue(s: seq<bool>): (n: nat)
  {
    if s == [] then 0 else (if s[0] then 1 else 0) + CountTrue(s[1..])
  }

  /** A sequence flagged at exactly one position has exactly one true flag. */
  lemma {:induction false} CountTrueSingle(s: seq<bool>, j: int)
    requires 0 <= j < |s|
    requires forall i :: 0 <= i < |s| ==> (s[i] <==> i == j)
    ensures CountTrue(s) == 1
  {
    if j == 0 {
      CountTrueNone(s[1..]);
    } else {
      CountTrueSingle(s[1..], j - 1);
    }
  }

  /** A sequence with no true flag counts zero. */
  lemma {:induction false} CountTrueNone(s: seq<bool>)
    requires forall i :: 0 <= i < |s| ==> !s[i]
    ensures CountTrue(s) == 0
  {
    if s != [] {
      CountTrueNone(s[1..]);
    }
  }

  /** Exactly one of the twelve branches is the body palace. */
  lemma BodyPalaceExactlyOne(month: BranchIndex, hour: BranchIndex)
    ensures CountTrue(BirthBodyPalace(month, hour)) == 1
  {
    CountTrueSingle(BirthBodyPalace(month, hour), BodyPalaceBranch(month, hour));
  }

  /** Body and self palace share a branch exactly when the hour is 子 or 午. */
  lemma BodyMeetsSelf(month: BranchIndex, hour: BranchIndex)
    ensures BodyPalaceBranch(month, hour) == Palace.SelfPalace(month, hour) <==> hour == 0 || hour == 6
  {
  }

  /** Month 卯 (3), hour 丑 (1): only 辰 (4) is marked. */
  lemma BirthBodyPalaceExample()
    ensures Earthlys[4] == "辰"
    ensures BirthBodyPalace(3, 1)[4]
    ensures forall i :: 0 <= i < 12 && i != 4 ==> !BirthBodyPalace(3, 1)[i]
  {
  }
}

/** The twelve-palace rule: the palace names are laid onto the twelve
    branches as a rotation of their reference order, the rotation being fixed
    by the birth month and hour. */
module Palace {
  import opened Alphabets

  /** The branch of the self palace (命宮): counting `hour` branches forward
      from it reaches the month branch. */
  function SelfPalace(month: BranchIndex, hour: BranchIndex): (s: BranchIndex)
    ensures (s + hour) % 12 == month
  {
    (12 + month - hour) % 12
  }

  /** Table p laid onto the twelve branches so that its entry 0 lands on
      branch s. */
  function Rotated(p: seq<string>, s: BranchIndex): (r: seq<string>)
    requires |p| == 12
    ensures |r| == 12
  {
    seq(12, i requires 0 <= i < 12 => p[(12 - s + i) % 12])
  }

  /** Palace name for each of the twelve branches, indexed by branch. */
  function BirthPalace(month: BranchIndex, hour: BranchIndex): (r: seq<string>)
    ensures |r| == 12
    ensures r[SelfPalace(month, hour)] == SelfPalaceName
  {
    Rotated(Palaces, SelfPalace(month, hour))
  }

  /** Position in the table of the entry that lands on branch i. */
  lemma TablePosition(s: BranchIndex, i: BranchIndex)
    ensures (12 - s + i) % 12 == if i < s then 12 - s + i else i - s
  {
  }

  /** Entry k of the table lands k branches after branch s. */
  lemma RotatedAt(p: seq<string>, s: BranchIndex, k: int)
    requires |p| == 12 && 0 <= k < 12
    ensures Rotated(p, s)[(s + k) % 12] == p[k]
  {
    var i := (s + k) % 12;
    TablePosition(s, i);
    if s + k < 12 {
      assert i == s + k;
    } else {
      assert i == s + k - 12;
    }
  }

  /** A rotated table is the table with its halves swapped. */
  lemma RotatedIsSwap(p: seq<string>, s: BranchIndex)
    requires |p| == 12
    ensures Rotated(p, s) == p[12 - s..] + p[..12 - s]
  {
    var r := Rotated(p, s);
    var t := p[12 - s..] + p[..12 - s];
    forall i | 0 <= i < 12
      ensures r[i] == t[i]
    {
      TablePosition(s, i);
    }
  }

  /** Palace k of the reference order sits k branches after the self palace. */
  lemma PalaceAt(month: BranchIndex, hour: BranchIndex, k: int)
    requires 0 <= k < 12
    ensures BirthPalace(month, hour)[(SelfPalace(month, hour) + k) % 12] == Palaces[k]
  {
    RotatedAt(Palaces, SelfPalace(month, hour), k);
  }

  /** Every palace name is given to exactly one branch: branch i holds palace
      k if and only if i lies k branches after the self palace. */
  lemma PalaceExactlyOnce(month: BranchIndex, hour: BranchIndex, i: int, k: int)
    requires 0 <= i < 12 && 0 <= k < 12
    ensures BirthPalace(month, hour)[i] == Palaces[k] <==> i == (SelfPalace(month, hour) + k) % 12
  {
    var s := SelfPalace(month, hour);
    var j := (12 - s + i) % 12;
    TablePosition(s, i);
    assert BirthPalace(month, hour)[i] == Palaces[j];
    TablesWellFormed();
    DistinctAt(Palaces, j, k);
    if i == (s + k) % 12 {
      PalaceAt(month, hour, k);
    }
  }

  /** The self palace is the one branch that holds 命宮. */
  lemma SelfPalaceUnique(month: BranchIndex, hour: BranchIndex, i: int)
    requires 0 <= i < 12
    ensures BirthPalace(month, hour)[i] == SelfPalaceName <==> i == SelfPalace(month, hour)
  {
    TablesWellFormed();
    PalaceExactlyOnce(month, hour, i, 0);
  }

  /** One branch forward is one palace forward in the reference order. */
  lemma PalaceStep(month: BranchIndex, hour: BranchIndex, i: int, k: int)
    requires 0 <= i < 12 && 0 <= k < 12
    requires BirthPalace(month, hour)[i] == Palaces[k]
    ensures BirthPalace(month, hour)[(i + 1) % 12] == Palaces[(k + 1) % 12]
  {
    var s := SelfPalace(month, hour);
    PalaceExactlyOnce(month, hour, i, k);
    NextBranch(s, k);
    PalaceAt(month, hour, (k + 1) % 12);
  }

  /** The branch after the one k steps past s is (k + 1) mod 12 steps past s. */
  lemma NextBranch(s: BranchIndex, k: BranchIndex)
    ensures ((s + k) % 12 + 1) % 12 == (s + (k + 1) % 12) % 12
  {
    if s + k < 11 {
      assert (s + k) % 12 == s + k;
    } else if s + k == 11 {
      assert (s + k) % 12 == 11;
    } else {
      assert (s + k) % 12 == s + k - 12;
    }
  }

  /** The result is the reference order rotated right by the self palace. */
  lemma BirthPalaceIsRotation(month: BranchIndex, hour: BranchIndex)
    ensures var s := SelfPalace(month, hour);
      BirthPalace(month, hour) == Palaces[12 - s..] + Palaces[..12 - s]
  {
    RotatedIsSwap(Palaces, SelfPalace(month, hour));
  }

  /** The twelve palace names are handed out as a permutation. */
  lemma BirthPalaceIsPermutation(month: BranchIndex, hour: BranchIndex)
    ensures multiset(BirthPalace(month, hour)) == multiset(Palaces)
  {
    BirthPalaceIsRotation(month, hour);
    SwapKeepsMultiset(Palaces, 12 - SelfPalace(month, hour));
  }

  /** Swapping the two halves of a sequence keeps its elements. */
  lemma SwapKeepsMultiset(s: seq<string>, a: int)
    requires 0 <= a <= |s|
    ensures multiset(s[a..] + s[..a]) == multiset(s)
  {
    assert s == s[..a] + s[a..];
  }

  /** Moving month and hour by the same number of branches leaves the chart
      unchanged. */
  lemma BirthPalaceShift(month: BranchIndex, hour: BranchIndex, d: nat)
    ensures BirthPalace((month + d) % 12, (hour + d) % 12) == BirthPalace(month, hour)
  {
    ShiftKeepsDifference(month, hour, d);
    BirthPalaceByDifference(month, hour, (month + d) % 12, (hour + d) % 12);
  }

  /** Shifting two branches by the same amount keeps their difference. */
  lemma ShiftKeepsDifference(m: BranchIndex, h: BranchIndex, d: nat)
    ensures ((m + d) % 12 - (h + d) % 12) % 12 == (m - h) % 12
  {
    var e := d % 12;
    var q := d / 12;
    assert d == 12 * q + e;
    assert (m + d) % 12 == (m + e) % 12 by {
      assert m + d == (m + e) + 12 * q;
    }
    assert (h + d) % 12 == (h + e) % 12 by {
      assert h + d == (h + e) + 12 * q;
    }
    var x := if m + e < 12 then m + e else m + e - 12;
    var y := if h + e < 12 then h + e else h + e - 12;
    assert (m + e) % 12 == x && (h + e) % 12 == y;
    assert x - y == m - h || x - y == m - h + 12 || x - y == m - h - 12;
  }

  /** The chart depends on month and hour only through their difference
      modulo 12. */
  lemma BirthPalaceByDifference(m1: BranchIndex, h1: BranchIndex, m2: BranchIndex, h2: BranchIndex)
    requires (m1 - h1) % 12 == (m2 - h2) % 12
    ensures BirthPalace(m1, h1) == BirthPalace(m2, h2)
  {
    assert SelfPalace(m1, h1) == SelfPalace(m2, h2);
  }

  /** Month 卯 (3), hour 丑 (1): 子 is 夫妻, 丑 is 兄弟 and 寅 is 命宮. */
  lemma BirthPalaceExample()
    ensures Earthlys[3] == "卯" && Earthlys[1] == "丑"
    ensures Earthlys[0] == "子" && Earthlys[2] == "寅"
    ensures BirthPalace(3, 1)[0] == "夫妻"
    ensures BirthPalace(3, 1)[1] == "兄弟"
    ensures BirthPalace(3, 1)[2] == "命宮"
  {
  }
}

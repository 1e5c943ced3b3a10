/** The three fixed cyclic alphabets of the chart: the ten heavenly stems,
    the twelve earthly branches and the twelve palace names. A stem or a
    branch is represented by its position in its table; the labels are kept
    as constant sequences so that the rules can return them. */
module Alphabets {

  /** Positions in the ten-stem cycle (甲 = 0 … 癸 = 9). */
  type StemIndex = i: int | 0 <= i < 10

  /** Positions in the twelve-branch cycle (子 = 0 … 亥 = 11). */
  type BranchIndex = i: int | 0 <= i < 12

  const Heavenlys: seq<string> := ["甲", "乙", "丙", "丁", "戊", "己", "庚", "辛", "壬", "癸"]

  const Earthlys: seq<string> := ["子", "丑", "寅", "卯", "辰", "巳", "午", "未", "申", "酉", "戌", "亥"]

  /** Reference order of the palaces; palace 0, 命宮, is the self palace. */
  const Palaces: seq<string> := [
    "命宮", "父母", "福德", "田宅", "官祿", "交友",
    "遷移", "疾厄", "財帛", "子女", "夫妻", "兄弟"
  ]

  const SelfPalaceName: string := "命宮"

  /** No label occurs twice in s. */
  predicate AllDistinct(s: seq<string>)
  {
    forall i, j :: 0 <= i < j < |s| ==> s[i] != s[j]
  }

  /** Every table has the size of its cycle and no repeated label, so a label
      and its position determine each other. */
  lemma TablesWellFormed()
    ensures |Heavenlys| == 10 && |Earthlys| == 12 && |Palaces| == 12
    ensures AllDistinct(Heavenlys) && AllDistinct(Earthlys) && AllDistinct(Palaces)
    ensures Palaces[0] == SelfPalaceName
  {
  }

  /** Equal labels of a distinct table sit at equal positions. */
  lemma DistinctAt(s: seq<string>, i: int, j: int)
    requires AllDistinct(s)
    requires 0 <= i < |s| && 0 <= j < |s|
    ensures s[i] == s[j] <==> i == j
  {
  }
}

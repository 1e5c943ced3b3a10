/** The stem rule: each of the twelve branches receives a heavenly stem,
    starting from a stem fixed by the year stem at 寅 and advancing one stem per
    branch; 子 and 丑 repeat the stems of 寅 and 卯. */
module Heavenly {
  import opened Alphabets

  /** The stem given to 寅. Years whose stems lie five apart (甲/己, 乙/庚,
      丙/辛, 丁/壬, 戊/癸) share it, and it is always a yang (even) stem, so its
      successor is still a stem. */
  function StartStem(year: StemIndex): (s: StemIndex)
    ensures s % 2 == 0 && s + 1 < 10
  {
    ((year % 5) * 2 + 2) % 10
  }

  /** Stem of branch b in closed form, the reference the filling method is
      proved against: 寅 onwards counts up from the start stem, 子 and 丑 take
      the stems of 寅 and 卯. */
  function HeavenlyStem(year: StemIndex, b: BranchIndex): (r: StemIndex)
  {
    var offset := if b < 2 then b else b - 2;
    (StartStem(year) + offset) % 10
  }

  /** Fills the stem label of every branch, 子 and 丑 first and then 寅 … 亥 in
      one pass. */
  method BirthHeavenly(year: StemIndex) returns (a: array<string>)
    ensures fresh(a) && a.Length == 12
    ensures forall b: BranchIndex :: a[b] == Heavenlys[HeavenlyStem(year, b)]
    ensures a[2] == Heavenlys[StartStem(year)]
    ensures a[0] == a[2] && a[1] == a[3]
  {
    var start: int := StartStem(year);
    a := new string[12];
    a[0] := Heavenlys[start];
    a[1] := Heavenlys[start + 1];
    for i := 0 to 10
      invariant a[0] == Heavenlys[start] && a[1] == Heavenlys[start + 1]
      invariant forall j :: 2 <= j < 2 + i ==> a[j] == Heavenlys[HeavenlyStem(year, j)]
    {
      a[2 + i] := Heavenlys[(start + i) % 10];
      assert HeavenlyStem(year, 2 + i) == (start + i) % 10;
    }
  }

  /** The start stem for each pair of year stems, as the traditional table has
      it: 甲己 → 丙, 乙庚 → 戊, 丙辛 → 庚, 丁壬 → 壬, 戊癸 → 甲. */
  lemma StartStemTable()
    ensures Heavenlys[StartStem(0)] == "丙" && Heavenlys[StartStem(5)] == "丙"
    ensures Heavenlys[StartStem(1)] == "戊" && Heavenlys[StartStem(6)] == "戊"
    ensures Heavenlys[StartStem(2)] == "庚" && Heavenlys[StartStem(7)] == "庚"
    ensures Heavenlys[StartStem(3)] == "壬" && Heavenlys[StartStem(8)] == "壬"
    ensures Heavenlys[StartStem(4)] == "甲" && Heavenlys[StartStem(9)] == "甲"
  {
  }

  /** From 寅 to 亥 each branch has the stem after that of the branch before. */
  lemma HeavenlyAdvances(year: StemIndex, b: int)
    requires 2 <= b < 11
    ensures HeavenlyStem(year, b + 1) == (HeavenlyStem(year, b) + 1) % 10
  {
    var s := StartStem(year);
    if s + b - 2 < 10 {
      assert HeavenlyStem(year, b) == s + b - 2;
    } else {
      assert HeavenlyStem(year, b) == s + b - 12;
    }
  }

  /** 子 repeats the stem of 寅 and 丑 that of 卯. */
  lemma HeavenlyFirstTwo(year: StemIndex)
    ensures HeavenlyStem(year, 0) == HeavenlyStem(year, 2)
    ensures HeavenlyStem(year, 1) == HeavenlyStem(year, 3)
  {
  }

  /** The ten branches 寅 … 亥 receive the ten stems, each exactly once:
      branch b holds stem t if and only if b lies (t - start) mod 10 branches
      after 寅. */
  lemma HeavenlyCoversStems(year: StemIndex, b: int, t: StemIndex)
    requires 2 <= b < 12
    ensures HeavenlyStem(year, b) == t <==> b == 2 + (t - StartStem(year)) % 10
  {
    var s := StartStem(year);
    var k := b - 2;
    if s + k < 10 {
      assert HeavenlyStem(year, b) == s + k;
    } else {
      assert HeavenlyStem(year, b) == s + k - 10;
    }
  }

  /** Stems and branches agree in polarity: yang stems fall on yang branches. */
  lemma HeavenlyPolarity(year: StemIndex, b: BranchIndex)
    ensures HeavenlyStem(year, b) % 2 == b % 2
  {
    var s := StartStem(year);
    var offset := if b < 2 then b else b - 2;
    if s + offset < 10 {
      assert HeavenlyStem(year, b) == s + offset;
    } else {
      assert HeavenlyStem(year, b) == s + offset - 10;
    }
  }

  /** Year stems five apart give the same stem on every branch. */
  lemma HeavenlyByYearPair(y1: StemIndex, y2: StemIndex, b: BranchIndex)
    requires y1 % 5 == y2 % 5
    ensures HeavenlyStem(y1, b) == HeavenlyStem(y2, b)
  {
  }

  /** Year stem 癸 (9): 子 gets 甲, 丑 gets 乙, 寅 gets 甲. */
  lemma HeavenlyExample()
    ensures Heavenlys[9] == "癸"
    ensures Earthlys[0] == "子" && Earthlys[1] == "丑" && Earthlys[2] == "寅"
    ensures Heavenlys[HeavenlyStem(9, 0)] == "甲"
    ensures Heavenlys[HeavenlyStem(9, 1)] == "乙"
    ensures Heavenlys[HeavenlyStem(9, 2)] == "甲"
  {
  }
}

# Zi Wei Dou Shu chart placement rules

A model of the three placement rules of a Zi Wei Dou Shu (紫微斗數) natal
chart that `app.py` implements, with proofs of their properties. Each rule
assigns something to each of the twelve earthly branches (子 … 亥):

- the twelve palace names (命宮, 父母, …, 兄弟), rotated according to the
  birth month and birth hour (`birth_palace`);
- a single body-palace (身宮) flag, fixed by the birth month and hour
  (`birth_bodypalace`);
- a heavenly stem for every branch, fixed by the stem of the birth year
  (`birth_heavenly`).

Stems and branches are represented by their positions in the tables
`HEAVENLYS` (0–9) and `EARTHLYS` (0–11), as the subset types
`Alphabets.StemIndex` and `Alphabets.BranchIndex`. The labels stay constant
sequences (`Alphabets.Heavenlys`, `Alphabets.Earthlys`, `Alphabets.Palaces`).
Each rule's result is indexed by branch position, standing for the
dictionary keyed by branch label that the Python returns.

- `Palace` (palace.dfy): `birth_palace` is the function `BirthPalace`, a
  sequence of twelve palace labels. Lemmas show it is a rotation and a
  permutation of the palace table, and that each name lands on exactly one
  branch, 命宮 on the self-palace branch. One branch forward is one palace
  forward. The chart depends only on the month–hour difference.
- `BodyPalace` (body_palace.dfy): `birth_bodypalace` is the function
  `BirthBodyPalace`, twelve flags. As in the source, a flag compares branch
  labels. Because the labels are distinct, exactly one flag is set.
- `Heavenly` (heavenly.dfy): `birth_heavenly` is the method `BirthHeavenly`.
  It fills a twelve-slot array of stem labels the way the source fills its
  dictionary: 子 and 丑 first, then 寅 … 亥 in a loop. The array is new on
  every call, as the dictionary is. `HeavenlyStem` is the closed form of
  app.py:68-70: 寅 onwards counts up from the start stem, and 子 and 丑 take
  the stems of 寅 and 卯. The method's postcondition ties every slot of the
  array to it. Lemmas about that function give
  the start-stem table, the +1 step, the 子/丑 repetition, the coverage of all
  ten stems by 寅 … 亥, polarity agreement, and that year stems five apart
  give the same result.

The comment at app.py:62 writes the branch 戌 where the stem 戊 is meant. The
code computes 戊 (index 4), and the model follows the code.

## Model

| member | source | states |
|---|---|---|
| Alphabets.TablesWellFormed | app.py:1-7 | the stem table has 10 labels, the branch and palace tables 12 each, no table repeats a label, and palace 0 is 命宮 |
| Palace.SelfPalace | app.py:23 | the self-palace branch is the one from which counting `hour` branches forward reaches the month branch |
| Palace.BirthPalace | app.py:10-27 | the result has an entry for each of the 12 branches, and the self-palace branch holds 命宮 |
| Palace.PalaceAt | app.py:23-27 | palace k of the reference order sits k branches after the self palace (mod 12) |
| Palace.PalaceExactlyOnce | app.py:24-27 | branch i holds palace k if and only if i is k branches after the self palace, so every palace name appears exactly once |
| Palace.SelfPalaceUnique | app.py:23-25 | a branch holds 命宮 if and only if it is the self-palace branch |
| Palace.PalaceStep | app.py:25 | moving one branch forward moves one palace forward in the reference order, mod 12 |
| Palace.BirthPalaceIsRotation | app.py:23-27 | the result is the palace table rotated right by the self-palace index |
| Palace.BirthPalaceIsPermutation | app.py:24-27 | the result is a permutation of the palace table (equal multisets) |
| Palace.BirthPalaceShift | app.py:23 | shifting month and hour by the same number of branches gives the same chart |
| Palace.BirthPalaceByDifference | app.py:23 | two month–hour pairs with the same difference mod 12 give the same chart |
| Palace.BirthPalaceExample | app.py:12-14 | for month 卯 and hour 丑: 子 is 夫妻, 丑 is 兄弟, 寅 is 命宮 |
| BodyPalace.BodyPalaceBranch | app.py:43 | the body-palace branch is the one from which counting `hour` branches back reaches the month branch |
| BodyPalace.BirthBodyPalace | app.py:43-46 | there are 12 flags, and branch i is flagged if and only if it is the body-palace branch (label comparison, with distinct labels) |
| BodyPalace.BodyPalaceExactlyOne | app.py:44-46 | exactly one of the twelve flags is true |
| BodyPalace.BodyMeetsSelf | app.py:43 | the body palace and the self palace (app.py:23) share a branch if and only if the hour is 子 or 午 |
| BodyPalace.BirthBodyPalaceExample | app.py:32-34 | for month 卯 and hour 丑 only 辰 is flagged |
| Heavenly.StartStem | app.py:67 | the stem for 寅 is always a yang (even) stem below 9, so indexing its successor (app.py:68) stays in range |
| Heavenly.BirthHeavenly | app.py:49-71 | the result is a new 12-slot array; all 12 slots are filled, each with the closed-form stem of its branch; 寅 gets the start stem; 子 equals 寅 and 丑 equals 卯 |
| Heavenly.StartStemTable | app.py:61-66 | the start-stem table: 甲己→丙, 乙庚→戊, 丙辛→庚, 丁壬→壬, 戊癸→甲 |
| Heavenly.HeavenlyAdvances | app.py:69-70 | from 寅 to 亥 each branch's stem is the previous branch's stem + 1 mod 10 |
| Heavenly.HeavenlyFirstTwo | app.py:68 | 子 gets the stem of 寅, and 丑 the stem of 卯 |
| Heavenly.HeavenlyCoversStems | app.py:69-70 | the branches 寅 … 亥 receive each of the ten stems exactly once; branch b holds stem t iff b = 2 + (t − start) mod 10 |
| Heavenly.HeavenlyPolarity | app.py:67-70 | every branch receives a stem of its own parity (yang stem on a yang branch) |
| Heavenly.HeavenlyByYearPair | app.py:67 | year stems equal mod 5 (甲/己, 乙/庚, …) give the same stem on every branch |
| Heavenly.HeavenlyExample | app.py:51-53 | for year stem 癸: 子 gets 甲, 丑 gets 乙, 寅 gets 甲 |

## Left out

- `ANIMALS` (app.py:3) is never read by any function, so it is not modelled.
- Inputs are stem and branch positions, not labels. The label lookup with
  `.index` (app.py:23, 43, 67) and its `ValueError` for an unknown label are
  replaced by the index subset types. An out-of-alphabet input therefore
  cannot be expressed.
- Results are sequences (or an array) indexed by branch position, not
  dictionaries keyed by branch label. Dictionary insertion order carries no
  meaning in the source and is not modelled.
- The later chart stages (elemental cycle, anchor-star location, star
  placement, transformation tags, chart assembly) are not part of this
  model: they are not in app.py.

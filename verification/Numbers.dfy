/** Numbers as strings, and facts about products. */
module Numbers {

  /** A string for each number, its length one more. */
  function Numbered(i: nat): (id: string)
    ensures |id| == i + 1
  {
    seq(i + 1, _ => 'a')
  }

  lemma TimesMore(n: nat, d: nat)
    requires n > 0
    ensures n * d == (n - 1) * d + d
  {
  }

  lemma TimesMonotone(x: nat, y: nat, d: nat)
    requires x <= y
    ensures x * d <= y * d
  {
  }

}

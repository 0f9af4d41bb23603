/** The per-category comparison of league.py `_process_stat`. */
module Comparator {
  import opened Registry
  import opened Records

  /** The slots to increment for team 1 and team 2 when team 1 has `v1` and team 2 has `v2` in `stat`. */
  function ProcessStat(stat: Stat, v1: real, v2: real): (r: (Slot, Slot))
    ensures r.1 == r.0.Opposite()
    ensures r.0 == Tie <==> v1 == v2
  {
    if v1 > v2 then
      if stat == TO then (Loss, Win) else (Win, Loss)
    else if v1 < v2 then
      if stat == TO then (Win, Loss) else (Loss, Win)
    else
      (Tie, Tie)
  }

  /** The source hard-codes the check on the label "TO"; against the registry's explicit polarity, team 1
      wins a category exactly when its value is the favourable one, and loses exactly when team 2's is. */
  lemma ProcessStatPolarity(stat: Stat, v1: real, v2: real)
    ensures ProcessStat(stat, v1, v2).0 == Win <==> Better(PolarityOf(stat), v1, v2)
    ensures ProcessStat(stat, v1, v2).0 == Loss <==> Better(PolarityOf(stat), v2, v1)
  {
    OnlyTurnoversInverted(stat);
  }

  /** The only index pairs the comparator returns are (0,1), (1,0) and (2,2). */
  lemma ProcessStatIndices(stat: Stat, v1: real, v2: real)
    ensures var r := ProcessStat(stat, v1, v2);
      (r.0.Index(), r.1.Index()) in {(0, 1), (1, 0), (2, 2)}
  {
  }

  /** Swapping the two teams swaps the returned pair. */
  lemma ProcessStatSwap(stat: Stat, v1: real, v2: real)
    ensures ProcessStat(stat, v2, v1) == (ProcessStat(stat, v1, v2).1, ProcessStat(stat, v1, v2).0)
  {
  }

  /** Ten turnovers beat fifteen; a hundred points beat ninety. */
  lemma ProcessStatExamples()
    ensures ProcessStat(TO, 10.0, 15.0) == (Win, Loss)
    ensures ProcessStat(PTS, 100.0, 90.0) == (Win, Loss)
    ensures ProcessStat(TO, 12.0, 12.0) == (Tie, Tie)
  {
  }
}

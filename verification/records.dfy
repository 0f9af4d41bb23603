/** Per-matchup and cumulative category records, `[wins, losses, ties]` in the source. */
module Records {

  /** The slot of a record a single category result increments. */
  datatype Slot = Win | Loss | Tie {

    /** The list index the source uses for this slot. */
    function Index(): (i: nat)
      ensures i <= 2
    {
      match this
      case Win => 0
      case Loss => 1
      case Tie => 2
    }

    /** The slot the other team of the same category comparison receives. */
    function Opposite(): Slot {
      match this
      case Win => Loss
      case Loss => Win
      case Tie => Tie
    }
  }

  /** Category wins, losses and ties. */
  datatype Record = Record(wins: nat, losses: nat, ties: nat) {

    /** Number of categories this record has counted. */
    function Total(): nat {
      wins + losses + ties
    }

    /** `record[slot] += 1`. */
    function Bump(s: Slot): Record
    {
      match s
      case Win => this.(wins := wins + 1)
      case Loss => this.(losses := losses + 1)
      case Tie => this.(ties := ties + 1)
    }

    /** Element-wise sum, `[a + b for a, b in zip(...)]`. */
    function Plus(o: Record): Record
    {
      Record(wins + o.wins, losses + o.losses, ties + o.ties)
    }

    /** The same matchup seen from the opponent's side. */
    function Mirror(): Record {
      Record(losses, wins, ties)
    }
  }

  const Zero: Record := Record(0, 0, 0)

  /** The empty record is neutral for addition. */
  lemma PlusZero(r: Record)
    ensures Zero.Plus(r) == r
  {
  }

  /** The empty record is neutral on the right too. */
  lemma PlusZeroRight(r: Record)
    ensures r.Plus(Zero) == r
  {
  }

  /** Bumping the second summand is bumping the sum. */
  lemma PlusBumpRight(p: Record, q: Record, s: Slot)
    ensures p.Plus(q.Bump(s)) == p.Plus(q).Bump(s)
  {
  }

  /** Adding records adds the categories they count. */
  lemma PlusTotal(a: Record, b: Record)
    ensures a.Plus(b).Total() == a.Total() + b.Total()
  {
  }

  /** Addition of records lets the summands be exchanged. */
  lemma PlusExchange(a: Record, b: Record, c: Record)
    ensures a.Plus(b.Plus(c)) == b.Plus(a.Plus(c))
  {
  }

  /** Addition of records is associative. */
  lemma PlusAssociative(a: Record, b: Record, c: Record)
    ensures a.Plus(b).Plus(c) == a.Plus(b.Plus(c))
  {
  }

  /** Adding `a` and then `b` to `x` is adding their sum. */
  lemma PlusRotate(x: Record, a: Record, b: Record)
    ensures b.Plus(a.Plus(x)) == x.Plus(a.Plus(b))
  {
  }

  /** Bumping a sum is bumping its first part. */
  lemma BumpPlus(p: Record, q: Record, s: Slot)
    ensures p.Plus(q).Bump(s) == p.Bump(s).Plus(q)
  {
  }

  /** Bumping opposite slots keeps two records mirror images of each other. */
  lemma BumpMirror(r: Record, s: Slot)
    ensures r.Mirror().Bump(s.Opposite()) == r.Bump(s).Mirror()
  {
  }
}

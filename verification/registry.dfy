/** The scoring categories of a 9-category basketball league and their polarity. */
module Registry {
  import opened Wrappers

  /** The nine categories the engine keys statistics by; the stat-id table drops every other stat. */
  datatype Stat = FGPct | FTPct | ThreePTM | PTS | REB | AST | ST | BLK | TO {

    /** The label the source uses as the dictionary key. */
    function Label(): string {
      match this
      case FGPct => "FG%"
      case FTPct => "FT%"
      case ThreePTM => "3PTM"
      case PTS => "PTS"
      case REB => "REB"
      case AST => "AST"
      case ST => "ST"
      case BLK => "BLK"
      case TO => "TO"
    }
  }

  datatype Polarity = HigherIsBetter | LowerIsBetter

  /** A Yahoo stat id, the category it maps to, and that category's polarity. */
  datatype Category = Category(statId: string, stat: Stat, polarity: Polarity)

  /** The stat-id table, in its display order, with the one inverted category made explicit. */
  const Categories: seq<Category> := [
    Category("5", FGPct, HigherIsBetter),
    Category("8", FTPct, HigherIsBetter),
    Category("10", ThreePTM, HigherIsBetter),
    Category("12", PTS, HigherIsBetter),
    Category("15", REB, HigherIsBetter),
    Category("16", AST, HigherIsBetter),
    Category("17", ST, HigherIsBetter),
    Category("18", BLK, HigherIsBetter),
    Category("19", TO, LowerIsBetter)
  ]

  /** The polarity of the first entry of `cats` for `stat`; a stat outside the table is
      compared higher-is-better. */
  function PolarityIn(cats: seq<Category>, stat: Stat): Polarity {
    if |cats| == 0 then HigherIsBetter
    else if cats[0].stat == stat then cats[0].polarity
    else PolarityIn(cats[1..], stat)
  }

  /** The registry's polarity for a category. */
  function PolarityOf(stat: Stat): Polarity {
    PolarityIn(Categories, stat)
  }

  /** `a` is the favourable value under polarity `p`. */
  predicate Better(p: Polarity, a: real, b: real) {
    match p
    case HigherIsBetter => a > b
    case LowerIsBetter => a < b
  }

  /** The category a label names, the inverse of `Label`. */
  function FromLabel(name: string): Option<Stat> {
    if name == "FG%" then Some(FGPct)
    else if name == "FT%" then Some(FTPct)
    else if name == "3PTM" then Some(ThreePTM)
    else if name == "PTS" then Some(PTS)
    else if name == "REB" then Some(REB)
    else if name == "AST" then Some(AST)
    else if name == "ST" then Some(ST)
    else if name == "BLK" then Some(BLK)
    else if name == "TO" then Some(TO)
    else None
  }

  /** Each label names its own category, so no two categories share a label. */
  lemma LabelRoundTrip(s: Stat)
    ensures FromLabel(s.Label()) == Some(s)
  {
  }

  /** The script compares labels with the string "TO"; only turnovers carry that label. */
  lemma LabelIsTurnovers(s: Stat)
    ensures s.Label() == "TO" <==> s == TO
  {
  }

  /** The position of a category in the table. */
  function Position(s: Stat): (i: nat)
    ensures i < |Categories| && Categories[i].stat == s
  {
    match s
    case FGPct => 0
    case FTPct => 1
    case ThreePTM => 2
    case PTS => 3
    case REB => 4
    case AST => 5
    case ST => 6
    case BLK => 7
    case TO => 8
  }

  /** The table lists nine categories, each once, under distinct stat ids. */
  lemma RegistryWellFormed()
    ensures |Categories| == 9
    ensures forall i, j :: 0 <= i < j < |Categories| ==> Categories[i].stat != Categories[j].stat
    ensures forall i, j :: 0 <= i < j < |Categories| ==> Categories[i].statId != Categories[j].statId
  {
  }

  /** The lookup finds a lower-is-better entry exactly when the table lists one for that category,
      provided no category is listed twice. */
  lemma {:induction false} PolarityInFinds(cats: seq<Category>, stat: Stat)
    requires forall i, j :: 0 <= i < j < |cats| ==> cats[i].stat != cats[j].stat
    ensures PolarityIn(cats, stat) == LowerIsBetter <==>
      exists i :: 0 <= i < |cats| && cats[i].stat == stat && cats[i].polarity == LowerIsBetter
  {
    if |cats| > 0 {
      PolarityInFinds(cats[1..], stat);
      if cats[0].stat != stat {
        if exists i :: 0 <= i < |cats| && cats[i].stat == stat && cats[i].polarity == LowerIsBetter {
          var i :| 0 <= i < |cats| && cats[i].stat == stat && cats[i].polarity == LowerIsBetter;
          assert cats[1..][i - 1] == cats[i];
        }
      }
    }
  }

  /** Turnovers are the only lower-is-better category. */
  lemma OnlyTurnoversInverted(stat: Stat)
    ensures PolarityOf(stat) == LowerIsBetter <==> stat == TO
  {
    RegistryWellFormed();
    PolarityInFinds(Categories, stat);
    if stat == TO {
      assert Categories[8].stat == stat && Categories[8].polarity == LowerIsBetter;
    }
  }
}

/**
 * The canonical record types shared by the backend and the front end
 * (backend/src/types/index.ts, front-end/src/types/fundraise.ts).
 * ISO-8601 timestamps are modelled as integers (milliseconds since the epoch).
 */
module Types {
  import opened Wrappers

  datatype Stage = PreSeed | Seed | SeriesA | SeriesB | SeriesC | SeriesDPlus | Growth

  /** The string spelling of a stage, as it appears in JSON. */
  function StageName(s: Stage): string {
    match s
    case PreSeed => "Pre-Seed"
    case Seed => "Seed"
    case SeriesA => "Series A"
    case SeriesB => "Series B"
    case SeriesC => "Series C"
    case SeriesDPlus => "Series D+"
    case Growth => "Growth"
  }

  datatype Fundraise = Fundraise(
    id: string,
    companyName: string,
    description: string,
    stage: Stage,
    amountRaised: string,
    announcedAt: int,
    sourceUrl: string,
    createdAt: int,
    investors: Option<seq<string>>,
    geography: Option<string>)

  /** The two independent feed variants. */
  datatype Mode = Archive | Recent

  /** `mode !== 'archive' && mode !== 'recent'` rejects everything else. */
  function ParseMode(s: string): (r: Option<Mode>)
    ensures r == Some(Archive) <==> s == "archive"
    ensures r == Some(Recent) <==> s == "recent"
  {
    if s == "archive" then Some(Archive)
    else if s == "recent" then Some(Recent)
    else None
  }

  datatype Decision = Like | Pass
}

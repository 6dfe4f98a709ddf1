/**
 * The values the league plugin works on. In the program these are JSON-like
 * dictionaries; here each has the keys the plugin reads and writes.
 */
module LeagueData {
  import opened Wrappers

  type Player = string

  /** One game of a match: the yellow roster (team 0) and the black roster (team 1). */
  datatype Submatch = Submatch(yellow: seq<Player>, black: seq<Player>)

  /** The `[yellow, black]` score of one played submatch. */
  datatype Score = Score(yellow: int, black: int)

  /**
   * A league match. `results` stands for `match.get('results', [])`; the
   * optional keys `id`, `start`, `end` and `division` are None when absent.
   */
  datatype Match = Match(
    id: Option<int>,
    players: seq<Player>,
    submatches: seq<Submatch>,
    results: seq<Score>,
    startTime: Option<int>,
    endTime: Option<int>,
    division: Option<string>)

  datatype Division = Division(name: string, matches: seq<Match>)

  /** The league file: the competition, division by division. */
  type Schedule = seq<Division>

  /** The payloads the league plugin publishes or receives on the bus. */
  datatype Payload =
    | NoData                                     // notify(name) or data None
    | GameMode(mode: int)                        // {"mode": m}
    | Teams(yellow: seq<Player>, black: seq<Player>)
    | TeamsWithPoints(yellow: seq<Player>, black: seq<Player>,
                      yellowPoints: seq<string>, blackPoints: seq<string>)
    | PointsTally(points: map<Player, int>)      // {'points': ...}
    | MatchData(m: Match)                        // a scheduled match to start
}

/** The records the analyzer passes between its stages: the line score of the
    game, the side a team bats on, and an analysed at-bat. */
module Records {
  import opened Text
  import opened Outcome

  /** `'home' | 'away'` */
  datatype Side = Home | Away

  /** The fields of the line score the analyzer reads. The short names are the
      players' names and may be absent; hits and runs arrive as text. */
  datatype LineScore = LineScore(
    homeFullName: string,
    awayFullName: string,
    homeName: Option<string>,
    awayName: Option<string>,
    homeHits: string,
    awayHits: string,
    homeRuns: string,
    awayRuns: string)

  /** An at-bat after analysis: the raw at-bat's fields, the outcome of its first
      sentence, the runs batted in, whether a runner was in scoring position, the
      runners before it, and the outs before it. */
  datatype AtBatEvent = AtBatEvent(
    batter: string,
    inning: int,
    isTopInning: bool,
    log: seq<string>,
    result: AtBatResult,
    rbi: nat,
    risp: bool,
    runnersBefore: map<string, int>,
    outsBefore: nat)
}

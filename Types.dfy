/** The data shapes shared by the roster, the tournament engine and the
    format estimates: players, matches, tournaments and league table rows. */
module Types {

  datatype Option<T> = None | Some(value: T)

  /** `xs.findIndex(x => key(x) === id)`, with `None` for -1: the first
      position whose key is `id`. */
  function FindFirst<T>(xs: seq<T>, key: T -> string, id: string): (r: Option<nat>)
    ensures r.Some? ==> r.value < |xs| && key(xs[r.value]) == id && forall k :: 0 <= k < r.value ==> key(xs[k]) != id
    ensures r.None? ==> forall k :: 0 <= k < |xs| ==> key(xs[k]) != id
  {
    if xs == [] then None
    else if key(xs[0]) == id then Some(0)
    else match FindFirst(xs[1..], key, id)
      case None => None
      case Some(k) => Some(k + 1)
  }

  /** An instant as produced by `new Date()`; never interpreted, only stored. */
  type Time = int

  datatype Player = Player(id: string, name: string, avatar: Option<string>, createdAt: Time)

  datatype Format = League | Knockout | Champions

  datatype Status = Setup | InProgress | Completed

  /** A fixture. Either slot may hold a placeholder player whose id starts
      with "tbd"; scores, round and match number are optional fields. */
  datatype Match = Match(
    id: string,
    tournamentId: string,
    player1: Player,
    player2: Player,
    score1: Option<int>,
    score2: Option<int>,
    winner: Option<Player>,
    completed: bool,
    round: Option<int>,
    matchNumber: Option<int>,
    playedAt: Option<Time>)

  datatype Tournament = Tournament(
    id: string,
    name: string,
    format: Format,
    players: seq<Player>,
    matches: seq<Match>,
    status: Status,
    winner: Option<Player>,
    createdAt: Time,
    completedAt: Option<Time>)

  /** One row of the league table. */
  datatype Standing = Standing(
    player: Player,
    points: int,
    wins: int,
    draws: int,
    losses: int,
    goalsFor: int,
    goalsAgainst: int,
    goalDifference: int,
    gamesPlayed: int)
}

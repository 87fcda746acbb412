/** What recording or editing a result does to a tournament's matches:
    the target match takes the scores, champions tournaments move qualifiers
    and semifinal results into the sentinel slots of later rounds, and the
    tournament is checked for completion and a winner. */
module Progression {
  import opened Types
  import Text
  import Standings
  import Generation

  // ---------------------------------------------------------------------
  // The target match

  /** The higher-scoring slot; nobody on a draw. */
  function Decide(m: Match, score1: int, score2: int): Option<Player> {
    if score1 > score2 then Some(m.player1)
    else if score1 < score2 then Some(m.player2)
    else None
  }

  /** The match as `updateMatchResult` writes it back. */
  function Played(m: Match, score1: int, score2: int, now: Time): Match {
    m.(score1 := Some(score1), score2 := Some(score2), winner := Decide(m, score1, score2),
       completed := true, playedAt := Some(now))
  }

  /** The match as `editMatchResult` writes it back: `completed` is not touched. */
  function Rescored(m: Match, score1: int, score2: int, now: Time): Match {
    m.(score1 := Some(score1), score2 := Some(score2), winner := Decide(m, score1, score2),
       playedAt := Some(now))
  }

  /** `matches.findIndex(m => m.id === matchId)`, with `None` for -1. */
  function FindMatch(ms: seq<Match>, id: string): (r: Option<nat>)
    ensures r.Some? ==> r.value < |ms| && ms[r.value].id == id && forall k :: 0 <= k < r.value ==> ms[k].id != id
    ensures r.None? ==> forall k :: 0 <= k < |ms| ==> ms[k].id != id
  {
    FindFirst(ms, (x: Match) => x.id, id)
  }

  // ---------------------------------------------------------------------
  // Champions progression

  /** `m.round && m.round <= groupStageRounds`: a round of 0 is falsy. */
  predicate InGroupStage(m: Match, g: int) {
    m.round.Some? && m.round.value != 0 && m.round.value <= g
  }

  predicate GroupStageComplete(ms: seq<Match>, g: int) {
    forall k :: 0 <= k < |ms| && InGroupStage(ms[k], g) ==> ms[k].completed
  }

  /** `standings.slice(0, 4)`. */
  function Qualified(st: seq<Standing>): (q: seq<Standing>)
    ensures |q| <= 4 && |q| <= |st| && q == st[..|q|]
    ensures |st| >= 4 ==> |q| == 4
  {
    if |st| <= 4 then st else st[..4]
  }

  /** One iteration of the semifinal loop. The four `if`s each spread the
      match as it was before the loop body, so only the last one that applies
      survives: the chain below checks them in reverse order. */
  function SemiFill(m: Match, sf: int, q: seq<Standing>): (r: Match)
    ensures r == m.(player1 := r.player1, player2 := r.player2)
    ensures r.player1 == m.player1 || r.player2 == m.player2
    ensures r != m ==> m.round == Some(sf) && !m.completed
    ensures r.player1 != m.player1 ==>
              (m.player1.id == "tbd-1st" && |q| > 0 && r.player1 == q[0].player)
              || (m.player1.id == "tbd-2nd" && |q| > 1 && r.player1 == q[1].player)
    ensures r.player2 != m.player2 ==>
              (m.player2.id == "tbd-4th" && |q| > 3 && r.player2 == q[3].player)
              || (m.player2.id == "tbd-3rd" && |q| > 2 && r.player2 == q[2].player)
  {
    if m.round == Some(sf) && !m.completed then
      if m.player2.id == "tbd-3rd" && |q| > 2 then m.(player2 := q[2].player)
      else if m.player1.id == "tbd-2nd" && |q| > 1 then m.(player1 := q[1].player)
      else if m.player2.id == "tbd-4th" && |q| > 3 then m.(player2 := q[3].player)
      else if m.player1.id == "tbd-1st" && |q| > 0 then m.(player1 := q[0].player)
      else m
    else m
  }

  function SemiPass(ms: seq<Match>, sf: int, q: seq<Standing>): (r: seq<Match>)
    ensures |r| == |ms|
  {
    seq(|ms|, k requires 0 <= k < |ms| => SemiFill(ms[k], sf, q))
  }

  /** `matches.filter(m => m.round === r)`. */
  function WithRound(ms: seq<Match>, r: int): (s: seq<Match>)
    ensures |s| <= |ms|
  {
    if ms == [] then []
    else (if ms[0].round == Some(r) then [ms[0]] else []) + WithRound(ms[1..], r)
  }

  predicate AllCompleted(ms: seq<Match>) {
    forall k :: 0 <= k < |ms| ==> ms[k].completed
  }

  /** `winner?.id === player1.id ? player2 : player1`: player1 on a draw. */
  function LoserOf(m: Match): Player {
    if m.winner.Some? && m.winner.value.id == m.player1.id then m.player2 else m.player1
  }

  /** What the first two semifinals hand on; a missing semifinal hands on nothing. */
  datatype SemiResults = SemiResults(
    loser1: Option<Player>, loser2: Option<Player>,
    winner1: Option<Player>, winner2: Option<Player>)

  function ResultsOf(semis: seq<Match>): SemiResults {
    SemiResults(
      if |semis| > 0 then Some(LoserOf(semis[0])) else None,
      if |semis| > 1 then Some(LoserOf(semis[1])) else None,
      if |semis| > 0 then semis[0].winner else None,
      if |semis| > 1 then semis[1].winner else None)
  }

  /** One iteration of the final loop; again the last applicable `if` wins. */
  function FinalFill(m: Match, fr: int, res: SemiResults): (r: Match)
    ensures r == m.(player1 := r.player1, player2 := r.player2)
    ensures r.player1 == m.player1 || r.player2 == m.player2
    ensures r != m ==> m.round == Some(fr) && !m.completed
    ensures r.player1 != m.player1 ==>
              (m.player1.id == "tbd-sf1-winner" && Some(r.player1) == res.winner1)
              || (m.player1.id == "tbd-sf1-loser" && Some(r.player1) == res.loser1)
    ensures r.player2 != m.player2 ==>
              (m.player2.id == "tbd-sf2-winner" && Some(r.player2) == res.winner2)
              || (m.player2.id == "tbd-sf2-loser" && Some(r.player2) == res.loser2)
  {
    if m.round == Some(fr) && !m.completed then
      if m.player2.id == "tbd-sf2-winner" && res.winner2.Some? then m.(player2 := res.winner2.value)
      else if m.player1.id == "tbd-sf1-winner" && res.winner1.Some? then m.(player1 := res.winner1.value)
      else if m.player2.id == "tbd-sf2-loser" && res.loser2.Some? then m.(player2 := res.loser2.value)
      else if m.player1.id == "tbd-sf1-loser" && res.loser1.Some? then m.(player1 := res.loser1.value)
      else m
    else m
  }

  function FinalPass(ms: seq<Match>, fr: int, res: SemiResults): (r: seq<Match>)
    ensures |r| == |ms|
  {
    seq(|ms|, k requires 0 <= k < |ms| => FinalFill(ms[k], fr, res))
  }

  /** The semifinal pass, run when the group stage is complete. */
  function AfterGroupStage(players: seq<Player>, ms: seq<Match>): (r: seq<Match>)
    ensures |r| == |ms|
  {
    var g := Generation.GroupRounds(|players|);
    if GroupStageComplete(ms, g) then SemiPass(ms, g + 1, Qualified(Standings.StandingsOf(players, ms)))
    else ms
  }

  /** The final pass, run when every semifinal is completed (also when there is none). */
  function AfterSemifinals(players: seq<Player>, ms: seq<Match>): (r: seq<Match>)
    ensures |r| == |ms|
  {
    var g := Generation.GroupRounds(|players|);
    var semis := WithRound(ms, g + 1);
    if AllCompleted(semis) then FinalPass(ms, g + 2, ResultsOf(semis)) else ms
  }

  /** The champions branch of `updateMatchResult`; other formats are left as they are. */
  function Progressed(t: Tournament, ms: seq<Match>): (r: seq<Match>)
    ensures |r| == |ms|
  {
    if t.format == Champions then AfterSemifinals(t.players, AfterGroupStage(t.players, ms)) else ms
  }

  // ---------------------------------------------------------------------
  // Completion and the winner

  /** A match counts as done when it is completed or either slot is a placeholder. */
  predicate Resolved(m: Match) {
    m.completed || Text.StartsWith(m.player1.id, "tbd") || Text.StartsWith(m.player2.id, "tbd")
  }

  predicate AllResolved(ms: seq<Match>) {
    forall k :: 0 <= k < |ms| ==> Resolved(ms[k])
  }

  /** `m.round || 0`. */
  function RoundOrZero(m: Match): int {
    if m.round.Some? && m.round.value != 0 then m.round.value else 0
  }

  function Max(a: int, b: int): int {
    if a >= b then a else b
  }

  /** `Math.max(...completed.map(m => m.round || 0))`; `None` when nothing is completed. */
  function MaxCompletedRound(ms: seq<Match>): Option<int> {
    if ms == [] then None
    else
      var rest := MaxCompletedRound(ms[1..]);
      if !ms[0].completed then rest
      else if rest.None? then Some(RoundOrZero(ms[0]))
      else Some(Max(rest.value, RoundOrZero(ms[0])))
  }

  /** The maximum is over the completed matches, and one of them attains it. */
  lemma {:induction false} MaxCompletedRoundBounds(ms: seq<Match>)
    ensures MaxCompletedRound(ms).None? <==> forall k :: 0 <= k < |ms| ==> !ms[k].completed
    ensures MaxCompletedRound(ms).Some? ==>
              forall k :: 0 <= k < |ms| && ms[k].completed ==> RoundOrZero(ms[k]) <= MaxCompletedRound(ms).value
    ensures MaxCompletedRound(ms).Some? ==>
              exists k :: 0 <= k < |ms| && ms[k].completed && RoundOrZero(ms[k]) == MaxCompletedRound(ms).value
  {
    if ms != [] {
      var tail := ms[1..];
      MaxCompletedRoundBounds(tail);
      assert forall k :: 1 <= k < |ms| ==> ms[k] == tail[k - 1];
      var rest := MaxCompletedRound(tail);
      if rest.Some? {
        var j :| 0 <= j < |tail| && tail[j].completed && RoundOrZero(tail[j]) == rest.value;
        assert ms[j + 1] == tail[j];
      }
    }
  }

  /** The first completed match with round `r`. */
  function FindCompleted(ms: seq<Match>, r: int): (k: Option<nat>)
    ensures k.Some? ==> k.value < |ms| && ms[k.value].completed && ms[k.value].round == Some(r)
    ensures k.Some? ==> forall j :: 0 <= j < k.value ==> !(ms[j].completed && ms[j].round == Some(r))
    ensures k.None? ==> forall j :: 0 <= j < |ms| ==> !(ms[j].completed && ms[j].round == Some(r))
  {
    if ms == [] then None
    else if ms[0].completed && ms[0].round == Some(r) then Some(0)
    else match FindCompleted(ms[1..], r)
      case None => None
      case Some(k) => Some(k + 1)
  }

  function WinnerAt(ms: seq<Match>, k: Option<nat>): Option<Player>
    requires k.Some? ==> k.value < |ms|
  {
    if k.Some? then ms[k.value].winner else None
  }

  /** The tournament winner once everything is resolved: the top of the table
      for a league, the winner of the first completed match of the latest
      round for a knockout, the winner of the first completed round-5 match
      for champions. */
  function WinnerOf(t: Tournament, ms: seq<Match>): Option<Player> {
    match t.format
    case League =>
      var st := Standings.StandingsOf(t.players, ms);
      if st == [] then None else Some(st[0].player)
    case Knockout =>
      var last := MaxCompletedRound(ms);
      if last.None? then None else WinnerAt(ms, FindCompleted(ms, last.value))
    case Champions => WinnerAt(ms, FindCompleted(ms, 5))
  }

  /** `updateMatchResult` on the current tournament, the match being at index `i`. */
  function Recorded(t: Tournament, i: nat, score1: int, score2: int, now: Time): Tournament
    requires i < |t.matches|
  {
    var ms := Progressed(t, t.matches[i := Played(t.matches[i], score1, score2, now)]);
    var done := AllResolved(ms);
    var status := if done then Completed else t.status;
    t.(matches := ms, status := status,
       winner := if done then WinnerOf(t, ms) else None,
       completedAt := if status == Completed then Some(now) else None)
  }

  // ---------------------------------------------------------------------
  // Editing

  /** `qualified[k]?.player.id === id`. */
  predicate SeatHolder(q: seq<Standing>, k: nat, id: string) {
    k < |q| && q[k].player.id == id
  }

  /** `qualified[k]?.player || { sentinel }`. */
  function SeatOccupant(q: seq<Standing>, k: nat, sentinel: Player): Player {
    if k < |q| then q[k].player else sentinel
  }

  /** One iteration of the edit's semifinal loop (round 4): a seat is rewritten
      when it holds its sentinel or the player now standing in that place;
      the last applicable `if` wins. */
  function EditSemiFill(m: Match, q: seq<Standing>, now: Time): (r: Match)
    ensures r == m.(player1 := r.player1, player2 := r.player2)
    ensures r.player1 == m.player1 || r.player2 == m.player2
    ensures r != m ==> m.round == Some(4) && !m.completed
    ensures r.player1 != m.player1 ==>
              ((m.player1.id == "tbd-1st" || SeatHolder(q, 0, m.player1.id))
               && r.player1 == SeatOccupant(q, 0, Generation.Sentinel("tbd-1st", "1° Clasificado", now)))
              || ((m.player1.id == "tbd-2nd" || SeatHolder(q, 1, m.player1.id))
               && r.player1 == SeatOccupant(q, 1, Generation.Sentinel("tbd-2nd", "2° Clasificado", now)))
    ensures r.player2 != m.player2 ==>
              ((m.player2.id == "tbd-4th" || SeatHolder(q, 3, m.player2.id))
               && r.player2 == SeatOccupant(q, 3, Generation.Sentinel("tbd-4th", "4° Clasificado", now)))
              || ((m.player2.id == "tbd-3rd" || SeatHolder(q, 2, m.player2.id))
               && r.player2 == SeatOccupant(q, 2, Generation.Sentinel("tbd-3rd", "3° Clasificado", now)))
  {
    if m.round == Some(4) && !m.completed then
      if m.player2.id == "tbd-4th" || SeatHolder(q, 3, m.player2.id) then
        m.(player2 := SeatOccupant(q, 3, Generation.Sentinel("tbd-4th", "4° Clasificado", now)))
      else if m.player2.id == "tbd-3rd" || SeatHolder(q, 2, m.player2.id) then
        m.(player2 := SeatOccupant(q, 2, Generation.Sentinel("tbd-3rd", "3° Clasificado", now)))
      else if m.player1.id == "tbd-2nd" || SeatHolder(q, 1, m.player1.id) then
        m.(player1 := SeatOccupant(q, 1, Generation.Sentinel("tbd-2nd", "2° Clasificado", now)))
      else if m.player1.id == "tbd-1st" || SeatHolder(q, 0, m.player1.id) then
        m.(player1 := SeatOccupant(q, 0, Generation.Sentinel("tbd-1st", "1° Clasificado", now)))
      else m
    else m
  }

  function EditSemiPass(ms: seq<Match>, q: seq<Standing>, now: Time): (r: seq<Match>)
    ensures |r| == |ms|
  {
    seq(|ms|, k requires 0 <= k < |ms| => EditSemiFill(ms[k], q, now))
  }

  /** `editMatchResult` on the current tournament, the match being at index `i`:
      the group stage is taken to be rounds 1-3 and the semifinals round 4. */
  function Edited(t: Tournament, i: nat, score1: int, score2: int, now: Time): Tournament
    requires i < |t.matches|
  {
    var ms := t.matches[i := Rescored(t.matches[i], score1, score2, now)];
    var ms' := if t.format == Champions && GroupStageComplete(ms, 3)
               then EditSemiPass(ms, Qualified(Standings.StandingsOf(t.players, ms)), now)
               else ms;
    t.(matches := ms')
  }

  // ---------------------------------------------------------------------
  // The loops

  /** The semifinal loop of `updateMatchResult`. */
  method FillSemifinals(matches: seq<Match>, sf: int, qualified: seq<Standing>) returns (updated: seq<Match>)
    ensures updated == SemiPass(matches, sf, qualified)
  {
    updated := matches;
    for i := 0 to |matches|
      invariant |updated| == |matches|
      invariant forall k :: 0 <= k < i ==> updated[k] == SemiFill(matches[k], sf, qualified)
      invariant forall k :: i <= k < |matches| ==> updated[k] == matches[k]
    {
      updated := SemiStep(updated, i, sf, qualified);
    }
  }

  /** One pass of the semifinal loop, on match `i`. */
  method SemiStep(matches: seq<Match>, i: int, sf: int, qualified: seq<Standing>) returns (updated: seq<Match>)
    requires 0 <= i < |matches|
    ensures updated == matches[i := SemiFill(matches[i], sf, qualified)]
  {
    updated := matches;
    var m := updated[i];
    if m.round == Some(sf) && !m.completed {
      if m.player1.id == "tbd-1st" && |qualified| > 0 {
        updated := updated[i := m.(player1 := qualified[0].player)];
      }
      if m.player2.id == "tbd-4th" && |qualified| > 3 {
        updated := updated[i := m.(player2 := qualified[3].player)];
      }
      if m.player1.id == "tbd-2nd" && |qualified| > 1 {
        updated := updated[i := m.(player1 := qualified[1].player)];
      }
      if m.player2.id == "tbd-3rd" && |qualified| > 2 {
        updated := updated[i := m.(player2 := qualified[2].player)];
      }
    }
  }

  /** The final loop of `updateMatchResult`. */
  method FillFinals(matches: seq<Match>, fr: int, res: SemiResults) returns (updated: seq<Match>)
    ensures updated == FinalPass(matches, fr, res)
  {
    updated := matches;
    for i := 0 to |matches|
      invariant |updated| == |matches|
      invariant forall k :: 0 <= k < i ==> updated[k] == FinalFill(matches[k], fr, res)
      invariant forall k :: i <= k < |matches| ==> updated[k] == matches[k]
    {
      updated := FinalStep(updated, i, fr, res);
    }
  }

  /** One pass of the final loop, on match `i`. */
  method FinalStep(matches: seq<Match>, i: int, fr: int, res: SemiResults) returns (updated: seq<Match>)
    requires 0 <= i < |matches|
    ensures updated == matches[i := FinalFill(matches[i], fr, res)]
  {
    updated := matches;
    var m := updated[i];
    if m.round == Some(fr) && !m.completed {
      if m.player1.id == "tbd-sf1-loser" && res.loser1.Some? {
        updated := updated[i := m.(player1 := res.loser1.value)];
      }
      if m.player2.id == "tbd-sf2-loser" && res.loser2.Some? {
        updated := updated[i := m.(player2 := res.loser2.value)];
      }
      if m.player1.id == "tbd-sf1-winner" && res.winner1.Some? {
        updated := updated[i := m.(player1 := res.winner1.value)];
      }
      if m.player2.id == "tbd-sf2-winner" && res.winner2.Some? {
        updated := updated[i := m.(player2 := res.winner2.value)];
      }
    }
  }

  /** The semifinal loop of `editMatchResult`. */
  method RefillSemifinals(matches: seq<Match>, qualified: seq<Standing>, now: Time) returns (updated: seq<Match>)
    ensures updated == EditSemiPass(matches, qualified, now)
  {
    updated := matches;
    for i := 0 to |matches|
      invariant |updated| == |matches|
      invariant forall k :: 0 <= k < i ==> updated[k] == EditSemiFill(matches[k], qualified, now)
      invariant forall k :: i <= k < |matches| ==> updated[k] == matches[k]
    {
      updated := RefillStep(updated, i, qualified, now);
    }
  }

  /** One pass of the semifinal loop of `editMatchResult`, on match `i`. */
  method RefillStep(matches: seq<Match>, i: int, qualified: seq<Standing>, now: Time) returns (updated: seq<Match>)
    requires 0 <= i < |matches|
    ensures updated == matches[i := EditSemiFill(matches[i], qualified, now)]
  {
    updated := matches;
    var m := updated[i];
    if m.round == Some(4) && !m.completed {
      if m.player1.id == "tbd-1st" || SeatHolder(qualified, 0, m.player1.id) {
        updated := updated[i := m.(player1 := SeatOccupant(qualified, 0, Generation.Sentinel("tbd-1st", "1° Clasificado", now)))];
      }
      if m.player1.id == "tbd-2nd" || SeatHolder(qualified, 1, m.player1.id) {
        updated := updated[i := m.(player1 := SeatOccupant(qualified, 1, Generation.Sentinel("tbd-2nd", "2° Clasificado", now)))];
      }
      if m.player2.id == "tbd-3rd" || SeatHolder(qualified, 2, m.player2.id) {
        updated := updated[i := m.(player2 := SeatOccupant(qualified, 2, Generation.Sentinel("tbd-3rd", "3° Clasificado", now)))];
      }
      if m.player2.id == "tbd-4th" || SeatHolder(qualified, 3, m.player2.id) {
        updated := updated[i := m.(player2 := SeatOccupant(qualified, 3, Generation.Sentinel("tbd-4th", "4° Clasificado", now)))];
      }
    }
  }

  /** The body of `updateMatchResult` once the match is found: write the
      result, run the champions passes, check for completion and a winner. */
  method RecordResult(current: Tournament, i: nat, score1: int, score2: int, now: Time) returns (updated: Tournament)
    requires i < |current.matches|
    ensures updated == Recorded(current, i, score1, score2, now)
  {
    var m := current.matches[i];
    var winner := if score1 > score2 then Some(m.player1) else if score1 < score2 then Some(m.player2) else None;
    var updatedMatch := m.(score1 := Some(score1), score2 := Some(score2), winner := winner,
                           completed := true, playedAt := Some(now));
    var updatedMatches := current.matches[i := updatedMatch];
    if current.format == Champions {
      updatedMatches := AdvanceChampions(current.players, updatedMatches);
    }
    var tournamentWinner: Option<Player> := None;
    var status := current.status;
    if AllResolved(updatedMatches) {
      status := Completed;
      tournamentWinner := FindWinner(current, updatedMatches);
    }
    updated := current.(matches := updatedMatches, status := status, winner := tournamentWinner,
                        completedAt := if status == Completed then Some(now) else None);
  }

  /** The champions branch: the semifinal loop once the group stage is
      complete, then the final loop once the semifinals are. */
  method AdvanceChampions(players: seq<Player>, matches: seq<Match>) returns (updated: seq<Match>)
    ensures updated == AfterSemifinals(players, AfterGroupStage(players, matches))
  {
    var groupStageRounds := if |players| % 2 == 1 then |players| else 3;
    updated := AdvanceToSemifinals(players, matches, groupStageRounds);
    updated := AdvanceToFinals(players, updated, groupStageRounds);
  }

  /** The semifinal loop of the champions branch, once the group stage is complete. */
  method AdvanceToSemifinals(players: seq<Player>, matches: seq<Match>, groupStageRounds: int) returns (updated: seq<Match>)
    requires groupStageRounds == Generation.GroupRounds(|players|)
    ensures updated == AfterGroupStage(players, matches)
  {
    updated := matches;
    if GroupStageComplete(updated, groupStageRounds) {
      var standings := Standings.GetLeagueStandings(players, updated);
      var qualified := Qualified(standings);
      updated := FillSemifinals(updated, groupStageRounds + 1, qualified);
    }
  }

  /** The final loop of the champions branch, once every semifinal is completed. */
  method AdvanceToFinals(players: seq<Player>, matches: seq<Match>, groupStageRounds: int) returns (updated: seq<Match>)
    requires groupStageRounds == Generation.GroupRounds(|players|)
    ensures updated == AfterSemifinals(players, matches)
  {
    updated := matches;
    var semifinalMatches := WithRound(updated, groupStageRounds + 1);
    if AllCompleted(semifinalMatches) {
      var results := ResultsOf(semifinalMatches);
      updated := FillFinals(updated, groupStageRounds + 2, results);
    }
  }

  /** The winner lookup by format; the league one sorts the table. */
  method FindWinner(t: Tournament, ms: seq<Match>) returns (winner: Option<Player>)
    ensures winner == WinnerOf(t, ms)
  {
    if t.format == League {
      var standings := Standings.GetLeagueStandings(t.players, ms);
      winner := if standings == [] then None else Some(standings[0].player);
    } else {
      winner := WinnerOf(t, ms);
    }
  }

  /** The body of `editMatchResult` once the match is found and completed. */
  method EditResult(current: Tournament, i: nat, score1: int, score2: int, now: Time) returns (updated: Tournament)
    requires i < |current.matches|
    ensures updated == Edited(current, i, score1, score2, now)
  {
    var m := current.matches[i];
    var winner := if score1 > score2 then Some(m.player1) else if score1 < score2 then Some(m.player2) else None;
    var updatedMatch := m.(score1 := Some(score1), score2 := Some(score2), winner := winner, playedAt := Some(now));
    var updatedMatches := current.matches[i := updatedMatch];
    if current.format == Champions && GroupStageComplete(updatedMatches, 3) {
      var standings := Standings.GetLeagueStandings(current.players, updatedMatches);
      var qualified := Qualified(standings);
      updatedMatches := RefillSemifinals(updatedMatches, qualified, now);
    }
    updated := current.(matches := updatedMatches);
  }

  // ---------------------------------------------------------------------
  // Properties

  /** `r` is `m` with at most one of its two slots given another player. */
  predicate OneSlotChanged(m: Match, r: Match) {
    r == m.(player1 := r.player1, player2 := r.player2) && (r.player1 == m.player1 || r.player2 == m.player2)
  }

  /** What the two passes can do to one match: only a not yet completed
      semifinal (round G + 1) once the group stage is complete, or a not yet
      completed round-G + 2 match once every semifinal is completed, and
      then in one slot only. */
  lemma ProgressionTouches(t: Tournament, ms: seq<Match>, k: int)
    requires 0 <= k < |ms|
    ensures var g := Generation.GroupRounds(|t.players|);
            var r := Progressed(t, ms)[k];
            && OneSlotChanged(ms[k], r)
            && (r != ms[k] ==>
                  t.format == Champions && !ms[k].completed
                  && ((ms[k].round == Some(g + 1) && GroupStageComplete(ms, g))
                      || (ms[k].round == Some(g + 2) && AllCompleted(WithRound(AfterGroupStage(t.players, ms), g + 1)))))
  {
    if t.format == Champions {
      var g := Generation.GroupRounds(|t.players|);
      var ms1 := AfterGroupStage(t.players, ms);
      var r := AfterSemifinals(t.players, ms1);
      assert Progressed(t, ms) == r;
      GroupPassTouches(t.players, ms, k);
      FinalPassTouches(t.players, ms1, k);
      ComposeTouches(ms[k], ms1[k], r[k], g, GroupStageComplete(ms, g), AllCompleted(WithRound(ms1, g + 1)));
    } else {
      assert Progressed(t, ms) == ms;
    }
  }

  /** A match the semifinal pass may touch is in round G + 1, so the final
      pass, which only touches round G + 2, leaves it as the first pass left it. */
  lemma ComposeTouches(m: Match, a: Match, b: Match, g: int, semisDue: bool, finalsDue: bool)
    requires OneSlotChanged(m, a) && (a != m ==> !m.completed && m.round == Some(g + 1) && semisDue)
    requires OneSlotChanged(a, b) && (b != a ==> !a.completed && a.round == Some(g + 2) && finalsDue)
    ensures OneSlotChanged(m, b)
    ensures b != m ==> !m.completed && ((m.round == Some(g + 1) && semisDue) || (m.round == Some(g + 2) && finalsDue))
  {
  }

  /** The semifinal pass changes one slot at most, of a not yet completed
      semifinal, and only once the group stage is complete. */
  lemma GroupPassTouches(players: seq<Player>, ms: seq<Match>, k: int)
    requires 0 <= k < |ms|
    ensures var g := Generation.GroupRounds(|players|);
            var r := AfterGroupStage(players, ms)[k];
            && OneSlotChanged(ms[k], r)
            && (r != ms[k] ==> !ms[k].completed && ms[k].round == Some(g + 1) && GroupStageComplete(ms, g))
  {
    var g := Generation.GroupRounds(|players|);
    if GroupStageComplete(ms, g) {
      assert AfterGroupStage(players, ms)[k] == SemiFill(ms[k], g + 1, Qualified(Standings.StandingsOf(players, ms)));
    }
  }

  /** The final pass changes one slot at most, of a not yet completed
      round-G + 2 match, and only once every semifinal is completed. */
  lemma FinalPassTouches(players: seq<Player>, ms: seq<Match>, k: int)
    requires 0 <= k < |ms|
    ensures var g := Generation.GroupRounds(|players|);
            var r := AfterSemifinals(players, ms)[k];
            && OneSlotChanged(ms[k], r)
            && (r != ms[k] ==> !ms[k].completed && ms[k].round == Some(g + 2) && AllCompleted(WithRound(ms, g + 1)))
  {
    var g := Generation.GroupRounds(|players|);
    var semis := WithRound(ms, g + 1);
    if AllCompleted(semis) {
      assert AfterSemifinals(players, ms)[k] == FinalFill(ms[k], g + 2, ResultsOf(semis));
    }
  }

  /** Recording a result writes both scores into the target match, marks it
      completed and names the higher-scoring slot as its winner (nobody on a
      draw); its players stay as they were. */
  lemma RecordSetsTarget(t: Tournament, i: nat, score1: int, score2: int, now: Time)
    requires i < |t.matches|
    ensures var r := Recorded(t, i, score1, score2, now).matches;
            var m := t.matches[i];
            && |r| == |t.matches|
            && r[i].score1 == Some(score1) && r[i].score2 == Some(score2) && r[i].completed
            && r[i].player1 == m.player1 && r[i].player2 == m.player2
            && r[i].id == m.id && r[i].round == m.round && r[i].playedAt == Some(now)
            && (score1 > score2 ==> r[i].winner == Some(m.player1))
            && (score1 < score2 ==> r[i].winner == Some(m.player2))
            && (score1 == score2 ==> r[i].winner == None)
  {
    var ms := t.matches[i := Played(t.matches[i], score1, score2, now)];
    ProgressionTouches(t, ms, i);
  }

  /** Every other match stays as it was, except that a champions semifinal,
      third-place match or final not yet completed may get a player in one of
      its slots. In the other formats nothing else changes. */
  lemma RecordKeepsOthers(t: Tournament, i: nat, score1: int, score2: int, now: Time, k: int)
    requires i < |t.matches| && 0 <= k < |t.matches| && k != i
    ensures var r := Recorded(t, i, score1, score2, now).matches[k];
            var m := t.matches[k];
            var g := Generation.GroupRounds(|t.players|);
            && r == m.(player1 := r.player1, player2 := r.player2)
            && (r.player1 == m.player1 || r.player2 == m.player2)
            && (r != m ==> t.format == Champions && !m.completed && (m.round == Some(g + 1) || m.round == Some(g + 2)))
  {
    var ms := t.matches[i := Played(t.matches[i], score1, score2, now)];
    ProgressionTouches(t, ms, k);
  }

  predicate BothPlaceholders(m: Match) {
    Text.StartsWith(m.player1.id, "tbd") && Text.StartsWith(m.player2.id, "tbd")
  }

  /** Once every other match is completed or still has placeholders in both
      slots, recording a result completes the tournament, stamped with the
      time of the result. For a champions tournament this happens with its
      last group match, before any knockout match is played. */
  lemma RecordCompletes(t: Tournament, i: nat, score1: int, score2: int, now: Time)
    requires i < |t.matches|
    requires forall k :: 0 <= k < |t.matches| && k != i ==> t.matches[k].completed || BothPlaceholders(t.matches[k])
    ensures Recorded(t, i, score1, score2, now).status == Completed
    ensures Recorded(t, i, score1, score2, now).completedAt == Some(now)
  {
    var ms := t.matches[i := Played(t.matches[i], score1, score2, now)];
    var r := Progressed(t, ms);
    forall k | 0 <= k < |r| ensures Resolved(r[k]) {
      ProgressionTouches(t, ms, k);
      if k != i && !t.matches[k].completed {
        assert BothPlaceholders(ms[k]);
      }
    }
  }

  /** The completion check of recording, both ways: the status becomes
      completed exactly when every match is resolved after the passes, or it
      already was; otherwise it is kept. A winner is looked up only when every
      match is resolved and is cleared otherwise, and the completion time is
      stamped exactly when the status is completed. */
  lemma RecordStatusCases(t: Tournament, i: nat, score1: int, score2: int, now: Time)
    requires i < |t.matches|
    ensures var ms := Progressed(t, t.matches[i := Played(t.matches[i], score1, score2, now)]);
            var r := Recorded(t, i, score1, score2, now);
            && (r.status == Completed <==> AllResolved(ms) || t.status == Completed)
            && (r.status != Completed ==> r.status == t.status)
            && (AllResolved(ms) ==> r.winner == WinnerOf(t, ms))
            && (!AllResolved(ms) ==> r.winner == None)
            && r.completedAt == (if r.status == Completed then Some(now) else None)
  {
  }

  /** Once any player is registered, the standings lead with one of them. */
  lemma LeaderIsRegistered(players: seq<Player>, ms: seq<Match>)
    requires players != []
    ensures var q := Qualified(Standings.StandingsOf(players, ms));
            |q| > 0 && exists p :: 0 <= p < |players| && players[p].id == q[0].player.id
  {
    var st := Standings.StandingsOf(players, ms);
    Standings.StandingsOnePerPlayer(players, ms);
    assert players[0].id in Standings.PlayerIds(players);
    assert players[0].id in Standings.DistinctIds(players);
    assert st != [];
    assert st[0] in st;
    assert st[0].player.id in Standings.PlayerIds(players);
  }

  /** The semifinal pass puts the leader of the standings into an open
      `tbd-1st` slot; with a player already in the other slot the semifinal
      is then neither completed nor a placeholder match. */
  lemma SemiFillsLeader(players: seq<Player>, ms: seq<Match>, k: nat)
    requires k < |ms| && GroupStageComplete(ms, Generation.GroupRounds(|players|))
    requires players != [] && forall p :: 0 <= p < |players| ==> !Text.StartsWith(players[p].id, "tbd")
    requires ms[k].round == Some(Generation.GroupRounds(|players|) + 1) && !ms[k].completed
    requires ms[k].player1.id == "tbd-1st" && !Text.StartsWith(ms[k].player2.id, "tbd")
    ensures AfterGroupStage(players, ms)[k].round == ms[k].round
    ensures !Resolved(AfterGroupStage(players, ms)[k])
  {
    var g := Generation.GroupRounds(|players|);
    var q := Qualified(Standings.StandingsOf(players, ms));
    assert |q| > 0 && !Text.StartsWith(q[0].player.id, "tbd") by {
      LeaderIsRegistered(players, ms);
      var p :| 0 <= p < |players| && players[p].id == q[0].player.id;
    }
    assert AfterGroupStage(players, ms) == SemiPass(ms, g + 1, q);
    LeaderSlot(ms[k], g + 1, q);
  }

  /** `tbd-1st` is the only open slot of such a semifinal, so the fill puts
      the leader there. */
  lemma LeaderSlot(m: Match, sf: int, q: seq<Standing>)
    requires m.round == Some(sf) && !m.completed && |q| > 0
    requires m.player1.id == "tbd-1st" && !Text.StartsWith(m.player2.id, "tbd")
    ensures SemiFill(m, sf, q) == m.(player1 := q[0].player)
  {
    assert Text.StartsWith("tbd-3rd", "tbd") && Text.StartsWith("tbd-4th", "tbd");
    assert "tbd-1st" != "tbd-2nd" by { assert "tbd-1st"[4] != "tbd-2nd"[4]; }
  }

  /** A completed champions tournament can lose its winner: recording any
      result once the group stage is complete fills the open `tbd-1st` slot of
      a semifinal whose other slot already holds a player, so that semifinal
      is no longer resolved. The status stays completed, the winner becomes
      none, and the completion time is stamped again. */
  lemma CompletedChampionsLosesWinner(t: Tournament, i: nat, score1: int, score2: int, now: Time, k: nat)
    requires t.format == Champions && t.status == Completed
    requires i < |t.matches| && k < |t.matches| && k != i
    requires GroupStageComplete(t.matches[i := Played(t.matches[i], score1, score2, now)], Generation.GroupRounds(|t.players|))
    requires t.players != [] && forall p :: 0 <= p < |t.players| ==> !Text.StartsWith(t.players[p].id, "tbd")
    requires t.matches[k].round == Some(Generation.GroupRounds(|t.players|) + 1) && !t.matches[k].completed
    requires t.matches[k].player1.id == "tbd-1st" && !Text.StartsWith(t.matches[k].player2.id, "tbd")
    ensures Recorded(t, i, score1, score2, now).status == Completed
    ensures Recorded(t, i, score1, score2, now).winner == None
    ensures Recorded(t, i, score1, score2, now).completedAt == Some(now)
  {
    var ms := t.matches[i := Played(t.matches[i], score1, score2, now)];
    var ms1 := AfterGroupStage(t.players, ms);
    SemiFillsLeader(t.players, ms, k);
    FinalPassTouches(t.players, ms1, k);
    var r := Progressed(t, ms);
    assert r[k] == ms1[k];
    assert !AllResolved(r) by { assert !Resolved(r[k]); }
  }

  /** The knockout stage the champions generator emits has placeholders in
      every slot. */
  lemma KnockoutStageAllPlaceholders(g: int, now: Time, tid: string, uuid: nat -> string)
    ensures forall m :: m in Generation.Schedule(tid, Generation.KnockoutStage(g, now), uuid) ==> BothPlaceholders(m) && !m.completed
  {
    var fs := Generation.KnockoutStage(g, now);
    var ms := Generation.Schedule(tid, fs, uuid);
    SentinelFixtures(g, now);
    Generation.ScheduleFields(tid, fs, uuid);
    forall m | m in ms ensures BothPlaceholders(m) && !m.completed {
      var k :| 0 <= k < |fs| && ms[k] == m;
    }
  }

  /** Every slot of the generated knockout stage holds a `tbd` sentinel. */
  lemma SentinelFixtures(g: int, now: Time)
    ensures forall k :: 0 <= k < |Generation.KnockoutStage(g, now)| ==>
              Text.StartsWith(Generation.KnockoutStage(g, now)[k].player1.id, "tbd")
              && Text.StartsWith(Generation.KnockoutStage(g, now)[k].player2.id, "tbd")
  {
    assert "tbd-1st"[..3] == "tbd" && "tbd-2nd"[..3] == "tbd" && "tbd-3rd"[..3] == "tbd" && "tbd-4th"[..3] == "tbd";
    assert "tbd-sf1-loser"[..3] == "tbd" && "tbd-sf2-loser"[..3] == "tbd";
    assert "tbd-sf1-winner"[..3] == "tbd" && "tbd-sf2-winner"[..3] == "tbd";
  }

  /** A semifinal pass fills one slot of each generated semifinal: 1st v 4th
      gets the 4th-placed player, 2nd v 3rd the 3rd-placed one; only a second
      pass, with the same table, fills the other slot. */
  lemma SemifinalsNeedTwoPasses(m1: Match, m2: Match, sf: int, q: seq<Standing>)
    requires m1.round == Some(sf) && !m1.completed && m1.player1.id == "tbd-1st" && m1.player2.id == "tbd-4th"
    requires m2.round == Some(sf) && !m2.completed && m2.player1.id == "tbd-2nd" && m2.player2.id == "tbd-3rd"
    requires |q| == 4 && forall j :: 0 <= j < 4 ==> !Text.StartsWith(q[j].player.id, "tbd")
    ensures SemiFill(m1, sf, q) == m1.(player2 := q[3].player)
    ensures SemiFill(SemiFill(m1, sf, q), sf, q) == m1.(player1 := q[0].player, player2 := q[3].player)
    ensures SemiFill(m2, sf, q) == m2.(player2 := q[2].player)
    ensures SemiFill(SemiFill(m2, sf, q), sf, q) == m2.(player1 := q[1].player, player2 := q[2].player)
  {
    assert "tbd-3rd"[..3] == "tbd" && "tbd-4th"[..3] == "tbd";
    assert Text.StartsWith("tbd-3rd", "tbd") && Text.StartsWith("tbd-4th", "tbd");
  }

  /** The loser handed on is the slot that is not the winner: player1 when
      nobody won. */
  lemma LoserIsTheOtherSlot(m: Match, score1: int, score2: int, now: Time)
    requires m.player1.id != m.player2.id
    ensures score1 > score2 ==> LoserOf(Played(m, score1, score2, now)) == m.player2
    ensures score1 < score2 ==> LoserOf(Played(m, score1, score2, now)) == m.player1
    ensures score1 == score2 ==> LoserOf(Played(m, score1, score2, now)) == m.player1
  {
  }

  /** The league winner tops the table: no row ranks ahead of it. */
  lemma LeagueWinnerTopsTable(t: Tournament, ms: seq<Match>)
    requires t.format == League && t.players != []
    ensures WinnerOf(t, ms).Some?
    ensures var st := Standings.StandingsOf(t.players, ms);
            st != [] && WinnerOf(t, ms) == Some(st[0].player)
            && forall j :: 0 <= j < |st| ==> !Standings.RanksAhead(st[j], st[0])
  {
    Standings.StandingsOnePerPlayer(t.players, ms);
    assert t.players[0].id in Standings.PlayerIds(t.players);
  }

  /** The knockout winner is the winner of a completed match of the latest
      round among the completed ones, namely the first such match; with no
      completed match there is no winner. */
  lemma KnockoutWinnerLatestRound(t: Tournament, ms: seq<Match>)
    requires t.format == Knockout
    ensures (forall k :: 0 <= k < |ms| ==> !ms[k].completed) ==> WinnerOf(t, ms) == None
    ensures WinnerOf(t, ms).Some? ==>
              exists a :: 0 <= a < |ms| && ms[a].completed && ms[a].winner == WinnerOf(t, ms)
                && forall k :: 0 <= k < |ms| && ms[k].completed ==> RoundOrZero(ms[k]) <= RoundOrZero(ms[a])
    ensures forall a :: 0 <= a < |ms| && ms[a].completed && ms[a].round.Some? && ms[a].round.value != 0
              && (forall k :: 0 <= k < |ms| && ms[k].completed ==> RoundOrZero(ms[k]) <= ms[a].round.value)
              && (forall k :: 0 <= k < a ==> !(ms[k].completed && ms[k].round == ms[a].round))
              ==> WinnerOf(t, ms) == ms[a].winner
  {
    var last := MaxCompletedRound(ms);
    assert WinnerOf(t, ms) == if last.None? then None else WinnerAt(ms, FindCompleted(ms, last.value));
    MaxCompletedRoundBounds(ms);
    if last.Some? {
      var found := FindCompleted(ms, last.value);
      if found.Some? {
        assert RoundOrZero(ms[found.value]) == last.value;
      }
      forall a | 0 <= a < |ms| && ms[a].completed && ms[a].round.Some? && ms[a].round.value != 0
          && (forall k :: 0 <= k < |ms| && ms[k].completed ==> RoundOrZero(ms[k]) <= ms[a].round.value)
          && (forall k :: 0 <= k < a ==> !(ms[k].completed && ms[k].round == ms[a].round))
        ensures WinnerOf(t, ms) == ms[a].winner
      {
        assert RoundOrZero(ms[a]) == ms[a].round.value;
        var j :| 0 <= j < |ms| && ms[j].completed && RoundOrZero(ms[j]) == last.value;
        assert last.value == ms[a].round.value;
      }
    }
  }

  /** The champions winner is the winner of the first completed round-5 match,
      whatever round the final is actually in. */
  lemma ChampionsWinnerRoundFive(t: Tournament, ms: seq<Match>)
    requires t.format == Champions
    ensures (forall k :: 0 <= k < |ms| ==> !(ms[k].completed && ms[k].round == Some(5))) ==> WinnerOf(t, ms) == None
    ensures forall a :: 0 <= a < |ms| && ms[a].completed && ms[a].round == Some(5)
              && (forall k :: 0 <= k < a ==> !(ms[k].completed && ms[k].round == Some(5)))
              ==> WinnerOf(t, ms) == ms[a].winner
  {
    forall a | 0 <= a < |ms| && ms[a].completed && ms[a].round == Some(5)
        && (forall k :: 0 <= k < a ==> !(ms[k].completed && ms[k].round == Some(5)))
      ensures WinnerOf(t, ms) == ms[a].winner
    {
      var found := FindCompleted(ms, 5);
      assert found.Some?;
      assert found.value == a;
    }
  }

  /** With an even number of players the final is in round 5 but comes after
      the third-place match there, so once both are played the champions
      winner is the winner of the third-place match. */
  lemma ChampionsWinnerMayBeThirdPlace(t: Tournament, ms: seq<Match>, third: int, final: int)
    requires t.format == Champions
    requires 0 <= third < final < |ms|
    requires ms[third].round == Some(5) && ms[third].completed && ms[final].round == Some(5) && ms[final].completed
    requires forall k :: 0 <= k < third ==> ms[k].round != Some(5)
    ensures WinnerOf(t, ms) == ms[third].winner
  {
    ChampionsWinnerRoundFive(t, ms);
  }

  /** Editing a completed match rewrites its scores, winner and time, keeps it
      completed and leaves the tournament's status, winner, completion time
      and players alone. */
  lemma EditSetsTarget(t: Tournament, i: nat, score1: int, score2: int, now: Time)
    requires i < |t.matches| && t.matches[i].completed
    ensures var e := Edited(t, i, score1, score2, now);
            var m := t.matches[i];
            && |e.matches| == |t.matches|
            && e.matches[i] == Rescored(m, score1, score2, now) && e.matches[i].completed
            && e.status == t.status && e.winner == t.winner && e.completedAt == t.completedAt
            && e.players == t.players && e.id == t.id
  {
  }

  /** Editing changes no other match, except one slot of a champions round-4
      match not yet completed, once rounds 1-3 are all completed. */
  lemma EditKeepsOthers(t: Tournament, i: nat, score1: int, score2: int, now: Time, k: int)
    requires i < |t.matches| && 0 <= k < |t.matches| && k != i
    ensures var r := Edited(t, i, score1, score2, now).matches[k];
            var m := t.matches[k];
            && (r.player1 == m.player1 || r.player2 == m.player2)
            && r == m.(player1 := r.player1, player2 := r.player2)
            && (r != m ==> t.format == Champions && !m.completed && m.round == Some(4)
                             && GroupStageComplete(t.matches[i := Rescored(t.matches[i], score1, score2, now)], 3))
  {
  }
}

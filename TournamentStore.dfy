/** The tournament store: the list of tournaments, the tournament being
    played and the last error message. Every action that succeeds writes the
    tournament back through `UpdateTournament`, which replaces it by id in
    the list and, when it is the current one, as the current tournament.
    Ids, random draws and timestamps are parameters; persistence is not part
    of this model. */
module TournamentStore {
  import opened Types
  import Text
  import Standings
  import Generation
  import Progression

  const EmptyNameError := "Tournament name cannot be empty"
  const TooFewPlayersError := "Tournament must have at least 2 players"
  const DuplicateNameError := "A tournament with this name already exists"
  const NotFoundError := "Tournament not found"
  const TooFewToStartError := "Tournament must have at least 2 players to start"
  const NoActiveError := "No active tournament"
  const MatchNotFoundError := "Match not found"
  const UncompletedEditError := "Cannot edit uncompleted match"

  datatype Creation = Refused(message: string) | Created(tournament: Tournament)

  /** `tournaments.some(t => t.name.toLowerCase() === name.toLowerCase())`. */
  function NameTaken(ts: seq<Tournament>, name: string): (r: bool)
    ensures r <==> exists k :: 0 <= k < |ts| && Text.SameIgnoringCase(ts[k].name, name)
  {
    if ts == [] then false
    else Text.SameIgnoringCase(ts[0].name, name) || NameTaken(ts[1..], name)
  }

  /** `createTournament` as a function of the list before it. */
  function CreateOutcome(ts: seq<Tournament>, name: string, format: Format, players: seq<Player>,
                         freshId: string, now: Time): Creation
  {
    var trimmedName := Text.Trim(name);
    if trimmedName == [] then Refused(EmptyNameError)
    else if |players| < 2 then Refused(TooFewPlayersError)
    else if NameTaken(ts, trimmedName) then Refused(DuplicateNameError)
    else Created(Tournament(freshId, trimmedName, format, players, [], Setup, None, now, None))
  }

  /** `tournaments.map(t => t.id === tournament.id ? tournament : t)`. */
  function ReplaceById(ts: seq<Tournament>, t: Tournament): (r: seq<Tournament>)
    ensures |r| == |ts|
  {
    seq(|ts|, k requires 0 <= k < |ts| => if ts[k].id == t.id then t else ts[k])
  }

  /** The current tournament after `tournament` is written back. */
  function Refreshed(current: Option<Tournament>, t: Tournament): Option<Tournament> {
    if current.Some? && current.value.id == t.id then Some(t) else current
  }

  /** `tournaments.filter(t => t.id !== tournamentId)`. */
  function WithoutTournament(ts: seq<Tournament>, id: string): (r: seq<Tournament>)
    ensures |r| <= |ts|
    ensures forall t :: t in r <==> t in ts && t.id != id
  {
    if ts == [] then [] else (if ts[0].id != id then [ts[0]] else []) + WithoutTournament(ts[1..], id)
  }

  /** `tournaments.find(t => t.id === tournamentId)`, as the index found. */
  function FindTournament(ts: seq<Tournament>, id: string): (r: Option<nat>)
    ensures r.Some? ==> r.value < |ts| && ts[r.value].id == id && forall k :: 0 <= k < r.value ==> ts[k].id != id
    ensures r.None? ==> forall k :: 0 <= k < |ts| ==> ts[k].id != id
  {
    FindFirst(ts, (x: Tournament) => x.id, id)
  }

  /** The tournament `startTournament` writes back. */
  function Started(t: Tournament, order: nat -> nat, pick: (nat, nat) -> nat, uuid: nat -> string, now: Time): Tournament {
    t.(matches := Generation.Schedule(t.id, Generation.FixturesFor(t, order, pick, now), uuid), status := InProgress)
  }

  class Store {
    var tournaments: seq<Tournament>
    var currentTournament: Option<Tournament>
    var error: Option<string>

    constructor ()
      ensures tournaments == [] && currentTournament == None && error == None
    {
      tournaments := [];
      currentTournament := None;
      error := None;
    }

    method CreateTournament(name: string, format: Format, players: seq<Player>, freshId: string, now: Time)
      modifies this
      ensures match CreateOutcome(old(tournaments), name, format, players, freshId, now)
              case Refused(message) =>
                tournaments == old(tournaments) && currentTournament == old(currentTournament) && error == Some(message)
              case Created(t) =>
                tournaments == old(tournaments) + [t] && currentTournament == Some(t) && error == None
    {
      var trimmedName := Text.Trim(name);
      if trimmedName == [] {
        error := Some(EmptyNameError);
        return;
      }
      if |players| < 2 {
        error := Some(TooFewPlayersError);
        return;
      }
      if NameTaken(tournaments, trimmedName) {
        error := Some(DuplicateNameError);
        return;
      }
      var newTournament := Tournament(freshId, trimmedName, format, players, [], Setup, None, now, None);
      tournaments := tournaments + [newTournament];
      currentTournament := Some(newTournament);
      error := None;
    }

    method UpdateTournament(tournament: Tournament)
      modifies this
      ensures tournaments == ReplaceById(old(tournaments), tournament)
      ensures currentTournament == Refreshed(old(currentTournament), tournament)
      ensures error == None
    {
      var updatedTournaments := ReplaceById(tournaments, tournament);
      tournaments := updatedTournaments;
      if currentTournament.Some? && currentTournament.value.id == tournament.id {
        currentTournament := Some(tournament);
      }
      error := None;
    }

    method DeleteTournament(tournamentId: string)
      modifies this
      ensures tournaments == WithoutTournament(old(tournaments), tournamentId)
      ensures old(currentTournament).Some? && old(currentTournament).value.id == tournamentId ==> currentTournament == None
      ensures !(old(currentTournament).Some? && old(currentTournament).value.id == tournamentId) ==>
                currentTournament == old(currentTournament)
      ensures error == None
    {
      tournaments := WithoutTournament(tournaments, tournamentId);
      if currentTournament.Some? && currentTournament.value.id == tournamentId {
        currentTournament := None;
      }
      error := None;
    }

    method StartTournament(tournamentId: string, order: nat -> nat, pick: (nat, nat) -> nat,
                           uuid: nat -> string, now: Time)
      modifies this
      ensures FindTournament(old(tournaments), tournamentId).None? ==>
                tournaments == old(tournaments) && currentTournament == old(currentTournament) && error == Some(NotFoundError)
      ensures FindTournament(old(tournaments), tournamentId).Some? ==>
                var t := old(tournaments)[FindTournament(old(tournaments), tournamentId).value];
                if |t.players| < 2 then
                  tournaments == old(tournaments) && currentTournament == old(currentTournament) && error == Some(TooFewToStartError)
                else
                  tournaments == ReplaceById(old(tournaments), Started(t, order, pick, uuid, now))
                  && currentTournament == Refreshed(old(currentTournament), Started(t, order, pick, uuid, now))
                  && error == None
    {
      var found := FindTournament(tournaments, tournamentId);
      if found.None? {
        error := Some(NotFoundError);
        return;
      }
      var tournament := tournaments[found.value];
      if |tournament.players| < 2 {
        error := Some(TooFewToStartError);
        return;
      }
      var matches := Generation.GenerateMatches(tournament, order, pick, uuid, now);
      UpdateTournament(tournament.(matches := matches, status := InProgress));
    }

    method UpdateMatchResult(matchId: string, score1: int, score2: int, now: Time)
      modifies this
      ensures old(currentTournament).None? ==>
                tournaments == old(tournaments) && currentTournament == None && error == Some(NoActiveError)
      ensures old(currentTournament).Some? && Progression.FindMatch(old(currentTournament).value.matches, matchId).None? ==>
                tournaments == old(tournaments) && currentTournament == old(currentTournament) && error == Some(MatchNotFoundError)
      ensures old(currentTournament).Some? && Progression.FindMatch(old(currentTournament).value.matches, matchId).Some? ==>
                var t := Progression.Recorded(old(currentTournament).value,
                                              Progression.FindMatch(old(currentTournament).value.matches, matchId).value,
                                              score1, score2, now);
                tournaments == ReplaceById(old(tournaments), t) && currentTournament == Some(t) && error == None
    {
      if currentTournament.None? {
        error := Some(NoActiveError);
        return;
      }
      var current := currentTournament.value;
      var matchIndex := Progression.FindMatch(current.matches, matchId);
      if matchIndex.None? {
        error := Some(MatchNotFoundError);
        return;
      }
      var updatedTournament := Progression.RecordResult(current, matchIndex.value, score1, score2, now);
      UpdateTournament(updatedTournament);
    }

    method EditMatchResult(matchId: string, score1: int, score2: int, now: Time)
      modifies this
      ensures old(currentTournament).None? ==>
                tournaments == old(tournaments) && currentTournament == None && error == Some(NoActiveError)
      ensures old(currentTournament).Some? && Progression.FindMatch(old(currentTournament).value.matches, matchId).None? ==>
                tournaments == old(tournaments) && currentTournament == old(currentTournament) && error == Some(MatchNotFoundError)
      ensures old(currentTournament).Some? && Progression.FindMatch(old(currentTournament).value.matches, matchId).Some? ==>
                var i := Progression.FindMatch(old(currentTournament).value.matches, matchId).value;
                if !old(currentTournament).value.matches[i].completed then
                  tournaments == old(tournaments) && currentTournament == old(currentTournament)
                  && error == Some(UncompletedEditError)
                else
                  var t := Progression.Edited(old(currentTournament).value, i, score1, score2, now);
                  tournaments == ReplaceById(old(tournaments), t) && currentTournament == Some(t) && error == None
    {
      if currentTournament.None? {
        error := Some(NoActiveError);
        return;
      }
      var current := currentTournament.value;
      var matchIndex := Progression.FindMatch(current.matches, matchId);
      if matchIndex.None? {
        error := Some(MatchNotFoundError);
        return;
      }
      var i := matchIndex.value;
      var m := current.matches[i];
      if !m.completed {
        error := Some(UncompletedEditError);
        return;
      }
      var updatedTournament := Progression.EditResult(current, i, score1, score2, now);
      UpdateTournament(updatedTournament);
    }

    /** `getLeagueStandings` reads nothing from the store. */
    method GetLeagueStandings(tournament: Tournament) returns (standings: seq<Standing>)
      ensures standings == Standings.StandingsOf(tournament.players, tournament.matches)
    {
      standings := Standings.GetLeagueStandings(tournament.players, tournament.matches);
    }

    method ClearError()
      modifies this
      ensures tournaments == old(tournaments) && currentTournament == old(currentTournament) && error == None
    {
      error := None;
    }
  }

  // ---------------------------------------------------------------------
  // Properties

  /** Creation refuses exactly: a blank name; then fewer than 2 players; then
      a name already used ignoring case. Otherwise the new tournament has the
      trimmed name, the players as given, no matches, no winner and status setup. */
  lemma CreateOutcomeCases(ts: seq<Tournament>, name: string, format: Format, players: seq<Player>,
                           freshId: string, now: Time)
    ensures CreateOutcome(ts, name, format, players, freshId, now) == Refused(EmptyNameError)
        <==> Text.AllWhitespace(name)
    ensures CreateOutcome(ts, name, format, players, freshId, now) == Refused(TooFewPlayersError)
        <==> !Text.AllWhitespace(name) && |players| < 2
    ensures CreateOutcome(ts, name, format, players, freshId, now) == Refused(DuplicateNameError)
        <==> !Text.AllWhitespace(name) && |players| >= 2
             && exists k :: 0 <= k < |ts| && Text.SameIgnoringCase(ts[k].name, Text.Trim(name))
    ensures CreateOutcome(ts, name, format, players, freshId, now).Created? ==>
              var t := CreateOutcome(ts, name, format, players, freshId, now).tournament;
              && t.id == freshId && t.name == Text.Trim(name) && t.name != [] && Text.IsTrimmed(t.name)
              && t.format == format && t.players == players && t.matches == [] && t.status == Setup
              && t.winner == None && t.completedAt == None && t.createdAt == now
  {
    Text.TrimEmptyIffBlank(name);
    Text.TrimIsTrimmed(name);
  }

  /** No two tournaments share a name ignoring case. */
  predicate NamesDistinct(ts: seq<Tournament>) {
    forall i, j :: 0 <= i < j < |ts| ==> !Text.SameIgnoringCase(ts[i].name, ts[j].name)
  }

  /** Creating keeps tournament names distinct ignoring case. */
  lemma CreateKeepsNamesDistinct(ts: seq<Tournament>, name: string, format: Format, players: seq<Player>,
                                 freshId: string, now: Time)
    requires NamesDistinct(ts)
    ensures CreateOutcome(ts, name, format, players, freshId, now).Created? ==>
              NamesDistinct(ts + [CreateOutcome(ts, name, format, players, freshId, now).tournament])
  {
    var c := CreateOutcome(ts, name, format, players, freshId, now);
    if c.Created? {
      var r := ts + [c.tournament];
      forall i, j | 0 <= i < j < |r| ensures !Text.SameIgnoringCase(r[i].name, r[j].name) {
        if j == |ts| {
          assert r[i] == ts[i];
        } else {
          assert r[i] == ts[i] && r[j] == ts[j];
        }
      }
    }
  }

  /** Deleting keeps tournament names distinct ignoring case. */
  lemma {:induction false} DeleteKeepsNamesDistinct(ts: seq<Tournament>, id: string)
    requires NamesDistinct(ts)
    ensures NamesDistinct(WithoutTournament(ts, id))
  {
    if ts != [] {
      TailNamesDistinct(ts);
      DeleteKeepsNamesDistinct(ts[1..], id);
      var tail := WithoutTournament(ts[1..], id);
      if ts[0].id != id {
        assert WithoutTournament(ts, id) == [ts[0]] + tail;
        ConsNamesDistinct(ts[0], tail);
      } else {
        assert WithoutTournament(ts, id) == tail;
      }
    }
  }

  lemma TailNamesDistinct(ts: seq<Tournament>)
    requires NamesDistinct(ts) && ts != []
    ensures NamesDistinct(ts[1..])
    ensures forall u :: u in ts[1..] ==> !Text.SameIgnoringCase(ts[0].name, u.name)
  {
    var rest := ts[1..];
    forall i, j | 0 <= i < j < |rest| ensures !Text.SameIgnoringCase(rest[i].name, rest[j].name) {
      assert rest[i] == ts[i + 1] && rest[j] == ts[j + 1];
    }
    forall u | u in rest ensures !Text.SameIgnoringCase(ts[0].name, u.name) {
      var k :| 0 <= k < |rest| && rest[k] == u;
      assert ts[k + 1] == u;
    }
  }

  lemma ConsNamesDistinct(t: Tournament, rest: seq<Tournament>)
    requires NamesDistinct(rest)
    requires forall u :: u in rest ==> !Text.SameIgnoringCase(t.name, u.name)
    ensures NamesDistinct([t] + rest)
  {
    var r := [t] + rest;
    forall i, j | 0 <= i < j < |r| ensures !Text.SameIgnoringCase(r[i].name, r[j].name) {
      if i == 0 {
        assert r[j] == rest[j - 1];
      } else {
        assert r[i] == rest[i - 1] && r[j] == rest[j - 1];
      }
    }
  }

  /** Writing a tournament back keeps every id in its place, and afterwards
      the lookup by that id finds the tournament just written, at the same
      position as before. */
  lemma {:induction false} ReplaceThenFind(ts: seq<Tournament>, t: Tournament)
    ensures forall k :: 0 <= k < |ts| ==> ReplaceById(ts, t)[k].id == ts[k].id
    ensures FindTournament(ReplaceById(ts, t), t.id) == FindTournament(ts, t.id)
    ensures FindTournament(ts, t.id).Some? ==> ReplaceById(ts, t)[FindTournament(ts, t.id).value] == t
    ensures forall k :: 0 <= k < |ts| && ts[k].id != t.id ==> ReplaceById(ts, t)[k] == ts[k]
  {
    if ts != [] {
      ReplaceThenFind(ts[1..], t);
      assert ReplaceById(ts, t)[1..] == ReplaceById(ts[1..], t);
    }
  }

  /** Starting schedules the generated fixtures: every match belongs to the
      tournament, is unplayed and numbered from 1 in order, and the status
      becomes in progress; nothing else about the tournament changes. */
  lemma StartSchedules(t: Tournament, order: nat -> nat, pick: (nat, nat) -> nat, uuid: nat -> string, now: Time)
    ensures var s := Started(t, order, pick, uuid, now);
            var fs := Generation.FixturesFor(t, order, pick, now);
            && s.status == InProgress && s.id == t.id && s.name == t.name && s.players == t.players
            && s.format == t.format && s.winner == t.winner
            && |s.matches| == |fs|
            && forall k :: 0 <= k < |fs| ==>
                 s.matches[k].tournamentId == t.id && !s.matches[k].completed && s.matches[k].matchNumber == Some(k + 1)
                 && s.matches[k].player1 == fs[k].player1 && s.matches[k].player2 == fs[k].player2
                 && s.matches[k].round == Some(fs[k].round)
  {
    Generation.ScheduleFields(t.id, Generation.FixturesFor(t, order, pick, now), uuid);
  }
}

/** The player store: the roster of players with case-insensitively unique,
    trimmed, non-empty names, and the last error message. Ids come from
    `freshId`/`uuid` parameters, timestamps from `now`; saving to and reading
    from storage are not part of this model. */
module Roster {
  import opened Types
  import Text

  const EmptyNameError := "El nombre del jugador no puede estar vacío"
  const DuplicateNameError := "Ya existe un jugador con este nombre"
  const NotFoundError := "Jugador no encontrado"

  const DefaultPlayerNames: seq<string> := ["Nacho", "Pelao", "Tancio", "Benjamin", "Migue", "Basti"]

  /** What an action does to the roster: either it refuses with a message and
      leaves the players alone, or it installs a new list and clears the error. */
  datatype Change = Rejected(message: string) | Accepted(players: seq<Player>)

  /** `Partial<Player>`: a field that is `Some` is spread over the player. */
  datatype PlayerUpdate = PlayerUpdate(
    id: Option<string>,
    name: Option<string>,
    avatar: Option<Option<string>>,
    createdAt: Option<Time>)

  function Names(ps: seq<Player>): (r: seq<string>)
    ensures |r| == |ps| && forall i :: 0 <= i < |ps| ==> r[i] == ps[i].name
  {
    seq(|ps|, i requires 0 <= i < |ps| => ps[i].name)
  }

  /** `players.findIndex(p => p.id === id)`, with `None` for -1. */
  function FindIndex(ps: seq<Player>, id: string): (r: Option<nat>)
    ensures r.Some? ==> r.value < |ps| && ps[r.value].id == id && forall k :: 0 <= k < r.value ==> ps[k].id != id
    ensures r.None? ==> forall k :: 0 <= k < |ps| ==> ps[k].id != id
  {
    FindFirst(ps, (x: Player) => x.id, id)
  }

  /** `players.some(p => p.id !== id && p.name.toLowerCase() === name.toLowerCase())`. */
  function TakenByOther(ps: seq<Player>, id: string, name: string): (r: bool)
    ensures r <==> exists k :: 0 <= k < |ps| && ps[k].id != id && Text.SameIgnoringCase(ps[k].name, name)
  {
    if ps == [] then false
    else (ps[0].id != id && Text.SameIgnoringCase(ps[0].name, name)) || TakenByOther(ps[1..], id, name)
  }

  /** `{ ...player, ...updates }`. */
  function Merge(p: Player, u: PlayerUpdate): Player {
    Player(
      if u.id.Some? then u.id.value else p.id,
      if u.name.Some? then u.name.value else p.name,
      if u.avatar.Some? then u.avatar.value else p.avatar,
      if u.createdAt.Some? then u.createdAt.value else p.createdAt)
  }

  /** `players.filter(p => p.id !== id)`. */
  function WithoutId(ps: seq<Player>, id: string): (r: seq<Player>)
    ensures |r| <= |ps|
    ensures forall p :: p in r <==> p in ps && p.id != id
  {
    if ps == [] then [] else (if ps[0].id != id then [ps[0]] else []) + WithoutId(ps[1..], id)
  }

  // ---------------------------------------------------------------------
  // The actions as functions of the roster before them

  function AddOutcome(ps: seq<Player>, name: string, freshId: string, now: Time): Change {
    var trimmedName := Text.Trim(name);
    if trimmedName == [] then Rejected(EmptyNameError)
    else if Text.ContainsIgnoringCase(Names(ps), trimmedName) then Rejected(DuplicateNameError)
    else Accepted(ps + [Player(freshId, trimmedName, None, now)])
  }

  /** Only a truthy `updates.name` is validated; an empty string is spread as it is. */
  function UpdateOutcome(ps: seq<Player>, id: string, u: PlayerUpdate): Change {
    match FindIndex(ps, id)
    case None => Rejected(NotFoundError)
    case Some(i) =>
      var updated := Merge(ps[i], u);
      if u.name.Some? && u.name.value != "" then
        var trimmedName := Text.Trim(u.name.value);
        if trimmedName == [] then Rejected(EmptyNameError)
        else if TakenByOther(ps, id, trimmedName) then Rejected(DuplicateNameError)
        else Accepted(ps[i := updated.(name := trimmedName)])
      else Accepted(ps[i := updated])
  }

  function DefaultPlayers(uuid: nat -> string, now: Time): (r: seq<Player>)
    ensures |r| == |DefaultPlayerNames|
  {
    seq(|DefaultPlayerNames|, k requires 0 <= k < |DefaultPlayerNames| => Player(uuid(k), DefaultPlayerNames[k], None, now))
  }

  // ---------------------------------------------------------------------
  // The store

  /** What a state-changing action leaves behind for `c`. */
  predicate Reflects(c: Change, before: seq<Player>, after: seq<Player>, error: Option<string>) {
    match c
    case Rejected(message) => after == before && error == Some(message)
    case Accepted(ps) => after == ps && error == None
  }

  class PlayerStore {
    var players: seq<Player>
    var error: Option<string>

    constructor ()
      ensures players == [] && error == None
    {
      players := [];
      error := None;
    }

    method AddPlayer(name: string, freshId: string, now: Time)
      modifies this
      ensures Reflects(AddOutcome(old(players), name, freshId, now), old(players), players, error)
    {
      var trimmedName := Text.Trim(name);
      if trimmedName == [] {
        error := Some(EmptyNameError);
        return;
      }
      if Text.ContainsIgnoringCase(Names(players), trimmedName) {
        error := Some(DuplicateNameError);
        return;
      }
      var newPlayer := Player(freshId, trimmedName, None, now);
      players := players + [newPlayer];
      error := None;
    }

    method UpdatePlayer(id: string, updates: PlayerUpdate)
      modifies this
      ensures Reflects(UpdateOutcome(old(players), id, updates), old(players), players, error)
    {
      var playerIndex := FindIndex(players, id);
      if playerIndex.None? {
        error := Some(NotFoundError);
        return;
      }
      var i := playerIndex.value;
      var updatedPlayer := Merge(players[i], updates);
      if updates.name.Some? && updates.name.value != "" {
        var trimmedName := Text.Trim(updates.name.value);
        if trimmedName == [] {
          error := Some(EmptyNameError);
          return;
        }
        if TakenByOther(players, id, trimmedName) {
          error := Some(DuplicateNameError);
          return;
        }
        updatedPlayer := updatedPlayer.(name := trimmedName);
      }
      players := players[i := updatedPlayer];
      error := None;
    }

    method DeletePlayer(id: string)
      modifies this
      ensures players == WithoutId(old(players), id) && error == None
    {
      players := WithoutId(players, id);
      error := None;
    }

    /** Installs the six default players, but only into an empty roster. */
    method InitializeDefaultPlayers(uuid: nat -> string, now: Time)
      modifies this
      ensures old(players) != [] ==> players == old(players) && error == old(error)
      ensures old(players) == [] ==> players == DefaultPlayers(uuid, now) && error == None
    {
      if |players| > 0 {
        return;
      }
      var newPlayers := DefaultPlayers(uuid, now);
      players := newPlayers;
      error := None;
    }

    /** Takes the stored roster and fills in the defaults when it is empty. */
    method LoadPlayers(stored: seq<Player>, uuid: nat -> string, now: Time)
      modifies this
      ensures players == (if stored == [] then DefaultPlayers(uuid, now) else stored)
      ensures error == None
    {
      error := None;
      players := stored;
      if |stored| == 0 {
        InitializeDefaultPlayers(uuid, now);
      }
    }

    method ClearError()
      modifies this
      ensures players == old(players) && error == None
    {
      error := None;
    }
  }

  // ---------------------------------------------------------------------
  // The roster invariant and what the actions do to it

  /** Every name is non-empty and trimmed, and no two names are equal ignoring case. */
  predicate WellFormed(ps: seq<Player>) {
    (forall i :: 0 <= i < |ps| ==> ps[i].name != [] && Text.IsTrimmed(ps[i].name))
    && (forall i, j :: 0 <= i < j < |ps| ==> !Text.SameIgnoringCase(ps[i].name, ps[j].name))
  }

  predicate DistinctIds(ps: seq<Player>) {
    forall i, j :: 0 <= i < j < |ps| ==> ps[i].id != ps[j].id
  }

  /** Adding refuses exactly a blank name or a name already present ignoring
      case; otherwise it appends one player with the trimmed name. */
  lemma AddOutcomeCases(ps: seq<Player>, name: string, freshId: string, now: Time)
    ensures AddOutcome(ps, name, freshId, now) == Rejected(EmptyNameError) <==> Text.AllWhitespace(name)
    ensures AddOutcome(ps, name, freshId, now) == Rejected(DuplicateNameError)
        <==> !Text.AllWhitespace(name) && exists k :: 0 <= k < |ps| && Text.SameIgnoringCase(ps[k].name, Text.Trim(name))
    ensures AddOutcome(ps, name, freshId, now).Accepted? ==>
              AddOutcome(ps, name, freshId, now).players == ps + [Player(freshId, Text.Trim(name), None, now)]
  {
    Text.TrimEmptyIffBlank(name);
    var names := Names(ps);
    if Text.ContainsIgnoringCase(names, Text.Trim(name)) {
      var k :| 0 <= k < |names| && Text.SameIgnoringCase(names[k], Text.Trim(name));
      assert Text.SameIgnoringCase(ps[k].name, Text.Trim(name));
    }
  }

  /** Adding keeps the roster well formed, and keeps ids distinct when the new id is fresh. */
  lemma AddKeepsWellFormed(ps: seq<Player>, name: string, freshId: string, now: Time)
    requires WellFormed(ps)
    ensures AddOutcome(ps, name, freshId, now).Accepted? ==> WellFormed(AddOutcome(ps, name, freshId, now).players)
    ensures AddOutcome(ps, name, freshId, now).Accepted? && DistinctIds(ps) && (forall p :: p in ps ==> p.id != freshId)
            ==> DistinctIds(AddOutcome(ps, name, freshId, now).players)
  {
    var c := AddOutcome(ps, name, freshId, now);
    if c.Accepted? {
      var t := Text.Trim(name);
      var r := c.players;
      Text.TrimIsTrimmed(name);
      assert r[|ps|].name == t;
      forall i, j | 0 <= i < j < |r| ensures !Text.SameIgnoringCase(r[i].name, r[j].name) {
        if j == |ps| {
          assert Names(ps)[i] == ps[i].name;
        }
      }
      if DistinctIds(ps) && (forall p :: p in ps ==> p.id != freshId) {
        forall i, j | 0 <= i < j < |r| ensures r[i].id != r[j].id {
          if j == |ps| {
            assert ps[i] in ps;
          }
        }
      }
    }
  }

  /** Updating changes at most the one player with the id, keeps the length,
      and refuses an unknown id. */
  lemma UpdateTouchesOnlyTarget(ps: seq<Player>, id: string, u: PlayerUpdate)
    ensures UpdateOutcome(ps, id, u) == Rejected(NotFoundError) <==> forall k :: 0 <= k < |ps| ==> ps[k].id != id
    ensures UpdateOutcome(ps, id, u).Accepted? ==>
              var r := UpdateOutcome(ps, id, u).players;
              |r| == |ps|
              && exists i :: 0 <= i < |ps| && ps[i].id == id && (forall k :: 0 <= k < |ps| && k != i ==> r[k] == ps[k])
  {
    match FindIndex(ps, id)
    case None =>
    case Some(i) =>
      assert UpdateOutcome(ps, id, u).Accepted? ==> |UpdateOutcome(ps, id, u).players| == |ps|;
  }

  /** An update with a non-empty name stores the trimmed name; the other
      present fields are spread over the player. */
  lemma UpdateStoresTrimmedName(ps: seq<Player>, id: string, u: PlayerUpdate)
    requires UpdateOutcome(ps, id, u).Accepted?
    ensures FindIndex(ps, id).Some?
    ensures var i := FindIndex(ps, id).value;
      var p := UpdateOutcome(ps, id, u).players[i];
      && p.name == (if u.name.Some? && u.name.value != "" then Text.Trim(u.name.value) else Merge(ps[i], u).name)
      && p.id == Merge(ps[i], u).id && p.avatar == Merge(ps[i], u).avatar && p.createdAt == Merge(ps[i], u).createdAt
  {
  }

  /** Renaming keeps the roster well formed as long as the new name is not the
      empty string (ids being distinct, "another player" is another position). */
  lemma UpdateKeepsWellFormed(ps: seq<Player>, id: string, u: PlayerUpdate)
    requires WellFormed(ps) && DistinctIds(ps)
    requires u.name != Some("")
    ensures UpdateOutcome(ps, id, u).Accepted? ==> WellFormed(UpdateOutcome(ps, id, u).players)
  {
    var c := UpdateOutcome(ps, id, u);
    if c.Accepted? {
      var i := FindIndex(ps, id).value;
      var r := c.players;
      if u.name.Some? {
        var t := Text.Trim(u.name.value);
        Text.TrimIsTrimmed(u.name.value);
        Text.TrimEmptyIffBlank(u.name.value);
        assert !TakenByOther(ps, id, t);
        forall a, b | 0 <= a < b < |r| ensures !Text.SameIgnoringCase(r[a].name, r[b].name) {
          if a == i {
            assert ps[b].id != id;
          } else if b == i {
            assert ps[a].id != id;
          }
        }
      } else {
        forall a | 0 <= a < |r| ensures r[a].name == ps[a].name {
        }
      }
    }
  }

  /** Renaming to the empty string skips validation: a well-formed roster of
      one player ends up with a player whose name is empty. */
  lemma EmptyRenameSkipsValidation()
    ensures WellFormed([Player("p1", "Nacho", None, 0)]) && DistinctIds([Player("p1", "Nacho", None, 0)])
    ensures UpdateOutcome([Player("p1", "Nacho", None, 0)], "p1", PlayerUpdate(None, Some(""), None, None))
         == Accepted([Player("p1", "", None, 0)])
    ensures !WellFormed([Player("p1", "", None, 0)])
  {
    var ps := [Player("p1", "Nacho", None, 0)];
    var u := PlayerUpdate(None, Some(""), None, None);
    assert FindIndex(ps, "p1") == Some(0);
    assert Merge(ps[0], u) == Player("p1", "", None, 0);
    assert ps[0 := Player("p1", "", None, 0)] == [Player("p1", "", None, 0)];
    var emptied := [Player("p1", "", None, 0)];
    assert emptied[0].name == [];
  }

  /** Prepending a player whose name is good and clashes with none of the rest. */
  lemma ConsWellFormed(p: Player, t: seq<Player>)
    requires WellFormed(t) && p.name != [] && Text.IsTrimmed(p.name)
    requires forall q :: q in t ==> !Text.SameIgnoringCase(p.name, q.name)
    ensures WellFormed([p] + t)
  {
    var r := [p] + t;
    forall i, j | 0 <= i < j < |r| ensures !Text.SameIgnoringCase(r[i].name, r[j].name) {
      if i == 0 {
        assert r[j] == t[j - 1];
      } else {
        assert r[i] == t[i - 1] && r[j] == t[j - 1];
      }
    }
    forall i | 0 <= i < |r| ensures r[i].name != [] && Text.IsTrimmed(r[i].name) {
      if i > 0 {
        assert r[i] == t[i - 1];
      }
    }
  }

  lemma TailWellFormed(ps: seq<Player>)
    requires WellFormed(ps) && ps != []
    ensures WellFormed(ps[1..])
    ensures forall q :: q in ps[1..] ==> !Text.SameIgnoringCase(ps[0].name, q.name)
  {
    var rest := ps[1..];
    forall i, j | 0 <= i < j < |rest| ensures !Text.SameIgnoringCase(rest[i].name, rest[j].name) {
      assert rest[i] == ps[i + 1] && rest[j] == ps[j + 1];
    }
    forall q | q in rest ensures !Text.SameIgnoringCase(ps[0].name, q.name) {
      var k :| 0 <= k < |rest| && rest[k] == q;
      assert ps[k + 1] == q;
    }
  }

  /** Deleting removes every player with the id and keeps the others in order,
      so the roster stays well formed; an unknown id changes nothing. */
  lemma {:induction false} DeleteKeepsWellFormed(ps: seq<Player>, id: string)
    requires WellFormed(ps)
    ensures WellFormed(WithoutId(ps, id))
  {
    if ps != [] {
      TailWellFormed(ps);
      DeleteKeepsWellFormed(ps[1..], id);
      var tail := WithoutId(ps[1..], id);
      if ps[0].id != id {
        assert WithoutId(ps, id) == [ps[0]] + tail;
        ConsWellFormed(ps[0], tail);
      } else {
        assert WithoutId(ps, id) == tail;
      }
    }
  }

  lemma {:induction false} DeleteUnknownId(ps: seq<Player>, id: string)
    requires forall k :: 0 <= k < |ps| ==> ps[k].id != id
    ensures WithoutId(ps, id) == ps
  {
    if ps != [] {
      DeleteUnknownId(ps[1..], id);
      assert ps == [ps[0]] + ps[1..];
    }
  }

  /** Two names differ ignoring case when their lengths or first letters do. */
  lemma NamesDiffer(a: string, b: string)
    requires a != [] && b != []
    requires |a| != |b| || Text.LowerChar(a[0]) != Text.LowerChar(b[0])
    ensures !Text.SameIgnoringCase(a, b)
  {
    if |a| == |b| {
      assert Text.ToLower(a)[0] != Text.ToLower(b)[0];
    }
  }

  /** The six default players form a well-formed roster, with distinct ids
      when the drawn ids are distinct. */
  lemma DefaultsWellFormed(uuid: nat -> string, now: Time)
    ensures WellFormed(DefaultPlayers(uuid, now))
    ensures (forall a, b :: 0 <= a < b < 6 ==> uuid(a) != uuid(b)) ==> DistinctIds(DefaultPlayers(uuid, now))
    ensures Names(DefaultPlayers(uuid, now)) == DefaultPlayerNames
  {
    var ps := DefaultPlayers(uuid, now);
    DefaultNamesWellFormed();
    assert Names(ps) == DefaultPlayerNames;
  }

  /** The six default names are non-empty, trimmed and pairwise different ignoring case. */
  lemma DefaultNamesWellFormed()
    ensures forall i :: 0 <= i < 6 ==> DefaultPlayerNames[i] != [] && Text.IsTrimmed(DefaultPlayerNames[i])
    ensures forall i, j :: 0 <= i < j < 6 ==> !Text.SameIgnoringCase(DefaultPlayerNames[i], DefaultPlayerNames[j])
  {
    forall i, j | 0 <= i < j < 6 ensures !Text.SameIgnoringCase(DefaultPlayerNames[i], DefaultPlayerNames[j]) {
      NamesDiffer(DefaultPlayerNames[i], DefaultPlayerNames[j]);
    }
  }
}

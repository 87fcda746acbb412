/** The league table (`getLeagueStandings`): one row per tournament player,
    accumulated over the completed matches with 3/1/0 scoring, then ordered
    by points, goal difference and goals for, all descending, by a stable sort. */
module Standings {
  import opened Types

  // ---------------------------------------------------------------------
  // Accumulating one row

  /** The row a player starts with: every counter at zero. */
  function ZeroRow(p: Player): Standing {
    Standing(p, 0, 0, 0, 0, 0, 0, 0, 0)
  }

  /** A missing score counts as 0 (`score1 = 0` in the destructuring). */
  function ScoreOrZero(s: Option<int>): int {
    if s.Some? then s.value else 0
  }

  /** One side of a completed match, credited to its row: `own` goals for,
      `other` goals against; 3 points for a win, 1 for a draw. */
  function Credit(row: Standing, own: int, other: int): Standing {
    var row := row.(gamesPlayed := row.gamesPlayed + 1,
                    goalsFor := row.goalsFor + own,
                    goalsAgainst := row.goalsAgainst + other);
    if own > other then row.(wins := row.wins + 1, points := row.points + 3)
    else if own == other then row.(draws := row.draws + 1, points := row.points + 1)
    else row.(losses := row.losses + 1)
  }

  /** What match `m` does to the row of the player `row.player`: nothing
      unless it is completed and one of its slots carries that player's id. */
  function ApplyMatch(row: Standing, m: Match): Standing {
    if !m.completed then row
    else
      var s1, s2 := ScoreOrZero(m.score1), ScoreOrZero(m.score2);
      var row := if m.player1.id == row.player.id then Credit(row, s1, s2) else row;
      if m.player2.id == row.player.id then Credit(row, s2, s1) else row
  }

  /** The row after the matches `ms`, in order. */
  function Tally(row: Standing, ms: seq<Match>): (r: Standing)
    ensures r.player == row.player
  {
    if ms == [] then row else ApplyMatch(Tally(row, ms[..|ms| - 1]), ms[|ms| - 1])
  }

  /** The goal-difference pass. */
  function Finalize(row: Standing): Standing {
    row.(goalDifference := row.goalsFor - row.goalsAgainst)
  }

  // ---------------------------------------------------------------------
  // The dictionary keyed by player id

  function PlayerIds(ps: seq<Player>): set<string> {
    set k | 0 <= k < |ps| :: ps[k].id
  }

  /** `standings[player.id] = ...` for each player in turn: a later player
      with an id already present replaces the earlier one. */
  function Registered(ps: seq<Player>): (r: map<string, Player>)
    ensures r.Keys == PlayerIds(ps)
    ensures forall id :: id in r ==> r[id].id == id
  {
    if ps == [] then map[]
    else
      var r := Registered(ps[..|ps| - 1])[ps[|ps| - 1].id := ps[|ps| - 1]];
      assert PlayerIds(ps) == PlayerIds(ps[..|ps| - 1]) + {ps[|ps| - 1].id} by {
        forall id | id in PlayerIds(ps) ensures id in PlayerIds(ps[..|ps| - 1]) + {ps[|ps| - 1].id} {
          var k :| 0 <= k < |ps| && ps[k].id == id;
          if k < |ps| - 1 { assert ps[..|ps| - 1][k] == ps[k]; }
        }
      }
      r
  }

  predicate Distinct<T(==)>(s: seq<T>) {
    forall i, j :: 0 <= i < j < |s| ==> s[i] != s[j]
  }

  /** The keys of the dictionary in insertion order (`Object.values` order). */
  function DistinctIds(ps: seq<Player>): (r: seq<string>)
    ensures Distinct(r)
    ensures forall id :: id in r <==> id in PlayerIds(ps)
  {
    if ps == [] then []
    else
      var d := DistinctIds(ps[..|ps| - 1]);
      assert PlayerIds(ps) == PlayerIds(ps[..|ps| - 1]) + {ps[|ps| - 1].id} by {
        assert Registered(ps).Keys == PlayerIds(ps);
        assert Registered(ps[..|ps| - 1]).Keys == PlayerIds(ps[..|ps| - 1]);
      }
      if ps[|ps| - 1].id in d then d else d + [ps[|ps| - 1].id]
  }

  /** The finished rows, in dictionary order, before sorting. */
  function Rows(ps: seq<Player>, ms: seq<Match>): (r: seq<Standing>)
    ensures |r| == |DistinctIds(ps)|
    ensures forall i :: 0 <= i < |r| ==> r[i].player.id == DistinctIds(ps)[i]
  {
    var ids := DistinctIds(ps);
    var reg := Registered(ps);
    seq(|ids|, i requires 0 <= i < |ids| => Finalize(Tally(ZeroRow(reg[ids[i]]), ms)))
  }

  /** The specification of `getLeagueStandings`. */
  function StandingsOf(ps: seq<Player>, ms: seq<Match>): seq<Standing> {
    SortByRank(Rows(ps, ms))
  }

  // ---------------------------------------------------------------------
  // Ordering

  /** The sort key: points, then goal difference, then goals for. */
  function Key(s: Standing): (int, int, int) {
    (s.points, s.goalDifference, s.goalsFor)
  }

  /** `a` is placed strictly before `b` by the comparator. */
  predicate RanksAhead(a: Standing, b: Standing) {
    a.points > b.points
    || (a.points == b.points && a.goalDifference > b.goalDifference)
    || (a.points == b.points && a.goalDifference == b.goalDifference && a.goalsFor > b.goalsFor)
  }

  predicate Sorted(s: seq<Standing>) {
    forall i, j :: 0 <= i < j < |s| ==> !RanksAhead(s[j], s[i])
  }

  /** The rows of `s` whose key is `k`, in their order in `s`. */
  function WithKey(s: seq<Standing>, k: (int, int, int)): seq<Standing> {
    if s == [] then [] else (if Key(s[0]) == k then [s[0]] else []) + WithKey(s[1..], k)
  }

  /** Places `x` in front of the first row that does not rank ahead of it. */
  function Insert(x: Standing, t: seq<Standing>): (r: seq<Standing>)
    ensures multiset(r) == multiset(t) + multiset{x}
  {
    if t == [] || !RanksAhead(t[0], x) then
      [x] + t
    else
      assert t == [t[0]] + t[1..];
      [t[0]] + Insert(x, t[1..])
  }

  /** Insertion is stable: among rows of equal key, `x` goes first, and the
      others keep their order. */
  lemma {:induction false} InsertKeys(x: Standing, t: seq<Standing>)
    ensures forall k :: WithKey(Insert(x, t), k) == (if Key(x) == k then [x] else []) + WithKey(t, k)
  {
    if t == [] || !RanksAhead(t[0], x) {
      WithKeyCons(x, t);
    } else {
      var rest := Insert(x, t[1..]);
      InsertKeys(x, t[1..]);
      WithKeyCons(t[0], rest);
      WithKeyCons(t[0], t[1..]);
      assert t == [t[0]] + t[1..];
    }
  }

  lemma WithKeyCons(a: Standing, s: seq<Standing>)
    ensures forall k :: WithKey([a] + s, k) == (if Key(a) == k then [a] else []) + WithKey(s, k)
  {
    assert ([a] + s)[1..] == s;
  }

  lemma {:induction false} InsertKeepsSorted(x: Standing, t: seq<Standing>)
    requires Sorted(t)
    ensures Sorted(Insert(x, t))
  {
    if t != [] && RanksAhead(t[0], x) {
      var rest := Insert(x, t[1..]);
      var r := Insert(x, t);
      InsertKeepsSorted(x, t[1..]);
      assert r == [t[0]] + rest;
      forall j | 0 < j < |r| ensures !RanksAhead(r[j], r[0]) {
        assert r[j] == rest[j - 1];
        assert r[j] in multiset(rest);
        if r[j] != x {
          assert r[j] in multiset(t[1..]);
          var k :| 0 <= k < |t[1..]| && t[1..][k] == r[j];
          assert t[k + 1] == r[j];
        }
      }
    }
  }

  /** The stable sort `Array.prototype.sort` performs with the comparator of
      `getLeagueStandings`. */
  function SortByRank(s: seq<Standing>): (r: seq<Standing>)
    ensures multiset(r) == multiset(s) && |r| == |s|
    ensures Sorted(r)
    ensures forall k :: WithKey(r, k) == WithKey(s, k)
  {
    if s == [] then []
    else
      assert s == [s[0]] + s[1..];
      InsertKeepsSorted(s[0], SortByRank(s[1..]));
      InsertKeys(s[0], SortByRank(s[1..]));
      Insert(s[0], SortByRank(s[1..]))
  }

  // ---------------------------------------------------------------------
  // The imperative computation

  lemma RegisterStep(ps: seq<Player>, i: int)
    requires 0 <= i < |ps|
    ensures Registered(ps[..i + 1]) == Registered(ps[..i])[ps[i].id := ps[i]]
    ensures DistinctIds(ps[..i + 1]) ==
              if ps[i].id in Registered(ps[..i]) then DistinctIds(ps[..i]) else DistinctIds(ps[..i]) + [ps[i].id]
  {
    assert ps[..i + 1][..i] == ps[..i];
  }

  lemma TallyStep(row: Standing, ms: seq<Match>, k: int)
    requires 0 <= k < |ms|
    ensures Tally(row, ms[..k + 1]) == ApplyMatch(Tally(row, ms[..k]), ms[k])
  {
    assert ms[..k + 1][..k] == ms[..k];
  }

  /** `getLeagueStandings`: initialise the dictionary, fold the completed
      matches into it, compute goal differences, sort the values. */
  method GetLeagueStandings(players: seq<Player>, matches: seq<Match>) returns (r: seq<Standing>)
    ensures r == StandingsOf(players, matches)
  {
    var table, order := InitialTable(players);
    table := CountMatches(table, Registered(players), matches);
    var rows := FinalRows(table, order, players, matches);
    r := SortByRank(rows);
  }

  /** `Object.values(standings).map(...)`: each row of the dictionary, in
      insertion order, with its goal difference computed. */
  method FinalRows(table: map<string, Standing>, order: seq<string>, ghost players: seq<Player>, ghost matches: seq<Match>)
    returns (rows: seq<Standing>)
    requires order == DistinctIds(players)
    requires forall id :: id in Registered(players) ==>
               id in table && table[id] == Tally(ZeroRow(Registered(players)[id]), matches)
    ensures rows == Rows(players, matches)
  {
    ghost var reg := Registered(players);
    ghost var spec := Rows(players, matches);
    rows := [];
    for j := 0 to |order|
      invariant rows == spec[..j]
    {
      RowAt(table, players, matches, j);
      PrefixSnoc(spec, j);
      rows := rows + [Finalize(table[order[j]])];
    }
    assert spec[..|order|] == spec;
  }

  lemma PrefixSnoc<T>(s: seq<T>, j: int)
    requires 0 <= j < |s|
    ensures s[..j + 1] == s[..j] + [s[j]]
  {
  }

  /** Row `j` of the table, finalised, is row `j` of the specification. */
  lemma RowAt(table: map<string, Standing>, players: seq<Player>, matches: seq<Match>, j: int)
    requires 0 <= j < |DistinctIds(players)|
    requires forall id :: id in Registered(players) ==>
               id in table && table[id] == Tally(ZeroRow(Registered(players)[id]), matches)
    ensures DistinctIds(players)[j] in table
    ensures Finalize(table[DistinctIds(players)[j]]) == Rows(players, matches)[j]
  {
    assert DistinctIds(players)[j] in Registered(players);
  }

  /** The `players.forEach` that gives every player a zero row. */
  method InitialTable(players: seq<Player>) returns (table: map<string, Standing>, order: seq<string>)
    ensures order == DistinctIds(players)
    ensures table == map id | id in Registered(players) :: ZeroRow(Registered(players)[id])
  {
    table, order := map[], [];
    for i := 0 to |players|
      invariant order == DistinctIds(players[..i])
      invariant table.Keys == Registered(players[..i]).Keys
      invariant forall id :: id in table ==> table[id] == ZeroRow(Registered(players[..i])[id])
    {
      var p := players[i];
      ghost var table0, order0 := table, order;
      if p.id !in table {
        order := order + [p.id];
      }
      table := table[p.id := ZeroRow(p)];
      RegisterZero(players, i, table0, order0, table, order);
    }
    assert players[..|players|] == players;
    ZeroTable(table, Registered(players));
  }

  /** One pass of the `forEach` of `InitialTable` keeps its invariants. */
  lemma RegisterZero(players: seq<Player>, i: int, table0: map<string, Standing>, order0: seq<string>,
                      table: map<string, Standing>, order: seq<string>)
    requires 0 <= i < |players|
    requires order0 == DistinctIds(players[..i])
    requires table0.Keys == Registered(players[..i]).Keys
    requires forall id :: id in table0 ==> table0[id] == ZeroRow(Registered(players[..i])[id])
    requires order == if players[i].id in table0 then order0 else order0 + [players[i].id]
    requires table == table0[players[i].id := ZeroRow(players[i])]
    ensures order == DistinctIds(players[..i + 1])
    ensures table.Keys == Registered(players[..i + 1]).Keys
    ensures forall id :: id in table ==> table[id] == ZeroRow(Registered(players[..i + 1])[id])
  {
    var p := players[i];
    var r0 := Registered(players[..i]);
    var r1 := Registered(players[..i + 1]);
    RegisterStep(players, i);
    assert r1 == r0[p.id := p];
    assert p.id in table0 <==> p.id in r0;
    assert table.Keys == table0.Keys + {p.id} && r1.Keys == r0.Keys + {p.id};
    forall id | id in table ensures table[id] == ZeroRow(r1[id]) {
      if id != p.id {
        assert table[id] == table0[id] && r1[id] == r0[id];
      }
    }
  }

  lemma ZeroTable(table: map<string, Standing>, reg: map<string, Player>)
    requires table.Keys == reg.Keys
    requires forall id :: id in table ==> table[id] == ZeroRow(reg[id])
    ensures table == map id | id in reg :: ZeroRow(reg[id])
  {
  }

  /** The `matches.filter(m => m.completed).forEach` that credits both slots. */
  method CountMatches(table0: map<string, Standing>, ghost reg: map<string, Player>, matches: seq<Match>)
    returns (table: map<string, Standing>)
    requires table0 == map id | id in reg :: ZeroRow(reg[id])
    requires forall id :: id in reg ==> reg[id].id == id
    ensures table == map id | id in reg :: Tally(ZeroRow(reg[id]), matches)
  {
    table := table0;
    assert matches[..0] == [];
    for k := 0 to |matches|
      invariant table.Keys == reg.Keys
      invariant forall id :: id in table ==> table[id] == Tally(ZeroRow(reg[id]), matches[..k])
      invariant forall id :: id in table ==> table[id].player.id == id
    {
      var m := matches[k];
      ghost var before := table;
      if m.completed {
        table := CreditMatch(table, m);
      }
      forall id | id in table ensures table[id] == Tally(ZeroRow(reg[id]), matches[..k + 1]) {
        TallyStep(ZeroRow(reg[id]), matches, k);
        assert before[id].player.id == id;
      }
    }
    assert matches[..|matches|] == matches;
    TalliedTable(table, reg, matches);
  }

  /** The body of that `forEach` for one completed match: the row of each
      slot's player, when the player has one, is credited with the score. */
  method CreditMatch(table: map<string, Standing>, m: Match) returns (updated: map<string, Standing>)
    requires m.completed
    requires forall id :: id in table ==> table[id].player.id == id
    ensures updated.Keys == table.Keys
    ensures forall id :: id in table ==> updated[id] == ApplyMatch(table[id], m)
  {
    updated := table;
    var s1 := ScoreOrZero(m.score1);
    var s2 := ScoreOrZero(m.score2);
    if m.player1.id in updated {
      updated := updated[m.player1.id := Credit(updated[m.player1.id], s1, s2)];
    }
    if m.player2.id in updated {
      updated := updated[m.player2.id := Credit(updated[m.player2.id], s2, s1)];
    }
  }

  lemma TalliedTable(table: map<string, Standing>, reg: map<string, Player>, matches: seq<Match>)
    requires table.Keys == reg.Keys
    requires forall id :: id in table ==> table[id] == Tally(ZeroRow(reg[id]), matches)
    ensures table == map id | id in reg :: Tally(ZeroRow(reg[id]), matches)
  {
  }

  // ---------------------------------------------------------------------
  // Properties of the table

  /** The bookkeeping every row keeps: 3 points a win and 1 a draw, every game
      is a win, draw or loss, and no counter is negative. */
  predicate Consistent(row: Standing) {
    row.points == 3 * row.wins + row.draws
    && row.gamesPlayed == row.wins + row.draws + row.losses
    && row.wins >= 0 && row.draws >= 0 && row.losses >= 0
  }

  lemma {:induction false} TallyConsistent(row: Standing, ms: seq<Match>)
    requires Consistent(row)
    ensures Consistent(Tally(row, ms))
  {
    if ms != [] {
      TallyConsistent(row, ms[..|ms| - 1]);
    }
  }

  /** Every row of the table satisfies points = 3 * wins + draws,
      gamesPlayed = wins + draws + losses and goalDifference = goalsFor - goalsAgainst. */
  lemma StandingsRowsConsistent(ps: seq<Player>, ms: seq<Match>)
    ensures forall row :: row in StandingsOf(ps, ms) ==>
              Consistent(row) && row.goalDifference == row.goalsFor - row.goalsAgainst
  {
    var rows := Rows(ps, ms);
    var reg := Registered(ps);
    var ids := DistinctIds(ps);
    forall row | row in StandingsOf(ps, ms)
      ensures Consistent(row) && row.goalDifference == row.goalsFor - row.goalsAgainst
    {
      assert row in multiset(rows);
      var i :| 0 <= i < |rows| && rows[i] == row;
      TallyConsistent(ZeroRow(reg[ids[i]]), ms);
    }
  }

  /** The table has one row per distinct player id, no id twice, and with
      distinct ids the rows hold exactly the tournament's players. */
  lemma StandingsOnePerPlayer(ps: seq<Player>, ms: seq<Match>)
    ensures |StandingsOf(ps, ms)| == |DistinctIds(ps)|
    ensures forall id :: id in PlayerIds(ps) <==> exists row :: row in StandingsOf(ps, ms) && row.player.id == id
    ensures forall i, j :: 0 <= i < j < |StandingsOf(ps, ms)| ==>
              StandingsOf(ps, ms)[i].player.id != StandingsOf(ps, ms)[j].player.id
  {
    var rows := Rows(ps, ms);
    var st := StandingsOf(ps, ms);
    var ids := DistinctIds(ps);
    forall id | id in PlayerIds(ps) ensures exists row :: row in st && row.player.id == id {
      var i :| 0 <= i < |ids| && ids[i] == id;
      assert rows[i] in multiset(st);
    }
    forall id, row | row in st && row.player.id == id ensures id in PlayerIds(ps) {
      assert row in multiset(rows);
    }
    forall i, j | 0 <= i < j < |st| ensures st[i].player.id != st[j].player.id {
      RowsIdsDistinct(ps, ms);
      PermutationKeepsDistinctIds(rows, st, i, j);
    }
  }

  lemma RowsIdsDistinct(ps: seq<Player>, ms: seq<Match>)
    ensures forall i, j :: 0 <= i < j < |Rows(ps, ms)| ==> Rows(ps, ms)[i].player.id != Rows(ps, ms)[j].player.id
  {
  }

  /** A permutation of rows with pairwise distinct ids has pairwise distinct ids. */
  lemma PermutationKeepsDistinctIds(s: seq<Standing>, t: seq<Standing>, i: int, j: int)
    requires multiset(s) == multiset(t)
    requires forall a, b :: 0 <= a < b < |s| ==> s[a].player.id != s[b].player.id
    requires 0 <= i < j < |t|
    ensures t[i].player.id != t[j].player.id
  {
    var a, b := PositionsInPermutation(s, t, i, j);
    if a < b {
      assert s[a].player.id != s[b].player.id;
    } else {
      assert s[b].player.id != s[a].player.id;
    }
  }

  /** Two positions of `t` come from two different positions of `s`. */
  lemma PositionsInPermutation(s: seq<Standing>, t: seq<Standing>, i: int, j: int) returns (a: int, b: int)
    requires multiset(s) == multiset(t)
    requires 0 <= i < j < |t|
    ensures 0 <= a < |s| && 0 <= b < |s| && a != b && s[a] == t[i] && s[b] == t[j]
  {
    if t[i] == t[j] {
      assert t == t[..j] + [t[j]] + t[j + 1..];
      assert t[i] in t[..j];
      assert multiset(t)[t[i]] >= 2 by {
        assert multiset(t) == multiset(t[..j]) + multiset{t[j]} + multiset(t[j + 1..]);
      }
      a, b := TwoIndices(s, t[i]);
    } else {
      assert t[i] in multiset(s) && t[j] in multiset(s);
      a :| 0 <= a < |s| && s[a] == t[i];
      b :| 0 <= b < |s| && s[b] == t[j];
    }
  }

  lemma TwoIndices(s: seq<Standing>, x: Standing) returns (a: int, b: int)
    requires multiset(s)[x] >= 2
    ensures 0 <= a < b < |s| && s[a] == x && s[b] == x
  {
    assert x in multiset(s);
    b :| 0 <= b < |s| && s[b] == x;
    assert s == s[..b] + [s[b]] + s[b + 1..];
    assert multiset(s) == multiset(s[..b]) + multiset{x} + multiset(s[b + 1..]);
    if x in s[..b] {
      var c :| 0 <= c < b && s[..b][c] == x;
      a := c;
    } else {
      assert multiset(s[..b])[x] == 0;
      assert x in multiset(s[b + 1..]);
      var c :| 0 <= c < |s[b + 1..]| && s[b + 1..][c] == x;
      a, b := b, b + 1 + c;
    }
  }

  /** The matches that `filter(m => m.completed)` keeps. */
  function CompletedOnly(ms: seq<Match>): seq<Match> {
    if ms == [] then []
    else CompletedOnly(ms[..|ms| - 1]) + (if ms[|ms| - 1].completed then [ms[|ms| - 1]] else [])
  }

  lemma {:induction false} TallyIgnoresIncomplete(row: Standing, ms: seq<Match>)
    ensures Tally(row, ms) == Tally(row, CompletedOnly(ms))
  {
    if ms != [] {
      var init := ms[..|ms| - 1];
      var last := ms[|ms| - 1];
      TallyIgnoresIncomplete(row, init);
      if last.completed {
        var c := CompletedOnly(ms);
        assert c[..|c| - 1] == CompletedOnly(init);
      } else {
        assert CompletedOnly(ms) == CompletedOnly(init);
      }
    }
  }

  /** Only completed matches count: dropping the others leaves the table as it is. */
  lemma StandingsIgnoreIncomplete(ps: seq<Player>, ms: seq<Match>)
    ensures StandingsOf(ps, ms) == StandingsOf(ps, CompletedOnly(ms))
  {
    var reg := Registered(ps);
    var ids := DistinctIds(ps);
    forall i | 0 <= i < |ids| ensures Rows(ps, ms)[i] == Rows(ps, CompletedOnly(ms))[i] {
      TallyIgnoresIncomplete(ZeroRow(reg[ids[i]]), ms);
    }
    assert Rows(ps, ms) == Rows(ps, CompletedOnly(ms));
  }

  /** A match neither of whose slots is a tournament player changes no row. */
  lemma StandingsIgnoreOutsiders(ps: seq<Player>, ms: seq<Match>, m: Match)
    requires m.player1.id !in PlayerIds(ps) && m.player2.id !in PlayerIds(ps)
    ensures StandingsOf(ps, ms + [m]) == StandingsOf(ps, ms)
  {
    var reg := Registered(ps);
    var ids := DistinctIds(ps);
    forall i | 0 <= i < |ids| ensures Rows(ps, ms + [m])[i] == Rows(ps, ms)[i] {
      assert (ms + [m])[..|ms + [m]| - 1] == ms;
      assert ids[i] in PlayerIds(ps);
    }
    assert Rows(ps, ms + [m]) == Rows(ps, ms);
  }

  /** One completed match between two different tournament players hands out
      3 points in all when decisive and 2 when drawn. */
  lemma MatchAwardsThreeOrTwo(a: Standing, b: Standing, m: Match)
    requires m.completed && a.player.id == m.player1.id && b.player.id == m.player2.id
    requires m.player1.id != m.player2.id
    ensures var sum := ApplyMatch(a, m).points - a.points + ApplyMatch(b, m).points - b.points;
            sum == (if ScoreOrZero(m.score1) == ScoreOrZero(m.score2) then 2 else 3)
  {
  }
}

/** `generateMatches`: the fixture list of a tournament for each of the three
    formats. Randomness is injected: `order` stands for the outcomes of the
    shuffle, `pick` for the even-N pairing draws, `uuid(k)` for the id drawn
    for the k-th generated match, and `now` for `new Date()`. */
module Generation {
  import opened Types

  // ---------------------------------------------------------------------
  // Fixtures and their numbering

  /** Who meets whom in which round; everything else about a generated match
      follows from its position. */
  datatype Fixture = Fixture(player1: Player, player2: Player, round: int)

  /** The match pushed as the (k+1)-th: a freshly drawn id, no scores, no
      winner, not completed, `matchNumber` k + 1. */
  function Scheduled(tid: string, f: Fixture, k: nat, uuid: nat -> string): Match {
    Match(uuid(k), tid, f.player1, f.player2, None, None, None, false, Some(f.round), Some(k + 1), None)
  }

  function Schedule(tid: string, fs: seq<Fixture>, uuid: nat -> string): seq<Match> {
    seq(|fs|, k requires 0 <= k < |fs| => Scheduled(tid, fs[k], k, uuid))
  }

  lemma ScheduleSnoc(tid: string, fs: seq<Fixture>, f: Fixture, uuid: nat -> string)
    ensures Schedule(tid, fs + [f], uuid) == Schedule(tid, fs, uuid) + [Scheduled(tid, f, |fs|, uuid)]
  {
  }

  /** The fixtures of `fs` played in round `r`, in order. */
  function InRound(fs: seq<Fixture>, r: int): seq<Fixture> {
    if fs == [] then [] else (if fs[0].round == r then [fs[0]] else []) + InRound(fs[1..], r)
  }

  lemma {:induction false} InRoundAppend(a: seq<Fixture>, b: seq<Fixture>, r: int)
    ensures InRound(a + b, r) == InRound(a, r) + InRound(b, r)
  {
    if a != [] {
      assert (a + b)[1..] == a[1..] + b;
      assert (a + b)[0] == a[0];
      InRoundAppend(a[1..], b, r);
      var head := if a[0].round == r then [a[0]] else [];
      assert InRound(a + b, r) == head + InRound(a[1..] + b, r);
      assert InRound(a, r) == head + InRound(a[1..], r);
      assert head + (InRound(a[1..], r) + InRound(b, r)) == head + InRound(a[1..], r) + InRound(b, r);
    } else {
      assert a + b == b;
    }
  }

  /** A list all of whose fixtures are in round `r0` contributes to round `r0` only. */
  lemma {:induction false} InRoundUniform(fs: seq<Fixture>, r0: int, r: int)
    requires forall k :: 0 <= k < |fs| ==> fs[k].round == r0
    ensures InRound(fs, r) == if r == r0 then fs else []
  {
    if fs != [] {
      var tail := fs[1..];
      assert forall k :: 0 <= k < |tail| ==> tail[k].round == r0 by {
        forall k | 0 <= k < |tail| ensures tail[k].round == r0 {
          assert tail[k] == fs[k + 1];
        }
      }
      InRoundUniform(tail, r0, r);
      if r == r0 {
        assert InRound(fs, r) == [fs[0]] + tail;
        assert fs == [fs[0]] + tail;
      } else {
        assert InRound(fs, r) == InRound(tail, r);
      }
    }
  }

  lemma SmallRemainder(a: int, n: int)
    requires 0 <= a < n
    ensures a % n == a
  {
  }

  /** Moving one element across a concatenation boundary. */
  lemma ShiftOne<T>(a: seq<T>, x: T, b: seq<T>, c: seq<T>)
    ensures a + ([x] + b) + c == (a + [x]) + b + c
  {
  }

  lemma SuffixAfter<T>(a: seq<T>, b: seq<T>)
    ensures (a + b)[|a + b| - |b|..] == b
  {
  }

  lemma Regroup<T>(a: seq<T>, b: seq<T>, c: seq<T>, d: seq<T>)
    ensures a + (b + c) + d == a + b + (c + d)
  {
  }

  /** The players taking part in the fixtures, counted with multiplicity. */
  function Slots(fs: seq<Fixture>): multiset<Player> {
    if fs == [] then multiset{} else multiset{fs[0].player1, fs[0].player2} + Slots(fs[1..])
  }

  // ---------------------------------------------------------------------
  // Injected randomness

  function RemoveAt<T>(s: seq<T>, i: int): (r: seq<T>)
    requires 0 <= i < |s|
    ensures |r| == |s| - 1
  {
    s[..i] + s[i + 1..]
  }

  /** `splice(i, 1)` removes exactly the element at `i` and keeps the order of the rest. */
  lemma RemoveAtContents<T>(s: seq<T>, i: int)
    requires 0 <= i < |s|
    ensures multiset(RemoveAt(s, i)) == multiset(s) - multiset{s[i]}
    ensures forall k :: 0 <= k < |s| - 1 ==> RemoveAt(s, i)[k] == if k < i then s[k] else s[k + 1]
  {
    assert s == s[..i] + [s[i]] + s[i + 1..];
  }

  /** `[...players].sort(() => Math.random() - 0.5)`: the k-th pick takes
      position `order(k) mod (players left)`; the outcome is a permutation. */
  function ShuffleFrom(ps: seq<Player>, order: nat -> nat, k: nat): (r: seq<Player>)
    ensures |r| == |ps| && multiset(r) == multiset(ps)
    decreases |ps|
  {
    if ps == [] then []
    else
      var i := order(k) % |ps|;
      RemoveAtContents(ps, i);
      [ps[i]] + ShuffleFrom(RemoveAt(ps, i), order, k + 1)
  }

  function Shuffle(ps: seq<Player>, order: nat -> nat): seq<Player> {
    ShuffleFrom(ps, order, 0)
  }

  // ---------------------------------------------------------------------
  // League: full round-robin

  /** The matches of player `i` against players `j`, `j + 1`, ... */
  function LeagueRow(ps: seq<Player>, i: int, j: int): seq<Fixture>
    requires 0 <= i < |ps| && i < j <= |ps|
    decreases |ps| - j
  {
    if j == |ps| then [] else [Fixture(ps[i], ps[j], 1)] + LeagueRow(ps, i, j + 1)
  }

  function LeagueFrom(ps: seq<Player>, i: int): seq<Fixture>
    requires 0 <= i <= |ps|
    decreases |ps| - i
  {
    if i == |ps| then [] else LeagueRow(ps, i, i + 1) + LeagueFrom(ps, i + 1)
  }

  function LeagueFixtures(ps: seq<Player>): seq<Fixture> {
    LeagueFrom(ps, 0)
  }

  /** Number of matches of the rows before row `i` among `n` players. */
  function Offset(n: int, i: nat): int {
    if i == 0 then 0 else Offset(n, i - 1) + (n - i)
  }

  /** Where the match of `i` against `j` sits in the league list. */
  function PairPosition(n: int, i: nat, j: int): int {
    Offset(n, i) + (j - i - 1)
  }

  method GenerateLeague(tid: string, players: seq<Player>, uuid: nat -> string) returns (matches: seq<Match>)
    ensures matches == Schedule(tid, LeagueFixtures(players), uuid)
  {
    matches := [];
    ghost var fx: seq<Fixture> := [];
    var matchNumber := 1;
    for i := 0 to |players|
      invariant matchNumber == |matches| + 1
      invariant matches == Schedule(tid, fx, uuid)
      invariant fx + LeagueFrom(players, i) == LeagueFixtures(players)
    {
      assert LeagueFrom(players, i) == LeagueRow(players, i, i + 1) + LeagueFrom(players, i + 1);
      assert fx + LeagueFrom(players, i) == fx + LeagueRow(players, i, i + 1) + LeagueFrom(players, i + 1);
      for j := i + 1 to |players|
        invariant matchNumber == |matches| + 1
        invariant matches == Schedule(tid, fx, uuid)
        invariant fx + LeagueRow(players, i, j) + LeagueFrom(players, i + 1) == LeagueFixtures(players)
      {
        ghost var f := Fixture(players[i], players[j], 1);
        assert LeagueRow(players, i, j) == [f] + LeagueRow(players, i, j + 1);
        ShiftOne(fx, f, LeagueRow(players, i, j + 1), LeagueFrom(players, i + 1));
        ScheduleSnoc(tid, fx, f, uuid);
        matches := matches + [Match(uuid(matchNumber - 1), tid, players[i], players[j],
                                    None, None, None, false, Some(1), Some(matchNumber), None)];
        fx := fx + [Fixture(players[i], players[j], 1)];
        matchNumber := matchNumber + 1;
      }
    }
  }

  lemma {:induction false} LeagueRowShape(ps: seq<Player>, i: int, j: int)
    requires 0 <= i < |ps| && i < j <= |ps|
    ensures |LeagueRow(ps, i, j)| == |ps| - j
    ensures forall t :: 0 <= t < |ps| - j ==> LeagueRow(ps, i, j)[t] == Fixture(ps[i], ps[j + t], 1)
    decreases |ps| - j
  {
    if j < |ps| {
      LeagueRowShape(ps, i, j + 1);
      var rest := LeagueRow(ps, i, j + 1);
      assert LeagueRow(ps, i, j) == [Fixture(ps[i], ps[j], 1)] + rest;
      forall t | 1 <= t < |ps| - j ensures LeagueRow(ps, i, j)[t] == Fixture(ps[i], ps[j + t], 1) {
        assert LeagueRow(ps, i, j)[t] == rest[t - 1];
      }
    }
  }

  lemma {:induction false} LeagueFromLength(ps: seq<Player>, i: int)
    requires 0 <= i <= |ps|
    ensures |LeagueFrom(ps, i)| == Offset(|ps|, |ps|) - Offset(|ps|, i)
    decreases |ps| - i
  {
    if i < |ps| {
      LeagueFromLength(ps, i + 1);
      LeagueRowShape(ps, i, i + 1);
    }
  }

  lemma {:induction false} LeagueFromAt(ps: seq<Player>, i: int, a: int, b: int)
    requires 0 <= i <= a < b < |ps|
    ensures 0 <= PairPosition(|ps|, a, b) - Offset(|ps|, i) < |LeagueFrom(ps, i)|
    ensures LeagueFrom(ps, i)[PairPosition(|ps|, a, b) - Offset(|ps|, i)] == Fixture(ps[a], ps[b], 1)
    decreases |ps| - i
  {
    var n := |ps|;
    LeagueFromLength(ps, i + 1);
    LeagueRowShape(ps, i, i + 1);
    var row := LeagueRow(ps, i, i + 1);
    var rest := LeagueFrom(ps, i + 1);
    assert LeagueFrom(ps, i) == row + rest;
    assert Offset(n, i + 1) == Offset(n, i) + |row|;
    if a == i {
      assert PairPosition(n, a, b) - Offset(n, i) == b - i - 1;
      assert row[b - i - 1] == Fixture(ps[a], ps[b], 1);
    } else {
      LeagueFromAt(ps, i + 1, a, b);
      var k := PairPosition(n, a, b) - Offset(n, i + 1);
      assert PairPosition(n, a, b) - Offset(n, i) == |row| + k;
      assert (row + rest)[|row| + k] == rest[k];
    }
  }

  lemma {:induction false} LeagueFromPairs(ps: seq<Player>, i: int)
    requires 0 <= i <= |ps|
    ensures forall k :: 0 <= k < |LeagueFrom(ps, i)| ==>
              exists a, b :: i <= a < b < |ps| && LeagueFrom(ps, i)[k] == Fixture(ps[a], ps[b], 1)
    decreases |ps| - i
  {
    var n := |ps|;
    if i < n {
      LeagueFromPairs(ps, i + 1);
      LeagueRowShape(ps, i, i + 1);
      var row := LeagueRow(ps, i, i + 1);
      var rest := LeagueFrom(ps, i + 1);
      var all := LeagueFrom(ps, i);
      assert all == row + rest;
      forall k | 0 <= k < |all|
        ensures exists a, b :: i <= a < b < n && all[k] == Fixture(ps[a], ps[b], 1)
      {
        if k < |row| {
          assert all[k] == Fixture(ps[i], ps[i + 1 + k], 1);
        } else {
          assert 0 <= k - |row| < |rest|;
          var a, b :| i + 1 <= a < b < n && rest[k - |row|] == Fixture(ps[a], ps[b], 1);
          assert all[k] == rest[k - |row|];
          assert i <= a < b < n && all[k] == Fixture(ps[a], ps[b], 1);
        }
      }
    } else {
      assert LeagueFrom(ps, i) == [];
    }
  }



  lemma {:induction false} OffsetMonotone(n: int, i: nat, a: nat)
    requires i <= a <= n
    ensures Offset(n, i) <= Offset(n, a)
    decreases a - i
  {
    if i < a {
      OffsetMonotone(n, i, a - 1);
    }
  }

  lemma {:induction false} OffsetClosedForm(n: int, i: nat)
    ensures 2 * Offset(n, i) == i * (2 * n - i - 1)
  {
    if i > 0 {
      OffsetClosedForm(n, i - 1);
      assert 2 * Offset(n, i) == (i - 1) * (2 * n - i) + 2 * (n - i);
      assert (i - 1) * (2 * n - i) + 2 * (n - i) == i * (2 * n - i - 1);
    }
  }

  /** League generation: N(N-1)/2 matches, all in round 1, one for each
      index pair i < j (nothing else), in outer-i, inner-j order. */
  lemma LeagueSchedule(ps: seq<Player>)
    ensures |LeagueFixtures(ps)| == |ps| * (|ps| - 1) / 2
    ensures forall i, j :: 0 <= i < j < |ps| ==>
              0 <= PairPosition(|ps|, i, j) < |LeagueFixtures(ps)|
              && LeagueFixtures(ps)[PairPosition(|ps|, i, j)] == Fixture(ps[i], ps[j], 1)
    ensures forall k :: 0 <= k < |LeagueFixtures(ps)| ==>
              exists i, j :: 0 <= i < j < |ps| && LeagueFixtures(ps)[k] == Fixture(ps[i], ps[j], 1)
  {
    LeagueFromLength(ps, 0);
    forall i, j | 0 <= i < j < |ps|
      ensures 0 <= PairPosition(|ps|, i, j) < |LeagueFixtures(ps)|
      ensures LeagueFixtures(ps)[PairPosition(|ps|, i, j)] == Fixture(ps[i], ps[j], 1)
    {
      LeagueFromAt(ps, 0, i, j);
    }
    LeagueFromPairs(ps, 0);
    OffsetClosedForm(|ps|, |ps|);
  }

  /** The position of (i, j) grows with i first and j second: matchNumber
      order is outer-i, inner-j. */
  lemma PairPositionOrder(n: int, i: nat, j: int, i': nat, j': int)
    requires 0 <= i < j < n && 0 <= i' < j' < n
    requires i < i' || (i == i' && j < j')
    ensures PairPosition(n, i, j) < PairPosition(n, i', j')
  {
    if i < i' {
      OffsetMonotone(n, i + 1, i');
    }
  }

  // ---------------------------------------------------------------------
  // Knockout: one shuffled first round, then placeholder rounds

  function Pow2(k: nat): nat {
    if k == 0 then 1 else 2 * Pow2(k - 1)
  }

  /** `Math.ceil(Math.log2(n))` for n >= 1 (0 for n <= 1). */
  function CeilLog2(n: nat): (r: nat)
    ensures n <= Pow2(r)
    ensures n >= 2 ==> r >= 1 && Pow2(r - 1) < n
  {
    if n <= 1 then 0 else 1 + CeilLog2((n + 1) / 2)
  }

  /** The pairs (0,1), (2,3), ... of the shuffled list; an odd last player gets none. */
  function FirstRound(sh: seq<Player>): seq<Fixture> {
    seq(|sh| / 2, k requires 0 <= k < |sh| / 2 => Fixture(sh[2 * k], sh[2 * k + 1], 1))
  }

  lemma FirstRoundSnoc(sh: seq<Player>, i: int)
    requires 0 <= i && i + 1 < |sh| && i % 2 == 0
    ensures FirstRound(sh[..i + 2]) == FirstRound(sh[..i]) + [Fixture(sh[i], sh[i + 1], 1)]
  {
    var a := FirstRound(sh[..i + 2]);
    var b := FirstRound(sh[..i]) + [Fixture(sh[i], sh[i + 1], 1)];
    assert |a| == |b|;
    forall k | 0 <= k < |a| ensures a[k] == b[k] {
      if k < i / 2 {
        assert 2 * k + 1 < i;
      }
    }
  }

  lemma FirstRoundOddTail(sh: seq<Player>, i: int)
    requires 0 <= i && i + 1 == |sh| && i % 2 == 0
    ensures FirstRound(sh[..|sh|]) == FirstRound(sh[..i])
  {
    var a := FirstRound(sh[..|sh|]);
    var b := FirstRound(sh[..i]);
    assert |a| == |b|;
    forall k | 0 <= k < |a| ensures a[k] == b[k] {
      assert 2 * k + 1 < i;
    }
  }

  function TbdPlayer(now: Time): Player {
    Player("tbd", "TBD", None, now)
  }

  function Repeat(f: Fixture, count: int): (r: seq<Fixture>)
    ensures |r| == if count <= 0 then 0 else count
    ensures forall k :: 0 <= k < |r| ==> r[k] == f
    decreases count
  {
    if count <= 0 then [] else [f] + Repeat(f, count - 1)
  }

  /** Rounds `round`..`last`, `p` being the previous round's count: each has
      floor(p / 2) matches of two placeholder slots. */
  function PlaceholderRounds(round: int, last: int, p: nat, now: Time): seq<Fixture>
    decreases last - round
  {
    if round > last then []
    else Repeat(Fixture(TbdPlayer(now), TbdPlayer(now), round), p / 2)
         + PlaceholderRounds(round + 1, last, p / 2, now)
  }

  function KnockoutFixtures(sh: seq<Player>, now: Time): seq<Fixture> {
    FirstRound(sh) + PlaceholderRounds(2, CeilLog2(|sh|), (|sh| + 1) / 2, now)
  }

  method GenerateKnockout(tid: string, players: seq<Player>, order: nat -> nat, uuid: nat -> string, now: Time)
    returns (matches: seq<Match>)
    ensures matches == Schedule(tid, KnockoutFixtures(Shuffle(players, order), now), uuid)
  {
    var shuffledPlayers := Shuffle(players, order);
    var totalRounds := CeilLog2(|players|);
    matches := PairFirstRound(tid, shuffledPlayers, uuid);
    matches := AppendPlaceholderRounds(tid, matches, FirstRound(shuffledPlayers), totalRounds, (|shuffledPlayers| + 1) / 2, uuid, now);
  }

  /** The first-round loop of the knockout case: shuffled players 2k and 2k + 1 meet. */
  method PairFirstRound(tid: string, shuffledPlayers: seq<Player>, uuid: nat -> string) returns (matches: seq<Match>)
    ensures matches == Schedule(tid, FirstRound(shuffledPlayers), uuid)
  {
    matches := [];
    var currentRound := 1;
    var matchNumber := 1;
    ghost var fx: seq<Fixture> := [];
    var i := 0;
    while i < |shuffledPlayers|
      invariant 0 <= i <= |shuffledPlayers| + 1 && i % 2 == 0
      invariant matchNumber == |matches| + 1
      invariant matches == Schedule(tid, fx, uuid)
      invariant fx == FirstRound(shuffledPlayers[..if i <= |shuffledPlayers| then i else |shuffledPlayers|])
    {
      if i + 1 < |shuffledPlayers| {
        var f := Fixture(shuffledPlayers[i], shuffledPlayers[i + 1], currentRound);
        ScheduleSnoc(tid, fx, f, uuid);
        matches := matches + [Match(uuid(matchNumber - 1), tid, shuffledPlayers[i], shuffledPlayers[i + 1],
                                    None, None, None, false, Some(currentRound), Some(matchNumber), None)];
        fx := fx + [f];
        matchNumber := matchNumber + 1;
        FirstRoundSnoc(shuffledPlayers, i);
      } else {
        FirstRoundOddTail(shuffledPlayers, i);
      }
      i := i + 2;
    }
    assert shuffledPlayers[..|shuffledPlayers|] == shuffledPlayers;
  }

  /** The later-rounds loop of the knockout case, appending to the matches
      `done` (the schedule of `fx`): round r gets floor(p / 2) placeholder
      matches, p being the previous round's count. */
  method AppendPlaceholderRounds(tid: string, done: seq<Match>, ghost fx: seq<Fixture>, totalRounds: int,
                                 players: nat, uuid: nat -> string, now: Time)
    returns (matches: seq<Match>)
    requires done == Schedule(tid, fx, uuid)
    ensures matches == Schedule(tid, fx + PlaceholderRounds(2, totalRounds, players, now), uuid)
  {
    matches := done;
    ghost var emitted := fx;
    var playersInRound := players;
    var round: int := 2;
    while round <= totalRounds
      invariant 2 <= round
      invariant matches == Schedule(tid, emitted, uuid)
      invariant emitted + PlaceholderRounds(round, totalRounds, playersInRound, now)
             == fx + PlaceholderRounds(2, totalRounds, players, now)
      decreases totalRounds - round
    {
      var matchesInRound := playersInRound / 2;
      var tbd := Fixture(TbdPlayer(now), TbdPlayer(now), round);
      ghost var later := PlaceholderRounds(round + 1, totalRounds, matchesInRound, now);
      assert PlaceholderRounds(round, totalRounds, playersInRound, now) == Repeat(tbd, matchesInRound) + later;
      playersInRound := matchesInRound;
      Regroup(emitted, Repeat(tbd, matchesInRound), [], later);
      matches := AppendPlaceholders(tid, matches, emitted, tbd, matchesInRound, uuid);
      emitted := emitted + Repeat(tbd, matchesInRound);
      round := round + 1;
    }
  }


  /** The inner loop of one later round: `count` matches of fixture `tbd`
      appended to the matches `done` (the schedule of `fx`). */
  method AppendPlaceholders(tid: string, done: seq<Match>, ghost fx: seq<Fixture>, tbd: Fixture, count: nat,
                            uuid: nat -> string)
    returns (matches: seq<Match>)
    requires done == Schedule(tid, fx, uuid)
    ensures matches == Schedule(tid, fx + Repeat(tbd, count), uuid)
  {
    matches := done;
    ghost var emitted := fx;
    var matchNumber := |done| + 1;
    for k := 0 to count
      invariant matchNumber == |matches| + 1
      invariant matches == Schedule(tid, emitted, uuid)
      invariant emitted + Repeat(tbd, count - k) == fx + Repeat(tbd, count)
    {
      assert Repeat(tbd, count - k) == [tbd] + Repeat(tbd, count - k - 1);
      ShiftOne(emitted, tbd, Repeat(tbd, count - k - 1), []);
      ScheduleSnoc(tid, emitted, tbd, uuid);
      matches := matches + [Match(uuid(matchNumber - 1), tid, tbd.player1, tbd.player2,
                                  None, None, None, false, Some(tbd.round), Some(matchNumber), None)];
      emitted := emitted + [tbd];
      matchNumber := matchNumber + 1;
    }
    assert emitted + [] == emitted;
  }

  /** Number of placeholder matches in round `r` >= 2 among `n` players:
      floor(p / 2), where p is ceil(n / 2) before round 2 and the previous
      round's count afterwards. */
  function PlaceholderCount(n: nat, r: int): nat
    decreases r
  {
    if r <= 2 then ((n + 1) / 2) / 2 else PlaceholderCount(n, r - 1) / 2
  }

  /** Every later-round match is placeholder against placeholder, in a round within range. */
  lemma {:induction false} PlaceholderRoundsSlots(round: int, last: int, p: nat, now: Time)
    ensures forall f :: f in PlaceholderRounds(round, last, p, now) ==>
              f.player1 == TbdPlayer(now) && f.player2 == TbdPlayer(now) && round <= f.round <= last
    decreases last - round
  {
    if round <= last {
      PlaceholderRoundsSlots(round + 1, last, p / 2, now);
    }
  }

  lemma {:induction false} PlaceholderRoundsCount(round: int, last: int, p: nat, now: Time, r: int)
    ensures |InRound(PlaceholderRounds(round, last, p, now), r)| == if round <= r <= last then Halvings(p, r - round + 1) else 0
    decreases last - round
  {
    if round <= last {
      var head := Repeat(Fixture(TbdPlayer(now), TbdPlayer(now), round), p / 2);
      var tail := PlaceholderRounds(round + 1, last, p / 2, now);
      PlaceholderRoundsCount(round + 1, last, p / 2, now, r);
      InRoundAppend(head, tail, r);
      InRoundUniform(head, round, r);
      if round < r <= last {
        HalvingsStep(p, r - round);
      }
    }
  }

  /** `p` halved (rounding down) `k` times. */
  function Halvings(p: nat, k: nat): nat {
    if k == 0 then p else Halvings(p, k - 1) / 2
  }

  lemma {:induction false} HalvingsStep(p: nat, k: nat)
    ensures Halvings(p / 2, k) == Halvings(p, k + 1)
  {
    if k > 0 {
      HalvingsStep(p, k - 1);
    }
  }

  lemma {:induction false} PlaceholderCountIsHalvings(n: nat, r: int)
    requires r >= 2
    ensures PlaceholderCount(n, r) == Halvings((n + 1) / 2, r - 1)
    decreases r
  {
    if r > 2 {
      PlaceholderCountIsHalvings(n, r - 1);
    }
  }

  /** Knockout generation, first round: shuffled positions (0,1), (2,3), ...
      meet in round 1, floor(N/2) matches; an odd last player gets none. */
  lemma KnockoutFirstRound(sh: seq<Player>, now: Time)
    ensures |KnockoutFixtures(sh, now)| >= |sh| / 2
    ensures forall k :: 0 <= k < |sh| / 2 ==> KnockoutFixtures(sh, now)[k] == Fixture(sh[2 * k], sh[2 * k + 1], 1)
    ensures InRound(KnockoutFixtures(sh, now), 1) == FirstRound(sh) && |FirstRound(sh)| == |sh| / 2
  {
    var first := FirstRound(sh);
    var rest := PlaceholderRounds(2, CeilLog2(|sh|), (|sh| + 1) / 2, now);
    assert InRound(first + rest, 1) == first by {
      InRoundAppend(first, rest, 1);
      InRoundUniform(first, 1, 1);
      PlaceholderRoundsCount(2, CeilLog2(|sh|), (|sh| + 1) / 2, now, 1);
    }
    assert KnockoutFixtures(sh, now) == first + rest;
    forall k | 0 <= k < |first| ensures (first + rest)[k] == first[k] {
    }
  }

  /** Knockout generation, later rounds: everything after the first round is
      a placeholder-vs-placeholder match in a round from 2 to ceil(log2 N). */
  lemma KnockoutPlaceholders(sh: seq<Player>, now: Time)
    ensures forall k :: |sh| / 2 <= k < |KnockoutFixtures(sh, now)| ==>
              KnockoutFixtures(sh, now)[k].player1 == TbdPlayer(now)
              && KnockoutFixtures(sh, now)[k].player2 == TbdPlayer(now)
              && 2 <= KnockoutFixtures(sh, now)[k].round <= CeilLog2(|sh|)
  {
    var first := FirstRound(sh);
    var rest := PlaceholderRounds(2, CeilLog2(|sh|), (|sh| + 1) / 2, now);
    PlaceholderRoundsSlots(2, CeilLog2(|sh|), (|sh| + 1) / 2, now);
    forall k | |sh| / 2 <= k < |first + rest|
      ensures (first + rest)[k] in rest
    {
      assert (first + rest)[k] == rest[k - |first|];
    }
  }

  /** Knockout generation, round sizes: round r in 2..ceil(log2 N) holds
      PlaceholderCount(N, r) matches and no round outside 1..ceil(log2 N) appears. */
  lemma KnockoutRoundSizes(sh: seq<Player>, now: Time, r: int)
    ensures 2 <= r <= CeilLog2(|sh|) ==> |InRound(KnockoutFixtures(sh, now), r)| == PlaceholderCount(|sh|, r)
    ensures (r < 1 || r > CeilLog2(|sh|)) ==> InRound(KnockoutFixtures(sh, now), r) == []
  {
    var first := FirstRound(sh);
    var rest := PlaceholderRounds(2, CeilLog2(|sh|), (|sh| + 1) / 2, now);
    InRoundAppend(first, rest, r);
    InRoundUniform(first, 1, r);
    PlaceholderRoundsCount(2, CeilLog2(|sh|), (|sh| + 1) / 2, now, r);
    if 2 <= r {
      PlaceholderCountIsHalvings(|sh|, r);
    }
  }

  // ---------------------------------------------------------------------
  // Champions: one group stage, then semifinals, third place and final

  /** Rounds in the group stage: N for an odd number of players, 3 otherwise. */
  function GroupRounds(n: nat): nat {
    if n % 2 == 1 then n else 3
  }

  /** The `while (available.length >= 2)` loop that shifts two players at a time. */
  function ConsecutivePairs(avail: seq<Player>, round: int): seq<Fixture>
    decreases |avail|
  {
    if |avail| < 2 then [] else [Fixture(avail[0], avail[1], round)] + ConsecutivePairs(avail[2..], round)
  }

  /** The `while (available.length >= 2)` loop that pairs the first player with
      the one at index `1 + pick(round, step) mod (length - 1)`, in [1, length - 1]. */
  function PickedPairs(avail: seq<Player>, pick: (nat, nat) -> nat, round: nat, step: nat): seq<Fixture>
    decreases |avail|
  {
    if |avail| < 2 then []
    else
      var j := 1 + pick(round, step) % (|avail| - 1);
      [Fixture(avail[0], avail[j], round)] + PickedPairs(RemoveAt(RemoveAt(avail, j), 0), pick, round, step + 1)
  }

  /** Rounds `round`..N of an odd group stage: round r sits out shuffled
      player (r - 1) mod N, which is r - 1 since r <= N. */
  function OddGroupStage(sh: seq<Player>, round: nat): seq<Fixture>
    requires round >= 1
    decreases |sh| - round
  {
    if round > |sh| then [] else OddRound(sh, round) + OddGroupStage(sh, round + 1)
  }

  /** Round r of an odd group stage: player r - 1 sits out, the others meet consecutively. */
  function OddRound(sh: seq<Player>, r: int): seq<Fixture>
    requires 1 <= r <= |sh|
  {
    ConsecutivePairs(RemoveAt(sh, r - 1), r)
  }

  /** Rounds `round`..3 of an even group stage. */
  function EvenGroupStage(sh: seq<Player>, pick: (nat, nat) -> nat, round: nat): seq<Fixture>
    decreases 3 - round
  {
    if round > 3 then [] else PickedPairs(sh, pick, round, 0) + EvenGroupStage(sh, pick, round + 1)
  }

  function Sentinel(id: string, name: string, now: Time): Player {
    Player(id, name, None, now)
  }

  /** Semifinal 1 (1st v 4th), semifinal 2 (2nd v 3rd), third place, final. */
  function KnockoutStage(g: int, now: Time): seq<Fixture> {
    [ Fixture(Sentinel("tbd-1st", "1° Clasificado", now), Sentinel("tbd-4th", "4° Clasificado", now), g + 1),
      Fixture(Sentinel("tbd-2nd", "2° Clasificado", now), Sentinel("tbd-3rd", "3° Clasificado", now), g + 1),
      Fixture(Sentinel("tbd-sf1-loser", "Perdedor Semifinal 1", now), Sentinel("tbd-sf2-loser", "Perdedor Semifinal 2", now), g + 2),
      Fixture(Sentinel("tbd-sf1-winner", "Ganador Semifinal 1", now), Sentinel("tbd-sf2-winner", "Ganador Semifinal 2", now), g + 2) ]
  }

  function GroupStage(sh: seq<Player>, pick: (nat, nat) -> nat): seq<Fixture> {
    if |sh| % 2 == 1 then OddGroupStage(sh, 1) else EvenGroupStage(sh, pick, 1)
  }

  function ChampionsFixtures(sh: seq<Player>, pick: (nat, nat) -> nat, now: Time): seq<Fixture> {
    GroupStage(sh, pick) + KnockoutStage(GroupRounds(|sh|), now)
  }

  method GenerateChampions(tid: string, players: seq<Player>, order: nat -> nat, pick: (nat, nat) -> nat,
                           uuid: nat -> string, now: Time)
    returns (matches: seq<Match>)
    ensures matches == Schedule(tid, ChampionsFixtures(Shuffle(players, order), pick, now), uuid)
  {
    var shuffledPlayers := Shuffle(players, order);
    var isOddPlayers := |shuffledPlayers| % 2 == 1;
    ghost var group := GroupStage(shuffledPlayers, pick);
    if isOddPlayers {
      matches := OddGroupRounds(tid, shuffledPlayers, uuid);
    } else {
      matches := EvenGroupRounds(tid, shuffledPlayers, pick, uuid);
    }
    var groupStageRounds := if isOddPlayers then |shuffledPlayers| else 3;
    var semifinalRound := groupStageRounds + 1;
    var finalRound := semifinalRound + 1;
    var knockoutMatches := KnockoutStage(groupStageRounds, now);
    assert knockoutMatches[0].round == semifinalRound && knockoutMatches[3].round == finalRound;
    var stage := Numbered(tid, |matches|, knockoutMatches, uuid);
    ScheduleAppend(tid, group, knockoutMatches, uuid);
    matches := matches + stage;
  }

  /** The odd-N group stage: in round r (1..N) shuffled player (r - 1) mod N sits out. */
  method OddGroupRounds(tid: string, shuffledPlayers: seq<Player>, uuid: nat -> string) returns (matches: seq<Match>)
    requires |shuffledPlayers| % 2 == 1
    ensures matches == Schedule(tid, OddGroupStage(shuffledPlayers, 1), uuid)
  {
    matches := [];
    ghost var fx: seq<Fixture> := [];
    var totalRounds := |shuffledPlayers|;
    for round := 1 to totalRounds + 1
      invariant matches == Schedule(tid, fx, uuid)
      invariant fx + OddGroupStage(shuffledPlayers, round) == OddGroupStage(shuffledPlayers, 1)
    {
      var availablePlayers := shuffledPlayers;
      var byePlayerIndex := (round - 1) % |shuffledPlayers|;
      SmallRemainder(round - 1, |shuffledPlayers|);
      availablePlayers := RemoveAt(availablePlayers, byePlayerIndex);
      var roundMatches := PairInOrder(tid, |matches|, availablePlayers, round, uuid);
      ScheduleAppend(tid, fx, ConsecutivePairs(availablePlayers, round), uuid);
      matches := matches + roundMatches;
      fx := fx + ConsecutivePairs(availablePlayers, round);
    }
  }

  /** The even-N group stage: three rounds of drawn pairings. */
  method EvenGroupRounds(tid: string, shuffledPlayers: seq<Player>, pick: (nat, nat) -> nat, uuid: nat -> string)
    returns (matches: seq<Match>)
    ensures matches == Schedule(tid, EvenGroupStage(shuffledPlayers, pick, 1), uuid)
  {
    matches := [];
    ghost var fx: seq<Fixture> := [];
    var rounds := 3;
    for round := 1 to rounds + 1
      invariant matches == Schedule(tid, fx, uuid)
      invariant fx + EvenGroupStage(shuffledPlayers, pick, round) == EvenGroupStage(shuffledPlayers, pick, 1)
    {
      var roundMatches := PairByDraws(tid, |matches|, shuffledPlayers, pick, round, uuid);
      RoundStep(tid, fx, PickedPairs(shuffledPlayers, pick, round, 0), EvenGroupStage(shuffledPlayers, pick, round + 1),
                EvenGroupStage(shuffledPlayers, pick, round), EvenGroupStage(shuffledPlayers, pick, 1), uuid, matches, roundMatches);
      matches := matches + roundMatches;
      fx := fx + PickedPairs(shuffledPlayers, pick, round, 0);
    }
  }

  /** One pass of a group-stage loop keeps its invariants: the round's
      fixtures `p` are the head of what is still due, `stage == p + rest`. */
  lemma RoundStep(tid: string, fx: seq<Fixture>, p: seq<Fixture>, rest: seq<Fixture>, stage: seq<Fixture>,
                  whole: seq<Fixture>, uuid: nat -> string, matches: seq<Match>, roundMatches: seq<Match>)
    requires matches == Schedule(tid, fx, uuid)
    requires roundMatches == Numbered(tid, |matches|, p, uuid)
    requires stage == p + rest && fx + stage == whole
    ensures matches + roundMatches == Schedule(tid, fx + p, uuid)
    ensures fx + p + rest == whole
  {
    Regroup(fx, p, rest, []);
    ScheduleAppend(tid, fx, p, uuid);
  }

  /** `fs` numbered from position `start` onwards. */
  function Numbered(tid: string, start: nat, fs: seq<Fixture>, uuid: nat -> string): seq<Match> {
    seq(|fs|, k requires 0 <= k < |fs| => Scheduled(tid, fs[k], start + k, uuid))
  }

  lemma ScheduleAppend(tid: string, fs: seq<Fixture>, gs: seq<Fixture>, uuid: nat -> string)
    ensures Schedule(tid, fs + gs, uuid) == Schedule(tid, fs, uuid) + Numbered(tid, |fs|, gs, uuid)
  {
  }

  lemma NumberedSnoc(tid: string, start: nat, fs: seq<Fixture>, f: Fixture, uuid: nat -> string)
    ensures Numbered(tid, start, fs + [f], uuid) == Numbered(tid, start, fs, uuid) + [Scheduled(tid, f, start + |fs|, uuid)]
  {
  }

  /** The odd-round loop: `availablePlayers` shifted two at a time, the
      matches numbered after the `done` already generated. */
  method PairInOrder(tid: string, done: nat, players: seq<Player>, round: int, uuid: nat -> string)
    returns (roundMatches: seq<Match>)
    ensures roundMatches == Numbered(tid, done, ConsecutivePairs(players, round), uuid)
  {
    var availablePlayers := players;
    roundMatches := [];
    var matchNumber := done + 1;
    ghost var fx: seq<Fixture> := [];
    while |availablePlayers| >= 2
      invariant matchNumber == done + |roundMatches| + 1
      invariant roundMatches == Numbered(tid, done, fx, uuid)
      invariant fx + ConsecutivePairs(availablePlayers, round) == ConsecutivePairs(players, round)
      decreases |availablePlayers|
    {
      ghost var rest := ConsecutivePairs(availablePlayers[2..], round);
      var player1 := availablePlayers[0];
      availablePlayers := availablePlayers[1..];
      var player2 := availablePlayers[0];
      availablePlayers := availablePlayers[1..];
      var f := Fixture(player1, player2, round);
      ShiftOne(fx, f, rest, []);
      NumberedSnoc(tid, done, fx, f, uuid);
      roundMatches := roundMatches + [Match(uuid(matchNumber - 1), tid, player1, player2,
                                            None, None, None, false, Some(round), Some(matchNumber), None)];
      fx := fx + [f];
      matchNumber := matchNumber + 1;
    }
    assert fx == fx + ConsecutivePairs(availablePlayers, round);
  }

  /** The even-round loop: the first available player meets the one at the
      drawn index; both leave the pool. */
  method PairByDraws(tid: string, done: nat, players: seq<Player>, pick: (nat, nat) -> nat, round: nat, uuid: nat -> string)
    returns (roundMatches: seq<Match>)
    ensures roundMatches == Numbered(tid, done, PickedPairs(players, pick, round, 0), uuid)
  {
    var availablePlayers := players;
    roundMatches := [];
    var matchNumber := done + 1;
    var step := 0;
    ghost var fx: seq<Fixture> := [];
    while |availablePlayers| >= 2
      invariant matchNumber == done + |fx| + 1
      invariant roundMatches == Numbered(tid, done, fx, uuid)
      invariant fx + PickedPairs(availablePlayers, pick, round, step) == PickedPairs(players, pick, round, 0)
      decreases |availablePlayers|
    {
      ghost var before := availablePlayers;
      var player1, player2;
      player1, player2, availablePlayers := DrawPair(availablePlayers, pick, round, step);
      DrawStep(tid, done, fx, before, pick, round, step, uuid);
      assert matchNumber - 1 == done + |fx|;
      roundMatches := roundMatches + [Match(uuid(matchNumber - 1), tid, player1, player2,
                                            None, None, None, false, Some(round), Some(matchNumber), None)];
      fx := fx + [Fixture(player1, player2, round)];
      matchNumber := matchNumber + 1;
      step := step + 1;
    }
    assert fx == fx + PickedPairs(availablePlayers, pick, round, step);
  }



  /** The draw itself: the first available player and the one at the drawn
      index, both spliced out of the pool (the later index first). */
  method DrawPair(availablePlayers: seq<Player>, pick: (nat, nat) -> nat, round: nat, step: nat)
    returns (player1: Player, player2: Player, rest: seq<Player>)
    requires |availablePlayers| >= 2
    ensures var j := 1 + pick(round, step) % (|availablePlayers| - 1);
            1 <= j < |availablePlayers| && player1 == availablePlayers[0] && player2 == availablePlayers[j]
            && rest == RemoveAt(RemoveAt(availablePlayers, j), 0)
  {
    var player1Index := 0;
    var player2Index := 1 + pick(round, step) % (|availablePlayers| - 1);
    player1 := availablePlayers[player1Index];
    player2 := availablePlayers[player2Index];
    rest := RemoveAt(availablePlayers, if player1Index < player2Index then player2Index else player1Index);
    rest := RemoveAt(rest, if player1Index < player2Index then player1Index else player2Index);
  }

  /** One draw of the even-round loop: the fixture it adds and the pool it leaves. */
  lemma DrawStep(tid: string, done: nat, fx: seq<Fixture>, avail: seq<Player>, pick: (nat, nat) -> nat,
                 round: nat, step: nat, uuid: nat -> string)
    requires |avail| >= 2
    ensures var j := 1 + pick(round, step) % (|avail| - 1);
            var f := Fixture(avail[0], avail[j], round);
            && 1 <= j < |avail|
            && fx + PickedPairs(avail, pick, round, step)
               == (fx + [f]) + PickedPairs(RemoveAt(RemoveAt(avail, j), 0), pick, round, step + 1)
            && Numbered(tid, done, fx + [f], uuid)
               == Numbered(tid, done, fx, uuid) + [Match(uuid(done + |fx|), tid, f.player1, f.player2,
                                                         None, None, None, false, Some(round), Some(done + |fx| + 1), None)]
  {
    var j := 1 + pick(round, step) % (|avail| - 1);
    var f := Fixture(avail[0], avail[j], round);
    var rest := PickedPairs(RemoveAt(RemoveAt(avail, j), 0), pick, round, step + 1);
    assert PickedPairs(avail, pick, round, step) == [f] + rest;
    ShiftOne(fx, f, rest, []);
    NumberedSnoc(tid, done, fx, f, uuid);
  }

  // ---------------------------------------------------------------------
  // Dispatch on the format

  /** The fixtures `generateMatches` produces for a tournament: the league
      keeps the registration order, the other two formats shuffle first. */
  function FixturesFor(t: Tournament, order: nat -> nat, pick: (nat, nat) -> nat, now: Time): seq<Fixture> {
    match t.format
    case League => LeagueFixtures(t.players)
    case Knockout => KnockoutFixtures(Shuffle(t.players, order), now)
    case Champions => ChampionsFixtures(Shuffle(t.players, order), pick, now)
  }

  method GenerateMatches(t: Tournament, order: nat -> nat, pick: (nat, nat) -> nat, uuid: nat -> string, now: Time)
    returns (matches: seq<Match>)
    ensures matches == Schedule(t.id, FixturesFor(t, order, pick, now), uuid)
  {
    match t.format {
      case League => matches := GenerateLeague(t.id, t.players, uuid);
      case Knockout => matches := GenerateKnockout(t.id, t.players, order, uuid, now);
      case Champions => matches := GenerateChampions(t.id, t.players, order, pick, uuid, now);
    }
  }

  /** Every generated match belongs to the tournament, is unplayed and has
      matchNumber k + 1 at position k; the round is the fixture's. */
  lemma ScheduleFields(tid: string, fs: seq<Fixture>, uuid: nat -> string)
    ensures |Schedule(tid, fs, uuid)| == |fs|
    ensures forall k :: 0 <= k < |fs| ==>
              var m := Schedule(tid, fs, uuid)[k];
              m.tournamentId == tid && !m.completed && m.winner == None && m.score1 == None && m.score2 == None
              && m.player1 == fs[k].player1 && m.player2 == fs[k].player2
              && m.round == Some(fs[k].round) && m.matchNumber == Some(k + 1) && m.id == uuid(k)
  {
  }

  // ---------------------------------------------------------------------
  // Properties of the champions schedule

  /** No player occurs twice. */
  ghost predicate NoRepeats(s: seq<Player>) {
    forall x :: multiset(s)[x] <= 1
  }

  lemma {:induction false} SlotsAppend(a: seq<Fixture>, b: seq<Fixture>)
    ensures Slots(a + b) == Slots(a) + Slots(b)
  {
    if a != [] {
      assert (a + b)[1..] == a[1..] + b;
      assert (a + b)[0] == a[0];
      SlotsAppend(a[1..], b);
    } else {
      assert a + b == b;
    }
  }

  lemma {:induction false} SlotsContain(fs: seq<Fixture>, k: int)
    requires 0 <= k < |fs|
    ensures multiset{fs[k].player1, fs[k].player2} <= Slots(fs)
  {
    assert Slots(fs) == multiset{fs[0].player1, fs[0].player2} + Slots(fs[1..]);
    if k > 0 {
      SlotsContain(fs[1..], k - 1);
      assert fs[1..][k - 1] == fs[k];
    }
  }

  /** Fixtures that use every player of a pool exactly as often as it occurs
      never pair a player with itself when the pool has no repeats. */
  lemma NoSelfPairing(fs: seq<Fixture>, pool: seq<Player>)
    requires Slots(fs) == multiset(pool) && NoRepeats(pool)
    ensures forall k :: 0 <= k < |fs| ==> fs[k].player1 != fs[k].player2
  {
    forall k | 0 <= k < |fs| ensures fs[k].player1 != fs[k].player2 {
      SlotsContain(fs, k);
      assert multiset{fs[k].player1, fs[k].player2}[fs[k].player1] <= multiset(pool)[fs[k].player1];
    }
  }

  /** The odd-round pairing: consecutive players meet, each player of an
      even-sized pool plays exactly once. */
  lemma {:induction false} ConsecutivePairsShape(avail: seq<Player>, round: int)
    ensures |ConsecutivePairs(avail, round)| == |avail| / 2
    ensures forall k :: 0 <= k < |avail| / 2 ==>
              ConsecutivePairs(avail, round)[k] == Fixture(avail[2 * k], avail[2 * k + 1], round)
    ensures |avail| % 2 == 0 ==> Slots(ConsecutivePairs(avail, round)) == multiset(avail)
    decreases |avail|
  {
    if |avail| >= 2 {
      var rest := avail[2..];
      ConsecutivePairsShape(rest, round);
      var f := Fixture(avail[0], avail[1], round);
      assert ConsecutivePairs(avail, round) == [f] + ConsecutivePairs(rest, round);
      forall k | 0 <= k < |avail| / 2
        ensures ConsecutivePairs(avail, round)[k] == Fixture(avail[2 * k], avail[2 * k + 1], round)
      {
        if k > 0 {
          assert ConsecutivePairs(avail, round)[k] == ConsecutivePairs(rest, round)[k - 1];
          assert rest[2 * (k - 1)] == avail[2 * k] && rest[2 * (k - 1) + 1] == avail[2 * k + 1];
        }
      }
      assert avail == [avail[0], avail[1]] + rest;
      assert Slots(ConsecutivePairs(avail, round)) == multiset{avail[0], avail[1]} + Slots(ConsecutivePairs(rest, round));
    } else if |avail| == 0 {
      assert avail == [];
    }
  }

  /** The even-round pairing: floor(len / 2) matches in the given round, and
      each player of an even-sized pool plays exactly once. */
  lemma PickedPairsShape(avail: seq<Player>, pick: (nat, nat) -> nat, round: nat, step: nat)
    ensures |PickedPairs(avail, pick, round, step)| == |avail| / 2
    ensures forall k :: 0 <= k < |avail| / 2 ==> PickedPairs(avail, pick, round, step)[k].round == round
    ensures |avail| % 2 == 0 ==> Slots(PickedPairs(avail, pick, round, step)) == multiset(avail)
  {
    PickedPairsRounds(avail, pick, round, step);
    PickedPairsSlots(avail, pick, round, step);
  }

  lemma {:induction false} PickedPairsRounds(avail: seq<Player>, pick: (nat, nat) -> nat, round: nat, step: nat)
    ensures |PickedPairs(avail, pick, round, step)| == |avail| / 2
    ensures forall k :: 0 <= k < |avail| / 2 ==> PickedPairs(avail, pick, round, step)[k].round == round
    decreases |avail|
  {
    if |avail| >= 2 {
      var j := 1 + pick(round, step) % (|avail| - 1);
      var rest := RemoveAt(RemoveAt(avail, j), 0);
      PickedPairsRounds(rest, pick, round, step + 1);
      var tail := PickedPairs(rest, pick, round, step + 1);
      assert PickedPairs(avail, pick, round, step) == [Fixture(avail[0], avail[j], round)] + tail;
      forall k | 0 <= k < |avail| / 2 ensures PickedPairs(avail, pick, round, step)[k].round == round {
        if k > 0 {
          assert PickedPairs(avail, pick, round, step)[k] == tail[k - 1];
        }
      }
    }
  }

  lemma {:induction false} PickedPairsSlots(avail: seq<Player>, pick: (nat, nat) -> nat, round: nat, step: nat)
    ensures |avail| % 2 == 0 ==> Slots(PickedPairs(avail, pick, round, step)) == multiset(avail)
    decreases |avail|
  {
    if |avail| >= 2 && |avail| % 2 == 0 {
      var j := 1 + pick(round, step) % (|avail| - 1);
      var rest := RemoveAt(RemoveAt(avail, j), 0);
      assert |rest| % 2 == 0;
      PickedPairsSlots(rest, pick, round, step + 1);
      var tail := PickedPairs(rest, pick, round, step + 1);
      assert PickedPairs(avail, pick, round, step) == [Fixture(avail[0], avail[j], round)] + tail;
      RemovePairContents(avail, j);
      SlotsCons(Fixture(avail[0], avail[j], round), tail, avail, rest);
    } else if |avail| == 0 {
      assert avail == [];
    }
  }

  /** Taking out the players at `j` and then at 0 removes `s[0]` and `s[j]`. */
  lemma RemovePairContents<T>(s: seq<T>, j: int)
    requires 0 < j < |s|
    ensures multiset(s) == multiset{s[0], s[j]} + multiset(RemoveAt(RemoveAt(s, j), 0))
  {
    RemoveAtContents(s, j);
    RemoveAtContents(RemoveAt(s, j), 0);
    assert RemoveAt(s, j)[0] == s[0];
  }

  lemma SlotsCons(f: Fixture, tail: seq<Fixture>, pool: seq<Player>, rest: seq<Player>)
    requires Slots(tail) == multiset(rest)
    requires multiset(pool) == multiset{f.player1, f.player2} + multiset(rest)
    ensures Slots([f] + tail) == multiset(pool)
  {
    assert ([f] + tail)[1..] == tail;
  }

  lemma {:induction false} OddGroupStageRounds(sh: seq<Player>, round: nat, r: int)
    requires round >= 1 && |sh| % 2 == 1
    ensures InRound(OddGroupStage(sh, round), r)
         == if round <= r <= |sh| then OddRound(sh, r) else []
    decreases |sh| - round
  {
    if round <= |sh| {
      var here := OddRound(sh, round);
      OddGroupStageRounds(sh, round + 1, r);
      InRoundAppend(here, OddGroupStage(sh, round + 1), r);
      ConsecutivePairsShape(RemoveAt(sh, round - 1), round);
      InRoundUniform(here, round, r);
    }
  }

  lemma {:induction false} EvenGroupStageRounds(sh: seq<Player>, pick: (nat, nat) -> nat, round: nat, r: int)
    ensures InRound(EvenGroupStage(sh, pick, round), r)
         == if round <= r <= 3 then PickedPairs(sh, pick, r, 0) else []
    decreases 3 - round
  {
    if round <= 3 {
      var here := PickedPairs(sh, pick, round, 0);
      EvenGroupStageRounds(sh, pick, round + 1, r);
      InRoundAppend(here, EvenGroupStage(sh, pick, round + 1), r);
      PickedPairsShape(sh, pick, round, 0);
      InRoundUniform(here, round, r);
    }
  }

  lemma {:induction false} OddGroupStageLength(sh: seq<Player>, round: nat)
    requires 1 <= round <= |sh| + 1 && |sh| % 2 == 1
    ensures |OddGroupStage(sh, round)| == (|sh| + 1 - round) * (|sh| / 2)
    decreases |sh| - round
  {
    if round <= |sh| {
      var here := OddRound(sh, round);
      var rest := OddGroupStage(sh, round + 1);
      OddGroupStageLength(sh, round + 1);
      OddRoundLength(sh, round);
      assert |OddGroupStage(sh, round)| == |here| + |rest|;
      RoundsAdd(|here|, |rest|, |sh| - round, |sh| / 2);
    }
  }

  lemma {:induction false} EvenGroupStageLength(sh: seq<Player>, pick: (nat, nat) -> nat, round: nat)
    ensures |EvenGroupStage(sh, pick, round)| == (if round <= 3 then 4 - round else 0) * (|sh| / 2)
    decreases 3 - round
  {
    if round <= 3 {
      var here := PickedPairs(sh, pick, round, 0);
      var rest := EvenGroupStage(sh, pick, round + 1);
      EvenGroupStageLength(sh, pick, round + 1);
      PickedPairsShape(sh, pick, round, 0);
      assert |EvenGroupStage(sh, pick, round)| == |here| + |rest|;
      RoundsAdd(|here|, |rest|, 3 - round, |sh| / 2);
    }
  }

  lemma OddRoundLength(sh: seq<Player>, r: int)
    requires 1 <= r <= |sh| && |sh| % 2 == 1
    ensures |OddRound(sh, r)| == |sh| / 2
  {
    ConsecutivePairsShape(RemoveAt(sh, r - 1), r);
  }

  /** One more round of `h` matches on top of `m` rounds. */
  lemma RoundsAdd(a: int, b: int, m: nat, h: nat)
    requires a == h && b == m * h
    ensures a + b == (m + 1) * h
  {
  }

  /** Round G + 1 holds the semifinals, round G + 2 the third-place match and the final. */
  lemma KnockoutStageRounds(g: int, now: Time, r: int)
    ensures InRound(KnockoutStage(g, now), r)
         == if r == g + 1 then KnockoutStage(g, now)[..2] else if r == g + 2 then KnockoutStage(g, now)[2..] else []
  {
    var ks := KnockoutStage(g, now);
    assert ks == ks[..2] + ks[2..];
    InRoundAppend(ks[..2], ks[2..], r);
    InRoundUniform(ks[..2], g + 1, r);
    InRoundUniform(ks[2..], g + 2, r);
  }

  /** Champions generation, size: GroupRounds(N) rounds of floor(N/2)
      matches, then four knockout matches. */
  lemma ChampionsMatchCount(sh: seq<Player>, pick: (nat, nat) -> nat, now: Time)
    ensures |ChampionsFixtures(sh, pick, now)| == GroupRounds(|sh|) * (|sh| / 2) + 4
  {
    if |sh| % 2 == 1 {
      OddGroupStageLength(sh, 1);
    } else {
      EvenGroupStageLength(sh, pick, 1);
    }
  }

  /** Champions generation, odd N: round r (1..N) leaves out shuffled player
      r - 1 and pairs the others consecutively, so every other player plays
      exactly once in that round and nobody meets themselves. */
  lemma ChampionsOddRound(sh: seq<Player>, pick: (nat, nat) -> nat, now: Time, r: int)
    requires |sh| % 2 == 1 && 1 <= r <= |sh|
    ensures InRound(ChampionsFixtures(sh, pick, now), r) == OddRound(sh, r)
    ensures |OddRound(sh, r)| == |sh| / 2
    ensures Slots(OddRound(sh, r)) == multiset(sh) - multiset{sh[r - 1]}
    ensures NoRepeats(sh) ==> forall k :: 0 <= k < |OddRound(sh, r)| ==>
              OddRound(sh, r)[k].player1 != OddRound(sh, r)[k].player2
  {
    var ks := KnockoutStage(GroupRounds(|sh|), now);
    assert InRound(ChampionsFixtures(sh, pick, now), r) == OddRound(sh, r) by {
      InRoundAppend(OddGroupStage(sh, 1), ks, r);
      OddGroupStageRounds(sh, 1, r);
      KnockoutStageRounds(GroupRounds(|sh|), now, r);
    }
    OddRoundLength(sh, r);
    OddRoundSlots(sh, r);
  }

  lemma OddRoundSlots(sh: seq<Player>, r: int)
    requires |sh| % 2 == 1 && 1 <= r <= |sh|
    ensures Slots(OddRound(sh, r)) == multiset(sh) - multiset{sh[r - 1]}
    ensures NoRepeats(sh) ==> forall k :: 0 <= k < |OddRound(sh, r)| ==>
              OddRound(sh, r)[k].player1 != OddRound(sh, r)[k].player2
  {
    var avail := RemoveAt(sh, r - 1);
    assert |avail| == |sh| - 1 && |avail| % 2 == 0;
    ConsecutivePairsShape(avail, r);
    RemoveAtContents(sh, r - 1);
    if NoRepeats(sh) {
      OddRoundNoSelfPairing(sh, avail, r);
    }
  }

  lemma OddRoundNoSelfPairing(sh: seq<Player>, avail: seq<Player>, r: int)
    requires 1 <= r <= |sh| && avail == RemoveAt(sh, r - 1) && NoRepeats(sh)
    requires Slots(ConsecutivePairs(avail, r)) == multiset(avail)
    ensures forall k :: 0 <= k < |ConsecutivePairs(avail, r)| ==>
              ConsecutivePairs(avail, r)[k].player1 != ConsecutivePairs(avail, r)[k].player2
  {
    RemoveAtContents(sh, r - 1);
    forall x ensures multiset(avail)[x] <= 1 {
      assert multiset(avail)[x] <= multiset(sh)[x];
    }
    NoSelfPairing(ConsecutivePairs(avail, r), avail);
  }


  /** Champions generation, even N: rounds 1 to 3 each pair all N players by
      draws, every player exactly once per round and never against themselves. */
  lemma ChampionsEvenRound(sh: seq<Player>, pick: (nat, nat) -> nat, now: Time, r: int)
    requires |sh| % 2 == 0 && 1 <= r <= 3
    ensures InRound(ChampionsFixtures(sh, pick, now), r) == PickedPairs(sh, pick, r, 0)
    ensures |PickedPairs(sh, pick, r, 0)| == |sh| / 2
    ensures Slots(PickedPairs(sh, pick, r, 0)) == multiset(sh)
    ensures NoRepeats(sh) ==> forall k :: 0 <= k < |PickedPairs(sh, pick, r, 0)| ==>
              PickedPairs(sh, pick, r, 0)[k].player1 != PickedPairs(sh, pick, r, 0)[k].player2
  {
    var ks := KnockoutStage(GroupRounds(|sh|), now);
    InRoundAppend(EvenGroupStage(sh, pick, 1), ks, r);
    EvenGroupStageRounds(sh, pick, 1, r);
    KnockoutStageRounds(GroupRounds(|sh|), now, r);
    PickedPairsShape(sh, pick, r, 0);
    if NoRepeats(sh) {
      NoSelfPairing(PickedPairs(sh, pick, r, 0), sh);
    }
  }

  /** Champions generation, knockout stage: round G + 1 holds the two
      semifinals (1st v 4th, 2nd v 3rd), round G + 2 the third-place match and
      the final, no later round exists, and these are the last four matches. */
  lemma ChampionsKnockoutStage(sh: seq<Player>, pick: (nat, nat) -> nat, now: Time, r: int)
    ensures InRound(ChampionsFixtures(sh, pick, now), GroupRounds(|sh|) + 1) == KnockoutStage(GroupRounds(|sh|), now)[..2]
    ensures InRound(ChampionsFixtures(sh, pick, now), GroupRounds(|sh|) + 2) == KnockoutStage(GroupRounds(|sh|), now)[2..]
    ensures r < 1 || r > GroupRounds(|sh|) + 2 ==> InRound(ChampionsFixtures(sh, pick, now), r) == []
    ensures ChampionsFixtures(sh, pick, now)[|ChampionsFixtures(sh, pick, now)| - 4..] == KnockoutStage(GroupRounds(|sh|), now)
  {
    var g := GroupRounds(|sh|);
    var all := ChampionsFixtures(sh, pick, now);
    var ks := KnockoutStage(g, now);
    assert InRound(all, g + 1) == ks[..2] by {
      ChampionsRoundSplit(sh, pick, now, g + 1);
    }
    assert InRound(all, g + 2) == ks[2..] by {
      ChampionsRoundSplit(sh, pick, now, g + 2);
    }
    assert r < 1 || r > g + 2 ==> InRound(all, r) == [] by {
      ChampionsRoundSplit(sh, pick, now, r);
    }
    SuffixAfter(GroupStage(sh, pick), ks);
  }

  lemma ChampionsRoundSplit(sh: seq<Player>, pick: (nat, nat) -> nat, now: Time, q: int)
    ensures InRound(ChampionsFixtures(sh, pick, now), q)
         == InRound(GroupStage(sh, pick), q) + InRound(KnockoutStage(GroupRounds(|sh|), now), q)
    ensures q < 1 || q > GroupRounds(|sh|) ==> InRound(GroupStage(sh, pick), q) == []
    ensures InRound(KnockoutStage(GroupRounds(|sh|), now), q)
         == if q == GroupRounds(|sh|) + 1 then KnockoutStage(GroupRounds(|sh|), now)[..2]
            else if q == GroupRounds(|sh|) + 2 then KnockoutStage(GroupRounds(|sh|), now)[2..] else []
  {
    InRoundAppend(GroupStage(sh, pick), KnockoutStage(GroupRounds(|sh|), now), q);
    KnockoutStageRounds(GroupRounds(|sh|), now, q);
    if |sh| % 2 == 1 {
      OddGroupStageRounds(sh, 1, q);
    } else {
      EvenGroupStageRounds(sh, pick, 1, q);
    }
  }


}

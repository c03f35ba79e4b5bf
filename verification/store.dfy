/**
 Properties of whole-store transitions: what match creation does to each
 player and to the participation table, that both creating operations keep
 the schema's constraints, that a created match reads back exactly, and
 that stored totals always equal the recomputation from the match history.
 */
module StoreProofs {
  import opened Models
  import opened Scoring
  import opened History
  import opened Api
  import opened Roster

  /** Match creation, per registered player: matches grow by the number of
      entries naming the player, wins and losses together by the same
      number, rounds by both scores per entry, kills, deaths and assists by
      the entries' values; a player no entry names is left as it was. */
  lemma CreateMatchCounters(db: Store, req: MatchRequest, date: Timestamp, name: string)
    requires name in db.players
    ensures name in CreateMatch(db, req, date).store.players
    ensures var before := db.players[name].totals;
            var after := CreateMatch(db, req, date).store.players[name].totals;
            var k := EntriesNaming(req.players, name);
            && after.matches == before.matches + k
            && (after.wins - before.wins) + (after.losses - before.losses) == k
            && before.wins <= after.wins && before.losses <= after.losses
            && after.roundsWon + after.roundsLost
               == before.roundsWon + before.roundsLost + k * (req.scoreBlue + req.scoreRed)
            && after.kills == before.kills + SumFor(req.players, name, Kills)
            && after.deaths == before.deaths + SumFor(req.players, name, Deaths)
            && after.assists == before.assists + SumFor(req.players, name, Assists)
    ensures EntriesNaming(req.players, name) == 0 ==>
            CreateMatch(db, req, date).store.players[name] == db.players[name]
  {
    var m := HeaderOf(db.nextMatchId, req, date);
    RosterTotals(Tally(db.players, db.participation), m, req.players, name);
    EntriesTotalShape(req.players, m, name);
    WinsLossesGrow(req.players, m, name);
    if EntriesNaming(req.players, name) == 0 {
      EntriesTotalAbsent(req.players, m, name);
      ZeroIsIdentity(db.players[name].totals);
    }
  }

  /** Neither wins nor losses ever decrease over a roster. */
  lemma {:induction false} WinsLossesGrow(roster: seq<RosterEntry>, m: Match, name: string)
    ensures 0 <= EntriesTotal(roster, m, name).wins && 0 <= EntriesTotal(roster, m, name).losses
  {
    if roster != [] {
      WinsLossesGrow(roster[1..], m, name);
    }
  }

  /** Match creation appends exactly one row per entry with a registered
      name, in roster order, all carrying the new match's key; entries with
      unknown names add none. */
  lemma CreateMatchRows(db: Store, req: MatchRequest, date: Timestamp)
    ensures CreateMatch(db, req, date).store.participation
         == db.participation + KnownRows(db.players.Keys, CreateMatch(db, req, date).out, req.players)
  {
    RosterRows(Tally(db.players, db.participation), HeaderOf(db.nextMatchId, req, date), req.players);
  }

  /** Registration keeps the schema's constraints. */
  lemma CreatePlayerPreservesValid(db: Store, name: string)
    requires Valid(db)
    ensures Valid(CreatePlayer(db, name).store)
  {
    var after := CreatePlayer(db, name).store;
    assert RowsReferToPlayers(after.participation, after.players) by {
      forall i | 0 <= i < |after.participation|
        ensures after.participation[i].playerName in after.players
      {
        assert after.participation[i] == db.participation[i];
      }
    }
  }

  /** Match creation keeps the schema's constraints: the new key is fresh
      and every appended row names an existing match and player. */
  lemma CreateMatchPreservesValid(db: Store, req: MatchRequest, date: Timestamp)
    requires Valid(db)
    ensures Valid(CreateMatch(db, req, date).store)
  {
    var r := CreateMatch(db, req, date);
    var after := r.store;
    var m := HeaderOf(db.nextMatchId, req, date);
    var t := ApplyRoster(Tally(db.players, db.participation), m, req.players);
    assert after.players == t.players && after.participation == t.rows;
    forall n | n in after.players
      ensures after.players[n].name == n
    {
      RosterTotals(Tally(db.players, db.participation), m, req.players, n);
    }
    forall i | 0 <= i < |after.participation|
      ensures after.participation[i].matchId in after.matches
      ensures after.participation[i].playerName in after.players
    {
      if i < |db.participation| {
        assert after.participation[i] == after.participation[..|db.participation|][i];
      }
    }
  }

  /** No row of a valid store carries the key match creation is about to use. */
  lemma NoRowHasNextKey(db: Store)
    requires Valid(db)
    ensures forall i :: 0 <= i < |db.participation| ==> db.participation[i].matchId != db.nextMatchId
  {
  }

  lemma {:induction false} RowsOfMatchAppend(a: seq<MatchPlayer>, b: seq<MatchPlayer>, id: int)
    ensures RowsOfMatch(a + b, id) == RowsOfMatch(a, id) + RowsOfMatch(b, id)
  {
    if a == [] {
      assert a + b == b;
    } else {
      assert (a + b)[0] == a[0];
      assert (a + b)[1..] == a[1..] + b;
      RowsOfMatchAppend(a[1..], b, id);
    }
  }

  lemma {:induction false} RowsOfMatchNone(rows: seq<MatchPlayer>, id: int)
    requires forall i :: 0 <= i < |rows| ==> rows[i].matchId != id
    ensures RowsOfMatch(rows, id) == []
  {
    if rows != [] {
      RowsOfMatchNone(rows[1..], id);
    }
  }

  lemma {:induction false} RowsOfMatchAll(rows: seq<MatchPlayer>, id: int)
    requires forall i :: 0 <= i < |rows| ==> rows[i].matchId == id
    ensures RowsOfMatch(rows, id) == rows
  {
    if rows != [] {
      RowsOfMatchAll(rows[1..], id);
      assert rows == [rows[0]] + rows[1..];
    }
  }

  /** A match created in a valid store reads back with the given date, map
      and scores and exactly the rows of its registered entries, in roster order. */
  lemma GetMatchAfterCreate(db: Store, req: MatchRequest, date: Timestamp)
    requires Valid(db)
    ensures var r := CreateMatch(db, req, date);
            GetMatch(r.store, r.out)
            == Found(MatchView(date, req.mapName, req.scoreBlue, req.scoreRed,
                               KnownRows(db.players.Keys, r.out, req.players)))
  {
    var r := CreateMatch(db, req, date);
    var added := KnownRows(db.players.Keys, r.out, req.players);
    CreateMatchRows(db, req, date);
    assert r.store.participation == db.participation + added;
    RowsOfMatchAppend(db.participation, added, r.out);
    NoRowHasNextKey(db);
    RowsOfMatchNone(db.participation, r.out);
    RowsOfMatchAll(added, r.out);
    assert RowsOfMatch(r.store.participation, r.out) == added by {
      assert [] + added == added;
    }
    var h := r.store.matches[r.out];
    assert h == HeaderOf(r.out, req, date);
  }

  /** A key no header carries is reported as not found. */
  lemma GetMatchMissing(db: Store, id: int)
    requires id !in db.matches
    ensures GetMatch(db, id) == NotFound
    ensures GetMatch(db, id).Message() == "Partida não encontrada"
  {
  }

  /** The row of a single registered entry recomputes to that entry's
      increments for the name it carries, and to nothing for any other name. */
  lemma RecomputeEntryRow(m: Match, e: RosterEntry, matches: map<int, Match>, name: string)
    requires m.id in matches && matches[m.id] == m
    ensures Recompute([RowOf(m.id, e)], matches, name)
         == (if e.playerName == name then Contribution(RowOf(m.id, e), m) else Zero)
  {
    var row := RowOf(m.id, e);
    var head := [row];
    assert head[0] == row && head[1..] == [];
    var c := ContributionTo(row, matches, name);
    assert Recompute(head, matches, name) == c.Plus(Recompute([], matches, name));
    ZeroIsIdentity(c);
  }

  /** The rows a roster produces recompute, for a registered name, to the
      increments the roster adds to that name. */
  lemma {:induction false} RecomputeKnownRows(known: set<string>, m: Match, roster: seq<RosterEntry>,
                                              matches: map<int, Match>, name: string)
    requires name in known
    requires m.id in matches && matches[m.id] == m
    ensures Recompute(KnownRows(known, m.id, roster), matches, name) == EntriesTotal(roster, m, name)
  {
    if roster != [] {
      var e := roster[0];
      var head := if e.playerName in known then [RowOf(m.id, e)] else [];
      var rest := KnownRows(known, m.id, roster[1..]);
      RecomputeKnownRows(known, m, roster[1..], matches, name);
      if e.playerName in known {
        RecomputeEntryRow(m, e, matches, name);
      } else {
        assert head == [] && e.playerName != name;
      }
      assert KnownRows(known, m.id, roster) == head + rest;
      RecomputeAppend(head, rest, matches, name);
    }
  }

  /** Registration keeps every stored total equal to its recomputation from
      the match history: the new name has no rows yet, and nothing else changes. */
  lemma CreatePlayerPreservesHistory(db: Store, name: string)
    requires Valid(db) && TotalsMatchHistory(db)
    ensures TotalsMatchHistory(CreatePlayer(db, name).store)
  {
    if name !in db.players {
      RecomputeAbsent(db.participation, db.matches, name);
    }
  }

  /** Match creation keeps every stored total equal to its recomputation
      from the match history: the old rows score as before under the new
      header map, and the new rows add exactly what the roster loop added. */
  lemma CreateMatchPreservesHistory(db: Store, req: MatchRequest, date: Timestamp)
    requires Valid(db) && TotalsMatchHistory(db)
    ensures TotalsMatchHistory(CreateMatch(db, req, date).store)
  {
    var r := CreateMatch(db, req, date);
    var after := r.store;
    var m := HeaderOf(db.nextMatchId, req, date);
    var added := KnownRows(db.players.Keys, m.id, req.players);
    CreateMatchRows(db, req, date);
    CreateMatchPreservesValid(db, req, date);
    forall n | n in after.players
      ensures after.players[n].totals == Recompute(after.participation, after.matches, n)
    {
      RosterTotals(Tally(db.players, db.participation), m, req.players, n);
      RecomputeNewHeader(db.participation, db.matches, m, n);
      RecomputeKnownRows(db.players.Keys, m, req.players, after.matches, n);
      RecomputeAppend(db.participation, added, after.matches, n);
    }
  }
}

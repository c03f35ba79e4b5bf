/**
 The store as a state machine driven by the two writing requests, starting
 from the empty database, and what holds of every store it can reach.
 */
module Lifecycle {
  import opened Models
  import opened Scoring
  import opened History
  import opened Api
  import opened Roster
  import opened StoreProofs

  /** A writing request: register a player, or record a match stamped with the clock's `date`. */
  datatype Command = Register(name: string) | Record(req: MatchRequest, date: Timestamp)

  function Apply(db: Store, c: Command): Store
  {
    match c
    case Register(name) => CreatePlayer(db, name).store
    case Record(req, date) => CreateMatch(db, req, date).store
  }

  /** The model assumes requests are serialized: each is handled to
      completion before the next one starts, in arrival order. Concurrent
      handlers that interleave their reads and writes are outside this model. */
  function Run(db: Store, cmds: seq<Command>): Store
    decreases |cmds|
  {
    if cmds == [] then db else Run(Apply(db, cmds[0]), cmds[1..])
  }

  /** Every request sequence keeps the schema's constraints and keeps every
      stored total equal to its recomputation from the match history. */
  lemma {:induction false} RunPreserves(db: Store, cmds: seq<Command>)
    requires Valid(db) && TotalsMatchHistory(db)
    ensures Valid(Run(db, cmds)) && TotalsMatchHistory(Run(db, cmds))
    decreases |cmds|
  {
    if cmds != [] {
      match cmds[0] {
        case Register(name) =>
          CreatePlayerPreservesValid(db, name);
          CreatePlayerPreservesHistory(db, name);
        case Record(req, date) =>
          CreateMatchPreservesValid(db, req, date);
          CreateMatchPreservesHistory(db, req, date);
      }
      RunPreserves(Apply(db, cmds[0]), cmds[1..]);
    }
  }

  /** In every store reachable from the empty database, each player's match
      count equals the number of participation rows naming them, and equals
      wins plus losses, neither of which is negative. */
  lemma ReachableBalanced(cmds: seq<Command>, name: string)
    requires name in Run(Empty, cmds).players
    ensures var db := Run(Empty, cmds);
            && db.players[name].totals.matches == RowsNaming(db.participation, name)
            && db.players[name].totals.matches == db.players[name].totals.wins + db.players[name].totals.losses
            && 0 <= db.players[name].totals.wins
            && 0 <= db.players[name].totals.losses
  {
    RunPreserves(Empty, cmds);
    var db := Run(Empty, cmds);
    RecomputeShape(db.participation, db.matches, name);
  }

  /** A roster that names a registered player twice credits them twice. */
  lemma DuplicateEntriesAccumulate(db: Store, e: RosterEntry, mapName: string, blue: int, red: int, date: Timestamp)
    requires e.playerName in db.players
    ensures var req := MatchRequest(mapName, blue, red, [e, e]);
            var before := db.players[e.playerName].totals;
            var after := CreateMatch(db, req, date).store.players[e.playerName].totals;
            && after.matches == before.matches + 2
            && after.kills == before.kills + 2 * e.kills
            && after.deaths == before.deaths + 2 * e.deaths
            && after.assists == before.assists + 2 * e.assists
  {
    var req := MatchRequest(mapName, blue, red, [e, e]);
    var n := e.playerName;
    assert req.players[1..] == [e] && req.players[1..][1..] == [];
    assert EntriesNaming([e], n) == 1 + EntriesNaming([], n);
    assert SumFor([e], n, Kills) == e.kills + SumFor([], n, Kills);
    assert SumFor([e], n, Deaths) == e.deaths + SumFor([], n, Deaths);
    assert SumFor([e], n, Assists) == e.assists + SumFor([], n, Assists);
    assert EntriesNaming(req.players, n) == 2;
    assert SumFor(req.players, n, Kills) == 2 * e.kills;
    assert SumFor(req.players, n, Deaths) == 2 * e.deaths;
    assert SumFor(req.players, n, Assists) == 2 * e.assists;
    CreateMatchCounters(db, req, date, e.playerName);
  }

  /** Two players on opposite sides of a 3-1 match: the blue winner gets the
      win and three rounds won, the red loser the loss and one round won. */
  lemma ThreeToOneExample()
    ensures var db := Run(Empty, [Register("A"), Register("B"),
              Record(MatchRequest("dust2", 3, 1, [RosterEntry("A", "blue", 10, 5, 2),
                                                  RosterEntry("B", "red", 4, 9, 1)]), 0)]);
            && db.players["A"].totals == Stats(1, 1, 0, 10, 5, 2, 3, 1)
            && db.players["B"].totals == Stats(1, 0, 1, 4, 9, 1, 1, 3)
            && |db.participation| == 2
  {
  }
}

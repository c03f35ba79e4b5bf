/**
 The three record types of the stat store (players, matches and
 participation rows) and the abstract database that holds them.
 The ORM tables become immutable values: players keyed by their unique
 name, match headers keyed by their primary key, and the participation
 rows as a sequence in insertion order.
 */
module Models {

  /** The creation date the database stamps on a match. It comes from the
      clock, so the model takes it as an opaque value supplied by the caller. */
  type Timestamp = int

  /** The eight cumulative counters of a player, all plain integers. */
  datatype Stats = Stats(
    matches: int,
    wins: int,
    losses: int,
    kills: int,
    deaths: int,
    assists: int,
    roundsWon: int,
    roundsLost: int)
  {
    /** Counter-by-counter sum: how one set of increments is applied to totals. */
    function Plus(d: Stats): Stats
    {
      Stats(matches + d.matches, wins + d.wins, losses + d.losses,
            kills + d.kills, deaths + d.deaths, assists + d.assists,
            roundsWon + d.roundsWon, roundsLost + d.roundsLost)
    }
  }

  /** The column defaults of a fresh player row. */
  const Zero: Stats := Stats(0, 0, 0, 0, 0, 0, 0, 0)

  /** Applying increments in two steps is applying their sum once. */
  lemma PlusAssociative(a: Stats, b: Stats, c: Stats)
    ensures a.Plus(b).Plus(c) == a.Plus(b.Plus(c))
  {
  }

  /** The zero totals add nothing. */
  lemma ZeroIsIdentity(a: Stats)
    ensures Zero.Plus(a) == a && a.Plus(Zero) == a
  {
  }

  /** A registered player; the name is the unique key. The surrogate integer
      id of the table is never observed by the handlers and is not modelled. */
  datatype Player = Player(name: string, totals: Stats)

  /** A match header: primary key, creation date, map name and the two team scores. */
  datatype Match = Match(id: int, date: Timestamp, mapName: string, scoreBlue: int, scoreRed: int)

  /** One player's stat line in one match. Both foreign keys are by value:
      the match id and the player's name. */
  datatype MatchPlayer = MatchPlayer(
    matchId: int,
    playerName: string,
    team: string,
    kills: int,
    deaths: int,
    assists: int)

  /** The abstract database. `nextMatchId` is the key the database hands to
      the next inserted match. */
  datatype Store = Store(
    players: map<string, Player>,
    matches: map<int, Match>,
    participation: seq<MatchPlayer>,
    nextMatchId: int)

  /** Every participation row refers to an existing match header. */
  predicate RowsReferToMatches(rows: seq<MatchPlayer>, matches: map<int, Match>)
  {
    forall i :: 0 <= i < |rows| ==> rows[i].matchId in matches
  }

  /** Every participation row refers to an existing player. */
  predicate RowsReferToPlayers(rows: seq<MatchPlayer>, players: map<string, Player>)
  {
    forall i :: 0 <= i < |rows| ==> rows[i].playerName in players
  }

  /** The schema's integrity constraints: names and ids are the keys of their
      records, match ids are positive and below the next id to be handed out,
      and both foreign keys of every participation row resolve. */
  predicate Valid(db: Store)
  {
    && (forall n :: n in db.players ==> db.players[n].name == n)
    && 1 <= db.nextMatchId
    && (forall id :: id in db.matches ==> db.matches[id].id == id && 1 <= id < db.nextMatchId)
    && RowsReferToMatches(db.participation, db.matches)
    && RowsReferToPlayers(db.participation, db.players)
  }

  /** The database as created: no rows in any table; the first key is 1. */
  const Empty: Store := Store(map[], map[], [], 1)
}

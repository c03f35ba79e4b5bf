/**
 Reference readings of the roster loop of match creation, and the lemmas
 that tie the loop to them: what each known player gains, which rows are
 appended, and that unknown names and absent players change nothing.
 */
module Roster {
  import opened Models
  import opened Scoring
  import opened Api

  /** Number of roster entries naming `name` (duplicates count each time). */
  function EntriesNaming(roster: seq<RosterEntry>, name: string): nat
  {
    if roster == [] then 0
    else (if roster[0].playerName == name then 1 else 0) + EntriesNaming(roster[1..], name)
  }

  /** The three per-match stat lines an entry carries. */
  datatype Line = Kills | Deaths | Assists

  function LineOf(e: RosterEntry, line: Line): int
  {
    match line
    case Kills => e.kills
    case Deaths => e.deaths
    case Assists => e.assists
  }

  /** Sum of one stat line over the entries naming `name`. */
  function SumFor(roster: seq<RosterEntry>, name: string, line: Line): int
  {
    if roster == [] then 0
    else (if roster[0].playerName == name then LineOf(roster[0], line) else 0) + SumFor(roster[1..], name, line)
  }

  /** The combined increments the entries naming `name` add to that player. */
  function EntriesTotal(roster: seq<RosterEntry>, m: Match, name: string): Stats
  {
    if roster == [] then Zero
    else (if roster[0].playerName == name then Contribution(RowOf(m.id, roster[0]), m) else Zero)
           .Plus(EntriesTotal(roster[1..], m, name))
  }

  /** The rows the roster produces: one per entry whose name is known, in roster order. */
  function KnownRows(known: set<string>, id: int, roster: seq<RosterEntry>): (r: seq<MatchPlayer>)
    ensures |r| <= |roster|
    ensures forall i :: 0 <= i < |r| ==> r[i].matchId == id && r[i].playerName in known
  {
    if roster == [] then []
    else (if roster[0].playerName in known then [RowOf(id, roster[0])] else []) + KnownRows(known, id, roster[1..])
  }

  /** Per player, the entries naming them add exactly one match each, each
      match is a win or a loss, every entry adds the sum of both scores to
      the rounds, and kills, deaths and assists grow by the entries' own values. */
  lemma EntriesTotalShape(roster: seq<RosterEntry>, m: Match, name: string)
    ensures EntriesTotal(roster, m, name).matches == EntriesNaming(roster, name)
    ensures EntriesTotal(roster, m, name).wins + EntriesTotal(roster, m, name).losses
         == EntriesNaming(roster, name)
    ensures EntriesTotal(roster, m, name).roundsWon + EntriesTotal(roster, m, name).roundsLost
         == EntriesNaming(roster, name) * (m.scoreBlue + m.scoreRed)
    ensures EntriesTotal(roster, m, name).kills == SumFor(roster, name, Kills)
    ensures EntriesTotal(roster, m, name).deaths == SumFor(roster, name, Deaths)
    ensures EntriesTotal(roster, m, name).assists == SumFor(roster, name, Assists)
  {
    EntriesTotalMatches(roster, m, name);
    EntriesTotalRounds(roster, m, name);
    EntriesTotalLine(roster, m, name, Kills);
    EntriesTotalLine(roster, m, name, Deaths);
    EntriesTotalLine(roster, m, name, Assists);
  }

  /** One match per entry naming the player, each a win or a loss. */
  lemma {:induction false} EntriesTotalMatches(roster: seq<RosterEntry>, m: Match, name: string)
    ensures EntriesTotal(roster, m, name).matches == EntriesNaming(roster, name)
    ensures EntriesTotal(roster, m, name).wins + EntriesTotal(roster, m, name).losses
         == EntriesNaming(roster, name)
  {
    if roster != [] {
      EntriesTotalMatches(roster[1..], m, name);
      ContributionShape(RowOf(m.id, roster[0]), m);
    }
  }

  /** Both scores per entry naming the player, split between rounds won and lost. */
  lemma {:induction false} EntriesTotalRounds(roster: seq<RosterEntry>, m: Match, name: string)
    ensures EntriesTotal(roster, m, name).roundsWon + EntriesTotal(roster, m, name).roundsLost
         == EntriesNaming(roster, name) * (m.scoreBlue + m.scoreRed)
  {
    if roster != [] {
      var e := roster[0];
      var total := EntriesTotal(roster, m, name);
      var rest := EntriesTotal(roster[1..], m, name);
      var k := EntriesNaming(roster[1..], name);
      var s := m.scoreBlue + m.scoreRed;
      EntriesTotalRounds(roster[1..], m, name);
      if e.playerName == name {
        assert total.roundsWon + total.roundsLost == rest.roundsWon + rest.roundsLost + s by {
          ContributionShape(RowOf(m.id, e), m);
          assert total == Contribution(RowOf(m.id, e), m).Plus(rest);
        }
        assert EntriesNaming(roster, name) == k + 1;
        MultiplySuccessor(k, s);
      } else {
        assert total == Zero.Plus(rest);
        assert EntriesNaming(roster, name) == k;
      }
    }
  }

  lemma MultiplySuccessor(k: int, s: int)
    ensures (k + 1) * s == k * s + s
  {
  }

  /** The same stat line read from a player's totals. */
  function StatsLine(d: Stats, line: Line): int
  {
    match line
    case Kills => d.kills
    case Deaths => d.deaths
    case Assists => d.assists
  }

  /** A stat line of a sum is the sum of the stat lines. */
  lemma StatsLinePlus(a: Stats, b: Stats, line: Line)
    ensures StatsLine(a.Plus(b), line) == StatsLine(a, line) + StatsLine(b, line)
  {
    match line
    case Kills =>
    case Deaths =>
    case Assists =>
  }

  /** The stat line one entry adds to the named player: its own value when
      it names them, nothing otherwise. */
  lemma EntryGainLine(e: RosterEntry, m: Match, name: string, line: Line)
    ensures StatsLine(if e.playerName == name then Contribution(RowOf(m.id, e), m) else Zero, line)
         == (if e.playerName == name then LineOf(e, line) else 0)
  {
    if e.playerName == name {
      ContributionShape(RowOf(m.id, e), m);
      match line
      case Kills =>
      case Deaths =>
      case Assists =>
    } else {
      match line
      case Kills =>
      case Deaths =>
      case Assists =>
    }
  }

  /** Each of kills, deaths and assists grows by the sum of that line over the
      entries naming the player. */
  lemma {:induction false} EntriesTotalLine(roster: seq<RosterEntry>, m: Match, name: string, line: Line)
    ensures StatsLine(EntriesTotal(roster, m, name), line) == SumFor(roster, name, line)
  {
    if roster != [] {
      var e := roster[0];
      var gain := if e.playerName == name then Contribution(RowOf(m.id, e), m) else Zero;
      var rest := EntriesTotal(roster[1..], m, name);
      EntriesTotalLine(roster[1..], m, name, line);
      assert EntriesTotal(roster, m, name) == gain.Plus(rest);
      StatsLinePlus(gain, rest, line);
      EntryGainLine(e, m, name, line);
      assert SumFor(roster, name, line)
          == (if e.playerName == name then LineOf(e, line) else 0) + SumFor(roster[1..], name, line);
    }
  }

  /** A name the roster never mentions gains nothing. */
  lemma {:induction false} EntriesTotalAbsent(roster: seq<RosterEntry>, m: Match, name: string)
    requires EntriesNaming(roster, name) == 0
    ensures EntriesTotal(roster, m, name) == Zero
  {
    if roster != [] {
      EntriesTotalAbsent(roster[1..], m, name);
    }
  }

  /** After the loop, every existing player keeps its name and holds its old
      totals plus the combined increments of the entries naming it. */
  lemma {:induction false} RosterTotals(t: Tally, m: Match, roster: seq<RosterEntry>, name: string)
    requires name in t.players
    ensures name in ApplyRoster(t, m, roster).players
    ensures ApplyRoster(t, m, roster).players[name].name == t.players[name].name
    ensures ApplyRoster(t, m, roster).players[name].totals
         == t.players[name].totals.Plus(EntriesTotal(roster, m, name))
    decreases |roster|
  {
    if roster == [] {
      ZeroIsIdentity(t.players[name].totals);
    } else {
      var e := roster[0];
      var t1 := ApplyEntry(t, m, e);
      RosterTotals(t1, m, roster[1..], name);
      var c := if e.playerName == name then Contribution(RowOf(m.id, e), m) else Zero;
      assert t1.players[name].totals == t.players[name].totals.Plus(c) by {
        if e.playerName != name { ZeroIsIdentity(t.players[name].totals); }
      }
      PlusAssociative(t.players[name].totals, c, EntriesTotal(roster[1..], m, name));
    }
  }

  /** The loop appends exactly the rows of the entries with known names, in roster order. */
  lemma {:induction false} RosterRows(t: Tally, m: Match, roster: seq<RosterEntry>)
    ensures ApplyRoster(t, m, roster).rows == t.rows + KnownRows(t.players.Keys, m.id, roster)
    decreases |roster|
  {
    if roster == [] {
      assert t.rows + [] == t.rows;
    } else {
      var e := roster[0];
      var t1 := ApplyEntry(t, m, e);
      RosterRows(t1, m, roster[1..]);
      var head := if e.playerName in t.players then [RowOf(m.id, e)] else [];
      assert t1.rows == t.rows + head;
      assert KnownRows(t.players.Keys, m.id, roster) == head + KnownRows(t.players.Keys, m.id, roster[1..]);
      assert t.rows + head + KnownRows(t.players.Keys, m.id, roster[1..])
          == t.rows + (head + KnownRows(t.players.Keys, m.id, roster[1..]));
    }
  }

  /** A roster none of whose names is registered produces no row. */
  lemma {:induction false} UnknownNamesAddNoRows(known: set<string>, id: int, roster: seq<RosterEntry>)
    requires forall i :: 0 <= i < |roster| ==> roster[i].playerName !in known
    ensures KnownRows(known, id, roster) == []
  {
    if roster != [] {
      UnknownNamesAddNoRows(known, id, roster[1..]);
    }
  }
}

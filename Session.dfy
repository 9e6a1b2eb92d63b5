/**
 * The banker's session: the roster, the change last applied (for
 * highlighting) and the history of applied transactions, with the operations
 * the setup screen and the game screen perform on them.
 */
module Session {
  import opened Wrappers
  import opened Text
  import opened Pairing
  import opened Roster

  /** One applied transaction: the trimmed line and the changes that reached a player. */
  datatype Entry = Entry(input: string, changes: map<string, int>)

  datatype UndoError = NoHistory

  class Banker {
    var players: seq<Player>
    var lastChange: map<string, int>
    var history: seq<Entry>

    /** The session as the page opens it: the default roster, nothing applied yet. */
    constructor ()
      ensures players == DefaultPlayers && lastChange == map[] && history == []
    {
      players := DefaultPlayers;
      lastChange := map[];
      history := [];
    }

    /**
     * Starting the game from the setup rows: names are trimmed, shortcodes
     * trimmed and lower-cased; on a failed check the roster is not rebuilt.
     */
    method StartGame(rawNames: seq<string>, rawCodes: seq<string>, balances: seq<int>) returns (err: Option<SetupError>)
      requires |rawNames| == |rawCodes| == |balances|
      modifies this`players
      ensures var names, codes := NormalNames(rawNames), NormalCodes(rawCodes);
        && (err == None <==> CodesOkUpTo(codes, |codes|) && NamesOkUpTo(names, |names|))
        && (err.Some? ==> players == old(players))
        && (err.None? ==> players == Built(names, codes, balances) && UniqueCodes(players))
    {
      var names := NormalNames(rawNames);
      var codes := NormalCodes(rawCodes);
      err := ValidateSetup(names, codes);
      if err.Some? {
        return;
      }
      players := Built(names, codes, balances);
      BuiltUnique(names, codes, balances);
    }

    /** Moving the row at `from` to `to`, clamped to the roster. */
    method MoveRow(from: int, to: int)
      requires 0 <= from < |players|
      modifies this`players
      ensures from == to ==> players == old(players)
      ensures from != to ==> players == Moved(old(players), from, Clamp(to, |old(players)|))
    {
      if from == to {
        return;
      }
      var target := to;
      if target < 0 {
        target := 0;
      }
      if target >= |players| {
        target := |players| - 1;
      }
      var item := players[from];
      players := players[..from] + players[from + 1..];
      players := players[..target] + [item] + players[target..];
    }

    /**
     * Deleting one row with `splice(idx, 1)`: a negative index counts back
     * from the end and stops at the first row; an index past the end deletes
     * nothing.
     */
    method DeleteRow(idx: int)
      modifies this`players
      ensures 0 <= idx < |old(players)| ==> players == RemoveAt(old(players), idx)
      ensures -|old(players)| <= idx < 0 ==> players == RemoveAt(old(players), |old(players)| + idx)
      ensures idx < -|old(players)| && old(players) != [] ==> players == RemoveAt(old(players), 0)
      ensures idx >= |old(players)| || old(players) == [] ==> players == old(players)
    {
      var start := idx;
      if start < 0 {
        start := |players| + start;
        if start < 0 {
          start := 0;
        }
      }
      if start < |players| {
        players := players[..start] + players[start + 1..];
      }
    }

    /** Adding a player with an empty name, a generated shortcode and the starting balance. */
    method AddPlayer() returns (code: string)
      modifies this`players
      ensures players == old(players) + [Player("", code, NewPlayerBalance)]
      ensures (exists k | 0 <= k < |Letters| :: [Letters[k]] !in CodesOf(old(players))) ==>
        exists k | 0 <= k < |Letters| ::
          && code == [Letters[k]]
          && code !in CodesOf(old(players))
          && forall j | 0 <= j < k :: [Letters[j]] in CodesOf(old(players))
      ensures (forall k | 0 <= k < |Letters| :: [Letters[k]] in CodesOf(old(players))) ==>
        code == "p" + DecimalDigits(|old(players)| + 1)
    {
      code := NewPlayerCode(players);
      players := players + [Player("", code, NewPlayerBalance)];
    }

    /**
     * Applying a parsed change map whose shortcodes all belong to players:
     * `lastChange` is cleared, each delta is added to its player and recorded,
     * and the line and the recorded changes are pushed onto the history.
     */
    method Commit(input: string, m: map<string, int>)
      requires m.Keys <= CodesOf(players)
      modifies this`players, this`lastChange, this`history
      ensures players == Adjusted(old(players), m, false)
      ensures lastChange == m
      ensures history == old(history) + [Entry(input, m)]
    {
      RecordedAll(players, m);
      lastChange := map[];
      var found;
      players, found := ApplyDeltas(players, m, false);
      lastChange := found;
      history := history + [Entry(input, lastChange)];
    }

    /**
     * Applying a transaction line: on a parse error nothing changes; otherwise
     * the balances move, `lastChange` is replaced by the applied changes and
     * one history entry is appended.
     */
    method ApplyTransaction(line: string) returns (err: Option<ParseError>)
      modifies this`players, this`lastChange, this`history
      ensures match ParseResult(line, CodesOf(old(players)))
        case Err(e) =>
          err == Some(e) && players == old(players) && lastChange == old(lastChange) && history == old(history)
        case Ok(m) =>
          && err == None
          && m.Keys <= CodesOf(old(players))
          && players == Adjusted(old(players), m, false)
          && lastChange == m
          && history == old(history) + [Entry(Trim(line), m)]
    {
      var input := Trim(line);
      var r := ParseLine(line, CodesOf(players));
      if r.Err? {
        return Some(r.error);
      }
      Commit(input, r.value);
      return None;
    }

    /**
     * Undoing the last transaction: with no history nothing changes;
     * otherwise the last entry is popped, its deltas subtracted and
     * `lastChange` cleared.
     */
    method Undo() returns (err: Option<UndoError>)
      modifies this`players, this`lastChange, this`history
      ensures old(history) == [] ==>
        err == Some(NoHistory) && players == old(players) && lastChange == old(lastChange) && history == old(history)
      ensures old(history) != [] ==>
        && err == None
        && history == old(history)[..|old(history)| - 1]
        && players == Adjusted(old(players), old(history)[|old(history)| - 1].changes, true)
        && lastChange == map[]
    {
      if history == [] {
        return Some(NoHistory);
      }
      var last := history[|history| - 1];
      history := history[..|history| - 1];
      var reverted;
      players, reverted := ApplyDeltas(players, last.changes, true);
      lastChange := map[];
      return None;
    }
  }

  /** Applying a line and then undoing it leaves the roster and the history as they were. */
  method ApplyThenUndo(b: Banker, line: string)
    modifies b
    ensures b.players == old(b.players) && b.history == old(b.history)
  {
    ghost var p0, h0 := b.players, b.history;
    ghost var r := ParseResult(line, CodesOf(p0));
    var err := b.ApplyTransaction(line);
    if err.None? {
      assert r.Ok?;
      ghost var m := r.value;
      assert b.history == h0 + [Entry(Trim(line), m)];
      RecordedAll(p0, m);
      UndoRestores(p0, m);
      var u := b.Undo();
      assert b.history == h0 by {
        assert (h0 + [Entry(Trim(line), m)])[..|h0|] == h0;
      }
    }
  }
}

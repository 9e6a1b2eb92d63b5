/**
 * The roster of players and the operations on it: finding a player by
 * shortcode, applying or reverting a change map to the balances, checking a
 * setup, moving and deleting rows, and choosing the shortcode of a new player.
 */
module Roster {
  import opened Wrappers
  import opened Text

  datatype Player = Player(name: string, code: string, balance: int)

  /** The roster the game opens with. */
  const DefaultPlayers: seq<Player> := [
    Player("Giselle", "g", 1500),
    Player("Mia", "m", 1500),
    Player("Zian", "z", 1500),
    Player("Tyrone", "t", 1500),
    Player("Stany", "s", 1500)
  ]

  /** The balance a player added during setup starts with. */
  const NewPlayerBalance: int := 1500

  function CodesOf(ps: seq<Player>): set<string>
  {
    set p | p in ps :: p.code
  }

  predicate UniqueCodes(ps: seq<Player>)
  {
    forall i, j | 0 <= i < j < |ps| :: ps[i].code != ps[j].code
  }

  /** `players.find(x => x.code === code)`, as a position (`-1` when absent). */
  function IndexOfCode(ps: seq<Player>, code: string): (i: int)
    ensures -1 <= i < |ps|
    ensures i >= 0 ==> ps[i].code == code && forall j | 0 <= j < i :: ps[j].code != code
    ensures i < 0 ==> code !in CodesOf(ps)
  {
    if ps == [] then -1
    else if ps[0].code == code then 0
    else
      var i := IndexOfCode(ps[1..], code);
      assert forall p | p in ps[1..] :: p in ps;
      if i < 0 then -1 else i + 1
  }

  lemma {:induction false} IndexOfCodeSameCodes(a: seq<Player>, b: seq<Player>, code: string)
    requires |a| == |b|
    requires forall i | 0 <= i < |a| :: a[i].code == b[i].code
    ensures IndexOfCode(a, code) == IndexOfCode(b, code)
  {
    if a != [] {
      IndexOfCodeSameCodes(a[1..], b[1..], code);
    }
  }

  lemma UniqueIndexOfCode(ps: seq<Player>, i: nat)
    requires UniqueCodes(ps) && i < |ps|
    ensures IndexOfCode(ps, ps[i].code) == i
  {
  }

  // ------------------------------------------------------------ balances

  function Shift(balance: int, delta: int, subtract: bool): (r: int)
  {
    if subtract then balance - delta else balance + delta
  }

  /**
   * The roster after adding (or, for undo, subtracting) each delta of `m` to
   * the first player holding that shortcode; shortcodes no player holds are
   * skipped.
   */
  function Adjusted(ps: seq<Player>, m: map<string, int>, subtract: bool): (r: seq<Player>)
    ensures |r| == |ps|
    ensures forall i | 0 <= i < |ps| :: r[i].name == ps[i].name && r[i].code == ps[i].code
  {
    seq(|ps|, i requires 0 <= i < |ps| =>
      var p := ps[i];
      if p.code in m && IndexOfCode(ps, p.code) == i then p.(balance := Shift(p.balance, m[p.code], subtract)) else p)
  }

  /** The entries of `m` that matched a player: what the source copies into `lastChange` and the history. */
  function Recorded(ps: seq<Player>, m: map<string, int>): (found: map<string, int>)
    ensures found.Keys == m.Keys * CodesOf(ps)
    ensures forall k | k in found :: found[k] == m[k]
  {
    map k | k in m && IndexOfCode(ps, k) >= 0 :: m[k]
  }

  /** Adding one more key to the change map touches only the player holding it. */
  lemma AdjustedAddKey(ps: seq<Player>, d: map<string, int>, code: string, v: int, subtract: bool)
    requires code !in d
    ensures var i := IndexOfCode(ps, code); var before := Adjusted(ps, d, subtract);
      Adjusted(ps, d[code := v], subtract) ==
        if i >= 0 then before[i := before[i].(balance := Shift(before[i].balance, v, subtract))] else before
  {
  }

  /** Adding one more key to the change map records it exactly when a player holds it. */
  lemma RecordedAddKey(ps: seq<Player>, d: map<string, int>, code: string, v: int)
    requires code !in d
    ensures Recorded(ps, d[code := v]) ==
      if IndexOfCode(ps, code) >= 0 then Recorded(ps, d)[code := v] else Recorded(ps, d)
  {
  }

  /** The row at `i` with `delta` applied to its balance. */
  function ShiftAt(r: seq<Player>, i: int, delta: int, subtract: bool): (shifted: seq<Player>)
  {
    if 0 <= i < |r| then r[i := r[i].(balance := Shift(r[i].balance, delta, subtract))] else r
  }

  /** One step of `ApplyDeltas`: handling the entry for `code` as the source's loop body does. */
  lemma ApplyStep(ps: seq<Player>, m: map<string, int>, todo: set<string>, code: string, subtract: bool)
    requires todo <= m.Keys && code in todo
    ensures var before := Adjusted(ps, m - todo, subtract);
      var i := IndexOfCode(before, code);
      && Adjusted(ps, m - (todo - {code}), subtract) == ShiftAt(before, i, m[code], subtract)
      && Recorded(ps, m - (todo - {code})) ==
           (if i >= 0 then Recorded(ps, m - todo)[code := m[code]] else Recorded(ps, m - todo))
  {
    var d := m - todo;
    var before := Adjusted(ps, d, subtract);
    IndexOfCodeSameCodes(before, ps, code);
    assert m - (todo - {code}) == d[code := m[code]];
    AdjustedAddKey(ps, d, code, m[code], subtract);
    RecordedAddKey(ps, d, code, m[code]);
  }

  /**
   * Applying a change map to the balances, one entry at a time, as the
   * source's `forEach` over `Object.entries(changes)` does.
   */
  method ApplyDeltas(ps: seq<Player>, m: map<string, int>, subtract: bool) returns (r: seq<Player>, found: map<string, int>)
    ensures r == Adjusted(ps, m, subtract)
    ensures found == Recorded(ps, m)
  {
    r, found := ps, map[];
    var todo := m.Keys;
    assert m - todo == map[];
    while todo != {}
      invariant todo <= m.Keys
      invariant r == Adjusted(ps, m - todo, subtract)
      invariant found == Recorded(ps, m - todo)
      decreases |todo|
    {
      var code :| code in todo;
      ApplyStep(ps, m, todo, code, subtract);
      var i := IndexOfCode(r, code);
      if i >= 0 {
        r := ShiftAt(r, i, m[code], subtract);
        found := found[code := m[code]];
      }
      todo := todo - {code};
    }
    assert m - {} == m;
  }

  /** Undo is the inverse of apply: subtracting what apply recorded restores every balance. */
  lemma UndoRestores(ps: seq<Player>, m: map<string, int>)
    ensures Adjusted(Adjusted(ps, m, false), Recorded(ps, m), true) == ps
  {
    var a := Adjusted(ps, m, false);
    var rec := Recorded(ps, m);
    forall i | 0 <= i < |ps|
      ensures Adjusted(a, rec, true)[i] == ps[i]
    {
      IndexOfCodeSameCodes(a, ps, ps[i].code);
    }
  }

  /**
   * On a roster with distinct shortcodes, exactly the players whose code is a
   * key of the change map move, each by that key's delta.
   */
  lemma AdjustedEffect(ps: seq<Player>, m: map<string, int>, subtract: bool)
    requires UniqueCodes(ps)
    ensures forall i | 0 <= i < |ps| ::
      Adjusted(ps, m, subtract)[i].balance ==
        if ps[i].code in m then Shift(ps[i].balance, m[ps[i].code], subtract) else ps[i].balance
  {
    forall i | 0 <= i < |ps|
      ensures IndexOfCode(ps, ps[i].code) == i
    {
      UniqueIndexOfCode(ps, i);
    }
  }

  /** When every key names a player, apply records the whole change map. */
  lemma RecordedAll(ps: seq<Player>, m: map<string, int>)
    requires m.Keys <= CodesOf(ps)
    ensures Recorded(ps, m) == m
  {
  }

  // ------------------------------------------------------------ setup

  datatype SetupError = CodeNotSingle | CodeDuplicate | NameMissing | NameDuplicate

  /** The setup form's names, as read: trimmed. */
  function NormalNames(raw: seq<string>): (names: seq<string>)
    ensures |names| == |raw|
  {
    seq(|raw|, i requires 0 <= i < |raw| => Trim(raw[i]))
  }

  /** The setup form's shortcodes, as read: trimmed and lower-cased. */
  function NormalCodes(raw: seq<string>): (codes: seq<string>)
    ensures |codes| == |raw|
  {
    seq(|raw|, i requires 0 <= i < |raw| => Lower(Trim(raw[i])))
  }

  /** The first `n` shortcodes are single characters, none repeating an earlier one. */
  predicate CodesOkUpTo(codes: seq<string>, n: nat)
    requires n <= |codes|
  {
    && (forall i | 0 <= i < n :: |codes[i]| == 1)
    && (forall i, j | 0 <= j < i < n :: codes[j] != codes[i])
  }

  /** The first `n` names are non-empty, none equal to an earlier one ignoring case. */
  predicate NamesOkUpTo(names: seq<string>, n: nat)
    requires n <= |names|
  {
    && (forall i | 0 <= i < n :: names[i] != [])
    && (forall i, j | 0 <= j < i < n :: Lower(names[j]) != Lower(names[i]))
  }

  predicate Repeats(s: seq<string>, i: nat)
    requires i < |s|
  {
    exists j | 0 <= j < i :: s[j] == s[i]
  }

  /**
   * The setup check: every shortcode first (single character, then unique),
   * then every name (present, then unique ignoring case); the first failure
   * found is reported.
   */
  method ValidateSetup(names: seq<string>, codes: seq<string>) returns (r: Option<SetupError>)
    ensures r == None <==> CodesOkUpTo(codes, |codes|) && NamesOkUpTo(names, |names|)
    ensures r == Some(CodeNotSingle) <==>
      exists i | 0 <= i < |codes| :: CodesOkUpTo(codes, i) && |codes[i]| != 1
    ensures r == Some(CodeDuplicate) <==>
      exists i | 0 <= i < |codes| :: CodesOkUpTo(codes, i) && |codes[i]| == 1 && Repeats(codes, i)
    ensures r == Some(NameMissing) <==>
      CodesOkUpTo(codes, |codes|) && exists i | 0 <= i < |names| :: NamesOkUpTo(names, i) && names[i] == []
    ensures r == Some(NameDuplicate) <==>
      CodesOkUpTo(codes, |codes|) &&
      exists i | 0 <= i < |names| :: NamesOkUpTo(names, i) && names[i] != [] && Repeats(LowerAll(names), i)
  {
    var codeSet: set<string> := {};
    for i := 0 to |codes|
      invariant codeSet == set k | 0 <= k < i :: codes[k]
      invariant CodesOkUpTo(codes, i)
    {
      if codes[i] == [] || |codes[i]| != 1 {
        CodeFaultIsFirst(codes, i);
        return Some(CodeNotSingle);
      }
      if codes[i] in codeSet {
        CodeFaultIsFirst(codes, i);
        return Some(CodeDuplicate);
      }
      codeSet := codeSet + {codes[i]};
    }
    var nameSet: set<string> := {};
    for i := 0 to |names|
      invariant nameSet == set k | 0 <= k < i :: Lower(names[k])
      invariant NamesOkUpTo(names, i)
    {
      if names[i] == [] {
        NameFaultIsFirst(names, i);
        return Some(NameMissing);
      }
      var n := Lower(names[i]);
      if n in nameSet {
        NameFaultIsFirst(names, i);
        return Some(NameDuplicate);
      }
      nameSet := nameSet + {n};
    }
    return None;
  }

  function LowerAll(names: seq<string>): (r: seq<string>)
    ensures |r| == |names|
    ensures forall i | 0 <= i < |names| :: r[i] == Lower(names[i])
  {
    seq(|names|, i requires 0 <= i < |names| => Lower(names[i]))
  }

  /** A shortcode fault at `i` after `i` good ones is the only position that is both. */
  lemma CodeFaultIsFirst(codes: seq<string>, i: nat)
    requires i < |codes| && CodesOkUpTo(codes, i)
    requires |codes[i]| != 1 || Repeats(codes, i)
    ensures forall k | 0 <= k < |codes| && CodesOkUpTo(codes, k) && (|codes[k]| != 1 || Repeats(codes, k)) :: k == i
    ensures !CodesOkUpTo(codes, |codes|)
  {
  }

  lemma NameFaultIsFirst(names: seq<string>, i: nat)
    requires i < |names| && NamesOkUpTo(names, i)
    requires names[i] == [] || Repeats(LowerAll(names), i)
    ensures forall k | 0 <= k < |names| && NamesOkUpTo(names, k) && (names[k] == [] || Repeats(LowerAll(names), k)) :: k == i
    ensures !NamesOkUpTo(names, |names|)
  {
  }

  /** The roster built from the setup rows once they pass the check. */
  function Built(names: seq<string>, codes: seq<string>, balances: seq<int>): (ps: seq<Player>)
    requires |names| == |codes| == |balances|
    ensures |ps| == |names|
  {
    seq(|names|, i requires 0 <= i < |names| => Player(names[i], codes[i], balances[i]))
  }

  /** A roster that passed the setup check has distinct single-character shortcodes. */
  lemma BuiltUnique(names: seq<string>, codes: seq<string>, balances: seq<int>)
    requires |names| == |codes| == |balances|
    requires CodesOkUpTo(codes, |codes|)
    ensures UniqueCodes(Built(names, codes, balances))
    ensures forall p | p in Built(names, codes, balances) :: |p.code| == 1
  {
  }

  // ------------------------------------------------------------ row edits

  function RemoveAt(ps: seq<Player>, i: nat): (r: seq<Player>)
    requires i < |ps|
    ensures |r| == |ps| - 1
  {
    ps[..i] + ps[i + 1..]
  }

  /**
   * Removing a row drops exactly that player: the rows before it stay put,
   * the rows after it move up by one, and no other player is lost.
   */
  lemma RemoveAtDrops(ps: seq<Player>, i: nat)
    requires i < |ps|
    ensures forall k | 0 <= k < |ps| - 1 :: RemoveAt(ps, i)[k] == if k < i then ps[k] else ps[k + 1]
    ensures multiset(RemoveAt(ps, i)) + multiset{ps[i]} == multiset(ps)
  {
    var r := RemoveAt(ps, i);
    forall k | 0 <= k < |ps| - 1
      ensures r[k] == if k < i then ps[k] else ps[k + 1]
    {
      if k >= i {
        assert r[k] == ps[i + 1..][k - i];
      }
    }
    assert ps == ps[..i] + [ps[i]] + ps[i + 1..];
  }

  /** `to` limited to the rows that exist: below 0 becomes 0, past the end becomes the last row. */
  function Clamp(to: int, len: nat): (row: int)
  {
    if to >= len then len - 1 else if to < 0 then 0 else to
  }

  /** The roster with the row at `from` taken out and reinserted at `to`. */
  function Moved(ps: seq<Player>, from: nat, to: nat): (r: seq<Player>)
    requires from < |ps| && to < |ps|
    ensures |r| == |ps| && r[to] == ps[from]
    ensures forall k | 0 <= k < |r| && k != to :: r[k] in ps
  {
    var rest := RemoveAt(ps, from);
    rest[..to] + [ps[from]] + rest[to..]
  }

  /**
   * Moving a row yields a permutation of the same length with the moved
   * player at the target row and everyone else in their old relative order;
   * moving a row onto itself changes nothing.
   */
  lemma MovedIsPermutation(ps: seq<Player>, from: nat, to: nat)
    requires from < |ps| && to < |ps|
    ensures |Moved(ps, from, to)| == |ps|
    ensures multiset(Moved(ps, from, to)) == multiset(ps)
    ensures Moved(ps, from, to)[to] == ps[from]
    ensures RemoveAt(Moved(ps, from, to), to) == RemoveAt(ps, from)
    ensures from == to ==> Moved(ps, from, to) == ps
  {
    var rest := RemoveAt(ps, from);
    var r := Moved(ps, from, to);
    assert ps == ps[..from] + [ps[from]] + ps[from + 1..];
    assert rest == rest[..to] + rest[to..];
    calc {
      multiset(r);
      multiset(rest[..to]) + multiset([ps[from]]) + multiset(rest[to..]);
      multiset(rest) + multiset([ps[from]]);
      multiset(ps[..from]) + multiset(ps[from + 1..]) + multiset([ps[from]]);
      multiset(ps);
    }
    assert RemoveAt(r, to) == rest by {
      assert r[..to] == rest[..to];
      assert r[to + 1..] == rest[to..];
    }
    if from == to {
      assert rest[..to] == ps[..from];
      assert rest[to..] == ps[from + 1..];
    }
  }

  // ------------------------------------------------------------ new players

  const Letters: string := "abcdefghijklmnopqrstuvwxyz"

  /**
   * The shortcode for a player added during setup: the first letter of the
   * alphabet no player holds, else `p` followed by the new roster size.
   */
  method NewPlayerCode(ps: seq<Player>) returns (code: string)
    ensures (exists k | 0 <= k < |Letters| :: [Letters[k]] !in CodesOf(ps)) ==>
      exists k | 0 <= k < |Letters| ::
        && code == [Letters[k]]
        && code !in CodesOf(ps)
        && forall j | 0 <= j < k :: [Letters[j]] in CodesOf(ps)
    ensures (forall k | 0 <= k < |Letters| :: [Letters[k]] in CodesOf(ps)) ==>
      code == "p" + DecimalDigits(|ps| + 1)
  {
    var used := CodesOf(ps);
    var k := 0;
    while k < |Letters| && [Letters[k]] in used
      invariant 0 <= k <= |Letters|
      invariant forall j | 0 <= j < k :: [Letters[j]] in used
    {
      k := k + 1;
    }
    if k < |Letters| {
      code := [Letters[k]];
    } else {
      code := "p" + DecimalDigits(|ps| + 1);
    }
  }
}

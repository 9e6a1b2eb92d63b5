/**
 * The DOM-free copy of the parser in the test script: parse a line against a
 * roster and apply it to the balances in one call, and the outcomes its test
 * table expects on the default roster.
 */
module ParseTests {
  import opened Wrappers
  import opened Text
  import opened Tokens
  import opened Pairing
  import opened Roster

  /** What the test script's parser returns: an error flag, the change map, and the roster afterwards. */
  function Outcome(input: string, ps: seq<Player>): (r: (bool, map<string, int>, seq<Player>))
    ensures r.0 <==> r.1 == map[]
    ensures r.0 ==> r.2 == ps
    ensures !r.0 ==> r.1.Keys <= CodesOf(ps) && |r.2| == |ps|
  {
    var m := AdjChanges(Tokenize(input), CodesOf(ps));
    AdjChangesKeysValid(Tokenize(input), CodesOf(ps));
    if m == map[] then (true, map[], ps) else (false, m, Adjusted(ps, m, false))
  }

  /**
   * Parse and apply in one call: the line is trimmed, split and stripped of
   * empty pieces; an empty change map is an error that leaves the balances
   * alone.
   */
  method ParseAndApply(input: string, players: seq<Player>) returns (error: bool, changes: map<string, int>, after: seq<Player>)
    ensures (error, changes, after) == Outcome(input, players)
    ensures error ==> changes == map[] && after == players
    ensures !error ==> changes != map[] && changes.Keys <= CodesOf(players)
  {
    var valid := CodesOf(players);
    var toks := Tokenize(Trim(input));
    TokenizeTrim(input);
    var used, ch := AdjacencyPass(toks, valid);
    var nums, codes := CollectRemaining(toks, valid, used);
    NoCodesRemain(toks, valid);
    ch := NearestPass(nums, codes, ch);
    AdjChangesKeysValid(toks, valid);
    if ch == map[] {
      return true, map[], players;
    }
    var found;
    after, found := ApplyDeltas(players, ch, false);
    return false, ch, after;
  }

  function BalanceOf(ps: seq<Player>, code: string): (balance: int)
  {
    var i := IndexOfCode(ps, code);
    if i >= 0 then ps[i].balance else 0
  }

  lemma DefaultCodes()
    ensures CodesOf(DefaultPlayers) == {"g", "m", "z", "t", "s"}
  {
    var ps := DefaultPlayers;
    assert ps[0].code == "g" && ps[1].code == "m" && ps[2].code == "z" && ps[3].code == "t" && ps[4].code == "s";
  }

  lemma DefaultUnique()
    ensures UniqueCodes(DefaultPlayers)
  {
  }

  /** Balances after a successful line on the default roster: 1500 plus the line's change, if any. */
  lemma DefaultBalances(m: map<string, int>, code: string)
    requires code in CodesOf(DefaultPlayers)
    ensures BalanceOf(Adjusted(DefaultPlayers, m, false), code) == 1500 + (if code in m then m[code] else 0)
  {
    DefaultUnique();
    AdjustedEffect(DefaultPlayers, m, false);
    var i := IndexOfCode(DefaultPlayers, code);
    IndexOfCodeSameCodes(Adjusted(DefaultPlayers, m, false), DefaultPlayers, code);
  }

  /** How each word of the test table is classified. */
  lemma TableWords()
    ensures Classify("g") == Code('g')
    ensures Classify("m") == Code('m')
    ensures Classify("s") == Code('s')
    ensures Classify("z") == Code('z')
    ensures Classify("-20") == Num(-20)
    ensures Classify("50") == Num(50)
    ensures Classify("100") == Num(100)
    ensures Classify("-200") == Num(-200)
    ensures Classify("200") == Num(200)
  {
    assert Numeral(-20) == "-20";
    ClassifyNumeral(-20);
    assert Numeral(50) == "50";
    ClassifyNumeral(50);
    assert Numeral(100) == "100";
    ClassifyNumeral(100);
    assert Numeral(-200) == "-200";
    ClassifyNumeral(-200);
    assert Numeral(200) == "200";
    ClassifyNumeral(200);
  }

  /** The tokens of a line whose words are known, one classification per word. */
  lemma TokensOfWords(line: string, ws: seq<string>, toks: seq<Token>)
    requires Words(line) == ws
    requires |toks| == |ws| && forall k | 0 <= k < |ws| :: Classify(ws[k]) == toks[k]
    ensures Tokenize(line) == toks
  {
  }

  // Each line of the test table is proved in steps: the classification of
  // its words, its tokens (its words joined by single spaces split back into
  // those words), the change map the adjacency pass builds from them, and
  // the outcome on the default roster.

  lemma VectorCodeThenNumberClasses()
    ensures forall k | 0 <= k < 2 :: Classify(["g", "100"][k]) == [Code('g'), Num(100)][k]
  {
    TableWords();
  }

  lemma VectorCodeThenNumberChanges()
    ensures AdjChanges([Code('g'), Num(100)], {"g", "m", "z", "t", "s"}) == map["g" := 100]
  {
    var toks := [Code('g'), Num(100)];
    var valid: set<string> := {"g", "m", "z", "t", "s"};
    assert ClaimOf(toks, valid, 0) == Some(1);
    assert ClaimOf(toks, valid, 1) == None;
    assert Claims(toks, valid, 1) == [("g", 100)];
    assert Claims(toks, valid, 2) == [("g", 100)];
    AggregateSnoc([], ("g", 100));
    assert [] + [("g", 100)] == [("g", 100)];
  }

  lemma VectorCodeThenNumberTokens()
    ensures Tokenize("g 100") == [Code('g'), Num(100)]
  {
    var ws := ["g", "100"];
    assert Join(ws) == "g 100";
    WordsOfJoin(ws);
    VectorCodeThenNumberClasses();
    TokensOfWords("g 100", ["g", "100"], [Code('g'), Num(100)]);
  }

  /** 'g 100': the number after the shortcode is taken. */
  lemma VectorCodeThenNumber()
    ensures Outcome("g 100", DefaultPlayers).0 == false
    ensures Outcome("g 100", DefaultPlayers).1 == map["g" := 100]
    ensures BalanceOf(Outcome("g 100", DefaultPlayers).2, "g") == 1600
  {
    VectorCodeThenNumberTokens();
    VectorCodeThenNumberChanges();
    DefaultCodes();
    var m: map<string, int> := map["g" := 100];
    DefaultBalances(m, "g");
  }

  lemma VectorNumberThenCodeClasses()
    ensures forall k | 0 <= k < 2 :: Classify(["100", "g"][k]) == [Num(100), Code('g')][k]
  {
    TableWords();
  }

  lemma VectorNumberThenCodeChanges()
    ensures AdjChanges([Num(100), Code('g')], {"g", "m", "z", "t", "s"}) == map["g" := 100]
  {
    var toks := [Num(100), Code('g')];
    var valid: set<string> := {"g", "m", "z", "t", "s"};
    assert ClaimOf(toks, valid, 0) == None;
    assert ClaimOf(toks, valid, 1) == Some(0);
    assert Claims(toks, valid, 1) == [];
    assert Claims(toks, valid, 2) == [("g", 100)];
    AggregateSnoc([], ("g", 100));
    assert [] + [("g", 100)] == [("g", 100)];
  }

  lemma VectorNumberThenCodeTokens()
    ensures Tokenize("100 g") == [Num(100), Code('g')]
  {
    var ws := ["100", "g"];
    assert Join(ws) == "100 g";
    WordsOfJoin(ws);
    VectorNumberThenCodeClasses();
    TokensOfWords("100 g", ["100", "g"], [Num(100), Code('g')]);
  }

  /** '100 g': the number before the shortcode is taken. */
  lemma VectorNumberThenCode()
    ensures Outcome("100 g", DefaultPlayers).0 == false
    ensures Outcome("100 g", DefaultPlayers).1 == map["g" := 100]
    ensures BalanceOf(Outcome("100 g", DefaultPlayers).2, "g") == 1600
  {
    VectorNumberThenCodeTokens();
    VectorNumberThenCodeChanges();
    DefaultCodes();
    var m: map<string, int> := map["g" := 100];
    DefaultBalances(m, "g");
  }

  lemma VectorTwoPlayersClasses()
    ensures forall k | 0 <= k < 4 :: Classify(["z", "100", "g", "-200"][k]) == [Code('z'), Num(100), Code('g'), Num(-200)][k]
  {
    TableWords();
  }

  lemma VectorTwoPlayersChanges()
    ensures AdjChanges([Code('z'), Num(100), Code('g'), Num(-200)], {"g", "m", "z", "t", "s"}) == map["z" := 100, "g" := -200]
  {
    var toks := [Code('z'), Num(100), Code('g'), Num(-200)];
    var valid: set<string> := {"g", "m", "z", "t", "s"};
    assert ClaimOf(toks, valid, 0) == Some(1);
    assert ClaimOf(toks, valid, 1) == None;
    assert ClaimOf(toks, valid, 2) == Some(3);
    assert ClaimOf(toks, valid, 3) == None;
    assert Claims(toks, valid, 1) == [("z", 100)];
    assert Claims(toks, valid, 2) == [("z", 100)];
    assert Claims(toks, valid, 3) == [("z", 100), ("g", -200)];
    assert Claims(toks, valid, 4) == [("z", 100), ("g", -200)];
    AggregateSnoc([], ("z", 100));
    assert [] + [("z", 100)] == [("z", 100)];
    AggregateSnoc([("z", 100)], ("g", -200));
    assert [("z", 100)] + [("g", -200)] == [("z", 100), ("g", -200)];
  }

  lemma VectorTwoPlayersTokens()
    ensures Tokenize("z 100 g -200") == [Code('z'), Num(100), Code('g'), Num(-200)]
  {
    var ws := ["z", "100", "g", "-200"];
    assert Join(ws[2..]) == "g -200";
    assert Join(ws[1..]) == "100 g -200";
    assert Join(ws) == "z 100 g -200";
    WordsOfJoin(ws);
    VectorTwoPlayersClasses();
    TokensOfWords("z 100 g -200", ["z", "100", "g", "-200"], [Code('z'), Num(100), Code('g'), Num(-200)]);
  }

  /** 'z 100 g -200': z takes the 100 after it; g finds the 100 used and takes the -200 after it. */
  lemma VectorTwoPlayers()
    ensures Outcome("z 100 g -200", DefaultPlayers).0 == false
    ensures Outcome("z 100 g -200", DefaultPlayers).1 == map["z" := 100, "g" := -200]
    ensures BalanceOf(Outcome("z 100 g -200", DefaultPlayers).2, "z") == 1600
    ensures BalanceOf(Outcome("z 100 g -200", DefaultPlayers).2, "g") == 1300
  {
    VectorTwoPlayersTokens();
    VectorTwoPlayersChanges();
    DefaultCodes();
    var m: map<string, int> := map["z" := 100, "g" := -200];
    DefaultBalances(m, "z");
    DefaultBalances(m, "g");
  }

  lemma VectorTwoNumbersBeforeCodeClasses()
    ensures forall k | 0 <= k < 3 :: Classify(["100", "200", "g"][k]) == [Num(100), Num(200), Code('g')][k]
  {
    TableWords();
  }

  lemma VectorTwoNumbersBeforeCodeChanges()
    ensures AdjChanges([Num(100), Num(200), Code('g')], {"g", "m", "z", "t", "s"}) == map["g" := 200]
    ensures !UsedMask([Num(100), Num(200), Code('g')], {"g", "m", "z", "t", "s"})[0]
  {
    var toks := [Num(100), Num(200), Code('g')];
    var valid: set<string> := {"g", "m", "z", "t", "s"};
    assert ClaimOf(toks, valid, 0) == None;
    assert ClaimOf(toks, valid, 1) == None;
    assert ClaimOf(toks, valid, 2) == Some(1);
    assert Claims(toks, valid, 1) == [];
    assert Claims(toks, valid, 2) == [];
    assert Claims(toks, valid, 3) == [("g", 200)];
    AggregateSnoc([], ("g", 200));
    assert [] + [("g", 200)] == [("g", 200)];
  }

  lemma VectorTwoNumbersBeforeCodeTokens()
    ensures Tokenize("100 200 g") == [Num(100), Num(200), Code('g')]
  {
    var ws := ["100", "200", "g"];
    assert Join(ws[1..]) == "200 g";
    assert Join(ws) == "100 200 g";
    WordsOfJoin(ws);
    VectorTwoNumbersBeforeCodeClasses();
    TokensOfWords("100 200 g", ["100", "200", "g"], [Num(100), Num(200), Code('g')]);
  }

  /** '100 200 g': g takes the 200 just before it; the 100 is used by nobody and is dropped without an error. */
  lemma VectorTwoNumbersBeforeCode()
    ensures Outcome("100 200 g", DefaultPlayers).0 == false
    ensures Outcome("100 200 g", DefaultPlayers).1 == map["g" := 200]
    ensures BalanceOf(Outcome("100 200 g", DefaultPlayers).2, "g") == 1700
    ensures !UsedMask(Tokenize("100 200 g"), CodesOf(DefaultPlayers))[0]
  {
    VectorTwoNumbersBeforeCodeTokens();
    VectorTwoNumbersBeforeCodeChanges();
    DefaultCodes();
    var m: map<string, int> := map["g" := 200];
    DefaultBalances(m, "g");
  }

  lemma VectorLoneCodeClasses()
    ensures forall k | 0 <= k < 1 :: Classify(["m"][k]) == [Code('m')][k]
  {
    TableWords();
  }

  lemma VectorLoneCodeChanges()
    ensures AdjChanges([Code('m')], {"g", "m", "z", "t", "s"}) == map[]
  {
    var toks := [Code('m')];
    var valid: set<string> := {"g", "m", "z", "t", "s"};
    assert ClaimOf(toks, valid, 0) == None;
    assert Claims(toks, valid, 1) == [];
  }

  lemma VectorLoneCodeTokens()
    ensures Tokenize("m") == [Code('m')]
  {
    var ws := ["m"];
    assert Join(ws) == "m";
    WordsOfJoin(ws);
    VectorLoneCodeClasses();
    TokensOfWords("m", ["m"], [Code('m')]);
  }

  /** 'm': a shortcode with no number is an error and no balance moves. */
  lemma VectorLoneCode()
    ensures Outcome("m", DefaultPlayers) == (true, map[], DefaultPlayers)
  {
    VectorLoneCodeTokens();
    VectorLoneCodeChanges();
    DefaultCodes();
  }

  lemma VectorNumbersOnlyClasses()
    ensures forall k | 0 <= k < 2 :: Classify(["100", "200"][k]) == [Num(100), Num(200)][k]
  {
    TableWords();
  }

  lemma VectorNumbersOnlyChanges()
    ensures AdjChanges([Num(100), Num(200)], {"g", "m", "z", "t", "s"}) == map[]
  {
    var toks := [Num(100), Num(200)];
    var valid: set<string> := {"g", "m", "z", "t", "s"};
    assert ClaimOf(toks, valid, 0) == None;
    assert ClaimOf(toks, valid, 1) == None;
    assert Claims(toks, valid, 1) == [];
    assert Claims(toks, valid, 2) == [];
  }

  lemma VectorNumbersOnlyTokens()
    ensures Tokenize("100 200") == [Num(100), Num(200)]
  {
    var ws := ["100", "200"];
    assert Join(ws) == "100 200";
    WordsOfJoin(ws);
    VectorNumbersOnlyClasses();
    TokensOfWords("100 200", ["100", "200"], [Num(100), Num(200)]);
  }

  /** '100 200': numbers with no shortcode are an error and no balance moves. */
  lemma VectorNumbersOnly()
    ensures Outcome("100 200", DefaultPlayers) == (true, map[], DefaultPlayers)
  {
    VectorNumbersOnlyTokens();
    VectorNumbersOnlyChanges();
    DefaultCodes();
  }

  lemma VectorThreePlayersClasses()
    ensures forall k | 0 <= k < 6 :: Classify(["g", "100", "m", "50", "s", "-20"][k]) == [Code('g'), Num(100), Code('m'), Num(50), Code('s'), Num(-20)][k]
  {
    TableWords();
  }

  lemma VectorThreePlayersChanges()
    ensures AdjChanges([Code('g'), Num(100), Code('m'), Num(50), Code('s'), Num(-20)], {"g", "m", "z", "t", "s"}) == map["g" := 100, "m" := 50, "s" := -20]
  {
    var toks := [Code('g'), Num(100), Code('m'), Num(50), Code('s'), Num(-20)];
    var valid: set<string> := {"g", "m", "z", "t", "s"};
    assert ClaimOf(toks, valid, 0) == Some(1);
    assert ClaimOf(toks, valid, 1) == None;
    assert ClaimOf(toks, valid, 2) == Some(3);
    assert ClaimOf(toks, valid, 3) == None;
    assert ClaimOf(toks, valid, 4) == Some(5);
    assert ClaimOf(toks, valid, 5) == None;
    assert Claims(toks, valid, 1) == [("g", 100)];
    assert Claims(toks, valid, 2) == [("g", 100)];
    assert Claims(toks, valid, 3) == [("g", 100), ("m", 50)];
    assert Claims(toks, valid, 4) == [("g", 100), ("m", 50)];
    assert Claims(toks, valid, 5) == [("g", 100), ("m", 50), ("s", -20)];
    assert Claims(toks, valid, 6) == [("g", 100), ("m", 50), ("s", -20)];
    AggregateSnoc([], ("g", 100));
    assert [] + [("g", 100)] == [("g", 100)];
    AggregateSnoc([("g", 100)], ("m", 50));
    assert [("g", 100)] + [("m", 50)] == [("g", 100), ("m", 50)];
    AggregateSnoc([("g", 100), ("m", 50)], ("s", -20));
    assert [("g", 100), ("m", 50)] + [("s", -20)] == [("g", 100), ("m", 50), ("s", -20)];
  }

  lemma VectorThreePlayersTokens()
    ensures Tokenize("g 100 m 50 s -20") == [Code('g'), Num(100), Code('m'), Num(50), Code('s'), Num(-20)]
  {
    var ws := ["g", "100", "m", "50", "s", "-20"];
    assert Join(ws[4..]) == "s -20";
    assert Join(ws[3..]) == "50 s -20";
    assert Join(ws[2..]) == "m 50 s -20";
    assert Join(ws[1..]) == "100 m 50 s -20";
    assert Join(ws) == "g 100 m 50 s -20";
    WordsOfJoin(ws);
    VectorThreePlayersClasses();
    TokensOfWords("g 100 m 50 s -20", ["g", "100", "m", "50", "s", "-20"], [Code('g'), Num(100), Code('m'), Num(50), Code('s'), Num(-20)]);
  }

  /** 'g 100 m 50 s -20': each shortcode takes the number after it. */
  lemma VectorThreePlayers()
    ensures Outcome("g 100 m 50 s -20", DefaultPlayers).0 == false
    ensures Outcome("g 100 m 50 s -20", DefaultPlayers).1 == map["g" := 100, "m" := 50, "s" := -20]
    ensures BalanceOf(Outcome("g 100 m 50 s -20", DefaultPlayers).2, "g") == 1600
    ensures BalanceOf(Outcome("g 100 m 50 s -20", DefaultPlayers).2, "m") == 1550
    ensures BalanceOf(Outcome("g 100 m 50 s -20", DefaultPlayers).2, "s") == 1480
  {
    VectorThreePlayersTokens();
    VectorThreePlayersChanges();
    DefaultCodes();
    var m: map<string, int> := map["g" := 100, "m" := 50, "s" := -20];
    DefaultBalances(m, "g");
    DefaultBalances(m, "m");
    DefaultBalances(m, "s");
  }

  lemma VectorNumbersBetweenCodesClasses()
    ensures forall k | 0 <= k < 4 :: Classify(["g", "100", "200", "m"][k]) == [Code('g'), Num(100), Num(200), Code('m')][k]
  {
    TableWords();
  }

  lemma VectorNumbersBetweenCodesChanges()
    ensures AdjChanges([Code('g'), Num(100), Num(200), Code('m')], {"g", "m", "z", "t", "s"}) == map["g" := 100, "m" := 200]
  {
    var toks := [Code('g'), Num(100), Num(200), Code('m')];
    var valid: set<string> := {"g", "m", "z", "t", "s"};
    assert ClaimOf(toks, valid, 0) == Some(1);
    assert ClaimOf(toks, valid, 1) == None;
    assert ClaimOf(toks, valid, 2) == None;
    assert ClaimOf(toks, valid, 3) == Some(2);
    assert Claims(toks, valid, 1) == [("g", 100)];
    assert Claims(toks, valid, 2) == [("g", 100)];
    assert Claims(toks, valid, 3) == [("g", 100)];
    assert Claims(toks, valid, 4) == [("g", 100), ("m", 200)];
    AggregateSnoc([], ("g", 100));
    assert [] + [("g", 100)] == [("g", 100)];
    AggregateSnoc([("g", 100)], ("m", 200));
    assert [("g", 100)] + [("m", 200)] == [("g", 100), ("m", 200)];
  }

  lemma VectorNumbersBetweenCodesTokens()
    ensures Tokenize("g 100 200 m") == [Code('g'), Num(100), Num(200), Code('m')]
  {
    var ws := ["g", "100", "200", "m"];
    assert Join(ws[2..]) == "200 m";
    assert Join(ws[1..]) == "100 200 m";
    assert Join(ws) == "g 100 200 m";
    WordsOfJoin(ws);
    VectorNumbersBetweenCodesClasses();
    TokensOfWords("g 100 200 m", ["g", "100", "200", "m"], [Code('g'), Num(100), Num(200), Code('m')]);
  }

  /** 'g 100 200 m': g takes the number after it, m the number before it. */
  lemma VectorNumbersBetweenCodes()
    ensures Outcome("g 100 200 m", DefaultPlayers).0 == false
    ensures Outcome("g 100 200 m", DefaultPlayers).1 == map["g" := 100, "m" := 200]
    ensures BalanceOf(Outcome("g 100 200 m", DefaultPlayers).2, "g") == 1600
    ensures BalanceOf(Outcome("g 100 200 m", DefaultPlayers).2, "m") == 1700
  {
    VectorNumbersBetweenCodesTokens();
    VectorNumbersBetweenCodesChanges();
    DefaultCodes();
    var m: map<string, int> := map["g" := 100, "m" := 200];
    DefaultBalances(m, "g");
    DefaultBalances(m, "m");
  }

  lemma VectorRepeatedCodeClasses()
    ensures forall k | 0 <= k < 4 :: Classify(["g", "50", "g", "50"][k]) == [Code('g'), Num(50), Code('g'), Num(50)][k]
  {
    TableWords();
  }

  lemma VectorRepeatedCodeChanges()
    ensures AdjChanges([Code('g'), Num(50), Code('g'), Num(50)], {"g", "m", "z", "t", "s"}) == map["g" := 100]
  {
    var toks := [Code('g'), Num(50), Code('g'), Num(50)];
    var valid: set<string> := {"g", "m", "z", "t", "s"};
    assert ClaimOf(toks, valid, 0) == Some(1);
    assert ClaimOf(toks, valid, 1) == None;
    assert ClaimOf(toks, valid, 2) == Some(3);
    assert ClaimOf(toks, valid, 3) == None;
    assert Claims(toks, valid, 1) == [("g", 50)];
    assert Claims(toks, valid, 2) == [("g", 50)];
    assert Claims(toks, valid, 3) == [("g", 50), ("g", 50)];
    assert Claims(toks, valid, 4) == [("g", 50), ("g", 50)];
    AggregateSnoc([], ("g", 50));
    assert [] + [("g", 50)] == [("g", 50)];
    AggregateSnoc([("g", 50)], ("g", 50));
    assert [("g", 50)] + [("g", 50)] == [("g", 50), ("g", 50)];
  }

  lemma VectorRepeatedCodeTokens()
    ensures Tokenize("g 50 g 50") == [Code('g'), Num(50), Code('g'), Num(50)]
  {
    var ws := ["g", "50", "g", "50"];
    assert Join(ws[2..]) == "g 50";
    assert Join(ws[1..]) == "50 g 50";
    assert Join(ws) == "g 50 g 50";
    WordsOfJoin(ws);
    VectorRepeatedCodeClasses();
    TokensOfWords("g 50 g 50", ["g", "50", "g", "50"], [Code('g'), Num(50), Code('g'), Num(50)]);
  }

  /** 'g 50 g 50': a repeated shortcode sums into one entry. */
  lemma VectorRepeatedCode()
    ensures Outcome("g 50 g 50", DefaultPlayers).0 == false
    ensures Outcome("g 50 g 50", DefaultPlayers).1 == map["g" := 100]
    ensures BalanceOf(Outcome("g 50 g 50", DefaultPlayers).2, "g") == 1600
  {
    VectorRepeatedCodeTokens();
    VectorRepeatedCodeChanges();
    DefaultCodes();
    var m: map<string, int> := map["g" := 100];
    DefaultBalances(m, "g");
  }
}

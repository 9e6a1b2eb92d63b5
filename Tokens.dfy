/**
 * The tokenizer of a transaction line: every whitespace-separated piece is a
 * number (`-?digits`), a player shortcode (one ASCII letter, lower-cased) or
 * an inert token. Whether a shortcode belongs to a player is decided later.
 */
module Tokens {
  import opened Text

  datatype Token = Num(value: int) | Code(letter: char) | Other(text: string)

  predicate IsAsciiLetter(c: char)
  {
    'a' <= c <= 'z' || 'A' <= c <= 'Z'
  }

  /** The piece matches `^-?\d+$`. */
  predicate IsNumeral(t: string)
  {
    (|t| > 0 && AllDigits(t)) || (|t| > 1 && t[0] == '-' && AllDigits(t[1..]))
  }

  /** `Number(t)` on a numeral, read as an unbounded integer. */
  function NumeralValue(t: string): (n: int)
    requires IsNumeral(t)
  {
    if t[0] == '-' then -(DigitsValue(t[1..]) as int) else DigitsValue(t)
  }

  /** How the source writes an integer amount: optional minus sign, then its digits. */
  function Numeral(n: int): string
  {
    if n < 0 then "-" + DecimalDigits(-n) else DecimalDigits(n)
  }

  /** The classification of one piece of the split line. */
  function Classify(t: string): (tok: Token)
    ensures tok.Num? <==> IsNumeral(t)
    ensures tok.Code? <==> |t| == 1 && IsAsciiLetter(t[0])
    ensures tok.Code? ==> 'a' <= tok.letter <= 'z' && tok.letter == LowerChar(t[0])
    ensures tok.Other? ==> tok.text == t
  {
    if IsNumeral(t) then Num(NumeralValue(t))
    else if |t| == 1 && IsAsciiLetter(t[0]) then Code(LowerChar(t[0]))
    else Other(t)
  }

  /** The typed tokens of a line, in the order the pieces appear. */
  function Tokenize(line: string): (toks: seq<Token>)
    ensures |toks| == |Words(line)|
    ensures forall k | 0 <= k < |toks| :: toks[k].Code? ==> 'a' <= toks[k].letter <= 'z'
  {
    var ws := Words(line);
    seq(|ws|, i requires 0 <= i < |ws| => Classify(ws[i]))
  }

  /** Every integer, written as the source's numerals are, is read back as a number token of that value. */
  lemma ClassifyNumeral(n: int)
    ensures Classify(Numeral(n)) == Num(n)
  {
    var d := if n < 0 then -n else n;
    DecimalRoundTrip(d);
    if n < 0 {
      assert Numeral(n)[1..] == DecimalDigits(d);
    }
  }

  /** A single ASCII letter, in either case, is the shortcode of its lower-case form. */
  lemma ClassifyLetter(c: char)
    requires IsAsciiLetter(c)
    ensures Classify([c]) == Code(LowerChar(c))
    ensures Classify([LowerChar(c)]) == Code(LowerChar(c))
  {
  }

  /** Trimming the line first does not change its tokens. */
  lemma TokenizeTrim(line: string)
    ensures Tokenize(Trim(line)) == Tokenize(line)
  {
    WordsOfTrim(line);
  }

  /** A line has no tokens exactly when it is blank. */
  lemma TokenizeEmptyIffBlank(line: string)
    ensures Tokenize(line) == [] <==> AllSpace(line)
  {
    NoWordsIffBlank(line);
    TrimEmptyIffBlank(line);
  }

  /** The tokens of words joined by single spaces are the words' classifications, one each. */
  lemma TokenizeJoin(ws: seq<string>)
    requires forall k | 0 <= k < |ws| :: IsWord(ws[k])
    ensures |Tokenize(Join(ws))| == |ws|
    ensures forall k | 0 <= k < |ws| :: Tokenize(Join(ws))[k] == Classify(ws[k])
  {
    WordsOfJoin(ws);
  }
}

/**
 * The tokenizer half of parser.py: `Token` and `Tokenizer`.
 *
 * `LexFrom` and `LexToken` specify one left-to-right scan; the `Tokenizer`
 * class is the imperative scan itself, with its cursor `position` and its
 * growing `tokens` list, proved to compute `LexFrom`. Character classes are
 * the ASCII ones (Python's `isspace`, `isdigit`, `isalpha` and `isalnum` also
 * accept other Unicode characters).
 */
module Lexer {
  import opened Wrappers
  import opened Numeric

  // ----- Character classes -----

  /** ASCII characters for which Python's `str.isspace` holds. */
  predicate IsSpace(c: char)
  {
    c == ' ' || (9 <= c as int <= 13) || (28 <= c as int <= 31)
  }

  predicate IsAlpha(c: char)
  {
    ('a' <= c <= 'z') || ('A' <= c <= 'Z')
  }

  predicate IsAlnum(c: char)
  {
    IsAlpha(c) || IsDigit(c)
  }

  const Operators: string := "+-*/()^"

  /** A character that `read_number` consumes. */
  predicate IsNumeralChar(c: char)
  {
    IsDigit(c) || c == '.'
  }

  /** A character that can start an identifier. */
  predicate IsIdentStart(c: char)
  {
    IsAlpha(c) || c == '_'
  }

  /** A character that `read_identifier` consumes. */
  predicate IsIdentChar(c: char)
  {
    IsAlnum(c) || c == '_'
  }

  /** A character the tokenizer rejects. */
  predicate IsUnknown(c: char)
  {
    !IsSpace(c) && !IsNumeralChar(c) && !IsIdentStart(c) && c !in Operators
  }

  // ----- Tokens and errors -----

  /** A token with the offset of its first character in the text. */
  datatype Token =
    | NumberToken(value: Num, position: nat)
    | IdentifierToken(name: string, position: nat)
    | OperatorToken(op: char, position: nat)   // one of + - * / ( ) ^

  /** The failures `parse_expression` can raise (all `ValueError` in Python). */
  datatype Error =
    | UnknownCharacter(ch: char, offset: nat)
    | InvalidNumber(numeral: string, offset: nat)
    | EmptyExpression
    | UnexpectedEndOfInput
    | UnexpectedToken(token: Token)
    | UnmatchedParentheses
    | TrailingTokens(index: nat)

  predicate IsOp(t: Token, c: char)
  {
    t.OperatorToken? && t.op == c
  }

  // ----- Specification of the scan -----

  /** The end of the maximal run of digits and `.` starting at `i`. */
  function NumberEnd(text: string, i: nat): (j: nat)
    requires i <= |text|
    ensures i <= j <= |text|
    ensures forall k | i <= k < j :: IsNumeralChar(text[k])
    ensures j == |text| || !IsNumeralChar(text[j])
    decreases |text| - i
  {
    if i < |text| && IsNumeralChar(text[i]) then NumberEnd(text, i + 1) else i
  }

  /** The end of the maximal run of letters, digits and `_` starting at `i`. */
  function IdentifierEnd(text: string, i: nat): (j: nat)
    requires i <= |text|
    ensures i <= j <= |text|
    ensures forall k | i <= k < j :: IsIdentChar(text[k])
    ensures j == |text| || !IsIdentChar(text[j])
    decreases |text| - i
  {
    if i < |text| && IsIdentChar(text[i]) then IdentifierEnd(text, i + 1) else i
  }

  /** The index of the first occurrence of `c` in `s`. */
  function IndexOf(s: string, c: char): (k: nat)
    requires c in s
    ensures k < |s| && s[k] == c && c !in s[..k]
  {
    if s[0] == c then 0 else
      var k := IndexOf(s[1..], c);
      assert s[1..][..k] == s[1..k + 1];
      k + 1
  }

  /**
   * The conversion in `read_number`: `float(s)` when `s` holds a `.`, else
   * `int(s)`. `None` is the ValueError Python raises.
   */
  function Numeral(s: string): Option<Num>
    requires forall k | 0 <= k < |s| :: IsNumeralChar(s[k])
  {
    if '.' !in s then
      if s == "" then None
      else
        DotFreeNumeralIsDigits(s);
        Some(Int(DigitsValue(s)))
    else
      var k := IndexOf(s, '.');
      var whole, fraction := s[..k], s[k + 1..];
      if '.' in fraction || (whole == "" && fraction == "") then None
      else
        assert forall j | 0 <= j < |whole| :: whole[j] == s[j];
        assert forall j | 0 <= j < |fraction| :: fraction[j] == s[k + 1 + j];
        DotFreeNumeralIsDigits(whole);
        DotFreeNumeralIsDigits(fraction);
        Some(Float(DigitsValue(whole) as real
                   + DigitsValue(fraction) as real / Pow10(|fraction|) as real))
  }

  /**
   * A numeral is rejected exactly when it is empty, a lone `.`, or holds two
   * or more dots; it converts to an Int exactly when it holds no dot.
   */
  lemma NumeralOutcome(s: string)
    requires forall k | 0 <= k < |s| :: IsNumeralChar(s[k])
    ensures Numeral(s).None? <==> s == "" || s == "." || multiset(s)['.'] >= 2
    ensures Numeral(s).Some? ==> (Numeral(s).value.Int? <==> '.' !in s)
  {
    if '.' !in s {
      assert multiset(s)['.'] == 0;
    } else {
      var k := IndexOf(s, '.');
      var whole, fraction := s[..k], s[k + 1..];
      assert s == whole + ['.'] + fraction;
      assert multiset(s)['.'] == multiset(whole)['.'] + 1 + multiset(fraction)['.'];
      assert multiset(whole)['.'] == 0;
      assert ('.' in fraction) == (multiset(fraction)['.'] > 0);
    }
  }

  lemma DotFreeNumeralIsDigits(s: string)
    requires forall k | 0 <= k < |s| :: IsNumeralChar(s[k])
    requires '.' !in s
    ensures AllDigits(s)
  {
    forall k | 0 <= k < |s| ensures IsDigit(s[k]) {
      assert s[k] in s;
    }
  }

  /**
   * Tokenizing `text` from offset `i`, with `acc` already produced: the loop
   * of `tokenize` (parser.py) as a function of its state.
   */
  function LexFrom(text: string, i: nat, acc: seq<Token>): (r: Result<seq<Token>, Error>)
    requires i <= |text|
    ensures r.Err? ==> r.error.UnknownCharacter? || r.error.InvalidNumber?
    decreases |text| - i, 1
  {
    if i == |text| then Ok(acc) else LexToken(text, i, acc)
  }

  /** One pass of that loop's body, at a character `text[i]` that exists. */
  function LexToken(text: string, i: nat, acc: seq<Token>): (r: Result<seq<Token>, Error>)
    requires i < |text|
    ensures r.Err? ==> r.error.UnknownCharacter? || r.error.InvalidNumber?
    decreases |text| - i, 0
  {
    var c := text[i];
    if IsSpace(c) then LexFrom(text, i + 1, acc)
    else if IsNumeralChar(c) then
      var j := NumberEnd(text, i);
      match Numeral(text[i..j])
      case Some(v) => LexFrom(text, j, acc + [NumberToken(v, i)])
      case None => Err(InvalidNumber(text[i..j], i))
    else if IsIdentStart(c) then
      var j := IdentifierEnd(text, i);
      LexFrom(text, j, acc + [IdentifierToken(text[i..j], i)])
    else if c in Operators then LexFrom(text, i + 1, acc + [OperatorToken(c, i)])
    else Err(UnknownCharacter(c, i))
  }

  /** The token list of a whole text, or the error that aborts it. */
  function Lex(text: string): Result<seq<Token>, Error>
  {
    LexFrom(text, 0, [])
  }

  // ----- The imperative tokenizer -----

  class Tokenizer {
    const text: string
    var position: nat
    var tokens: seq<Token>

    /** Python's constructor also runs `tokenize`; here the caller runs `Tokenize` next. */
    constructor(text: string)
      ensures this.text == text && position == 0 && tokens == []
    {
      this.text := text;
      position := 0;
      tokens := [];
    }

    /** `tokenize`: `None` when the whole text was scanned, else the error raised. */
    method Tokenize() returns (failure: Option<Error>)
      requires position <= |text|
      modifies this
      ensures LexFrom(text, old(position), old(tokens))
              == if failure.None? then Ok(tokens) else Err(failure.value)
    {
      while position < |text|
        invariant position <= |text|
        invariant LexFrom(text, old(position), old(tokens)) == LexFrom(text, position, tokens)
        decreases |text| - position
      {
        var c := text[position];
        if IsSpace(c) {
          position := position + 1;
          continue;
        }
        if IsDigit(c) || c == '.' {
          failure := ReadNumber();
          if failure.Some? {
            return;
          }
          continue;
        }
        if IsAlpha(c) || c == '_' {
          ReadIdentifier();
          continue;
        }
        if c in Operators {
          tokens := tokens + [OperatorToken(c, position)];
          position := position + 1;
          continue;
        }
        return Some(UnknownCharacter(c, position));
      }
      failure := None;
    }

    /** `read_number`: consume a maximal run of digits and `.`, then convert it. */
    method ReadNumber() returns (failure: Option<Error>)
      requires position <= |text|
      modifies this
      ensures var numeral := text[old(position)..NumberEnd(text, old(position))];
              match Numeral(numeral)
              case Some(v) =>
                failure.None? && position == NumberEnd(text, old(position))
                && tokens == old(tokens) + [NumberToken(v, old(position))]
              case None => failure == Some(InvalidNumber(numeral, old(position)))
    {
      var start := position;
      while position < |text| && (IsDigit(text[position]) || text[position] == '.')
        invariant start <= position <= |text|
        invariant NumberEnd(text, start) == NumberEnd(text, position)
        invariant tokens == old(tokens)
        decreases |text| - position
      {
        position := position + 1;
      }
      var numeral := text[start..position];
      var value := Numeral(numeral);
      if value.None? {
        return Some(InvalidNumber(numeral, start));
      }
      tokens := tokens + [NumberToken(value.value, start)];
      failure := None;
    }

    /** `read_identifier`: consume a maximal run of letters, digits and `_`. */
    method ReadIdentifier()
      requires position <= |text|
      modifies this
      ensures position == IdentifierEnd(text, old(position))
      ensures tokens == old(tokens) + [IdentifierToken(text[old(position)..position], old(position))]
    {
      var start := position;
      while position < |text| && (IsAlnum(text[position]) || text[position] == '_')
        invariant start <= position <= |text|
        invariant IdentifierEnd(text, start) == IdentifierEnd(text, position)
        invariant tokens == old(tokens)
        decreases |text| - position
      {
        position := position + 1;
      }
      tokens := tokens + [IdentifierToken(text[start..position], start)];
    }
  }
}

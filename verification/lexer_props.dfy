/**
 * What a successful scan promises about its tokens, independently of how the
 * scan is written: every token is the text found at its offset, tokens do
 * not overlap and appear in order, and only whitespace lies between them. A
 * failed scan points at the character or numeral that caused it.
 */
module LexerProperties {
  import opened Wrappers
  import opened Numeric
  import opened Lexer

  /** The offset just past the text a token was read from. */
  function TokenEnd(text: string, t: Token): nat
  {
    match t
    case NumberToken(_, p) => if p <= |text| then NumberEnd(text, p) else p
    case IdentifierToken(n, p) => p + |n|
    case OperatorToken(_, p) => p + 1
  }

  /** `t` is what the tokenizer reads at offset `t.position` of `text`. */
  ghost predicate TokenAt(text: string, t: Token)
  {
    t.position < |text| &&
    match t
    case NumberToken(v, p) =>
      IsNumeralChar(text[p]) && Numeral(text[p..NumberEnd(text, p)]) == Some(v)
    case IdentifierToken(n, p) =>
      IsIdentStart(text[p]) && n == text[p..IdentifierEnd(text, p)]
    case OperatorToken(c, p) =>
      c in Operators && text[p] == c
  }

  /** Every character of `text[a..b]` is whitespace. */
  ghost predicate Blank(text: string, a: int, b: int)
  {
    0 <= a <= b <= |text| && forall j | a <= j < b :: IsSpace(text[j])
  }

  /** `ts` are the tokens of `text[..upTo]`, separated and surrounded by whitespace only. */
  ghost predicate Tiled(text: string, ts: seq<Token>, upTo: nat)
  {
    (forall k | 0 <= k < |ts| :: TokenAt(text, ts[k]))
    && (forall k | 0 <= k < |ts| - 1 :: Blank(text, TokenEnd(text, ts[k]), ts[k + 1].position))
    && if ts == [] then Blank(text, 0, upTo)
       else Blank(text, 0, ts[0].position) && Blank(text, TokenEnd(text, ts[|ts| - 1]), upTo)
  }

  lemma TokenEndAfterStart(text: string, t: Token)
    requires TokenAt(text, t)
    ensures t.position < TokenEnd(text, t) <= |text|
  {
  }

  lemma TiledSkipSpace(text: string, acc: seq<Token>, i: nat)
    requires i < |text| && IsSpace(text[i]) && Tiled(text, acc, i)
    ensures Tiled(text, acc, i + 1)
  {
  }

  lemma TiledAppend(text: string, acc: seq<Token>, i: nat, t: Token)
    requires Tiled(text, acc, i) && TokenAt(text, t) && t.position == i
    ensures Tiled(text, acc + [t], TokenEnd(text, t))
  {
    var acc' := acc + [t];
    TokenEndAfterStart(text, t);
    forall k | 0 <= k < |acc'| ensures TokenAt(text, acc'[k]) {
      if k < |acc| { assert acc'[k] == acc[k]; }
    }
    forall k | 0 <= k < |acc'| - 1
      ensures Blank(text, TokenEnd(text, acc'[k]), acc'[k + 1].position)
    {
      if k < |acc| - 1 { assert acc'[k] == acc[k] && acc'[k + 1] == acc[k + 1]; }
    }
  }

  lemma {:induction false} LexFromTiles(text: string, i: nat, acc: seq<Token>, ts: seq<Token>)
    requires i <= |text|
    requires Tiled(text, acc, i)
    requires LexFrom(text, i, acc) == Ok(ts)
    ensures Tiled(text, ts, |text|)
    decreases |text| - i, 1
  {
    if i < |text| {
      LexTokenTiles(text, i, acc, ts);
    }
  }

  /** `LexFromTiles` for one pass of the loop, from `LexFromTiles` for the rest of the scan. */
  lemma {:induction false} LexTokenTiles(text: string, i: nat, acc: seq<Token>, ts: seq<Token>)
    requires i < |text|
    requires Tiled(text, acc, i)
    requires LexToken(text, i, acc) == Ok(ts)
    ensures Tiled(text, ts, |text|)
    decreases |text| - i, 0
  {
    var c := text[i];
    if IsSpace(c) {
      TiledSkipSpace(text, acc, i);
      LexFromTiles(text, i + 1, acc, ts);
    } else if IsNumeralChar(c) {
      var j := NumberEnd(text, i);
      var t := NumberToken(Numeral(text[i..j]).value, i);
      TiledAppend(text, acc, i, t);
      LexFromTiles(text, j, acc + [t], ts);
    } else if IsIdentStart(c) {
      var j := IdentifierEnd(text, i);
      var t := IdentifierToken(text[i..j], i);
      TiledAppend(text, acc, i, t);
      LexFromTiles(text, j, acc + [t], ts);
    } else {
      var t := OperatorToken(c, i);
      TiledAppend(text, acc, i, t);
      LexFromTiles(text, i + 1, acc + [t], ts);
    }
  }

  /** A successful scan tiles the whole text with its tokens and whitespace. */
  lemma LexTiles(text: string, ts: seq<Token>)
    requires Lex(text) == Ok(ts)
    ensures Tiled(text, ts, |text|)
  {
    LexFromTiles(text, 0, [], ts);
  }

  /** Tokens lie inside the text and their offsets strictly increase. */
  lemma LexPositionsIncrease(text: string, ts: seq<Token>)
    requires Lex(text) == Ok(ts)
    ensures forall k | 0 <= k < |ts| :: ts[k].position < |text|
    ensures forall k | 0 <= k < |ts| - 1 :: ts[k].position < ts[k + 1].position
  {
    LexTiles(text, ts);
    forall k | 0 <= k < |ts| - 1 ensures ts[k].position < ts[k + 1].position {
      TokenEndAfterStart(text, ts[k]);
    }
  }

  lemma {:induction false} LexFromBlank(text: string, i: nat, acc: seq<Token>)
    requires i <= |text| && Blank(text, i, |text|)
    ensures LexFrom(text, i, acc) == Ok(acc)
    decreases |text| - i
  {
    if i < |text| {
      LexFromBlank(text, i + 1, acc);
    }
  }

  /** A text yields no tokens exactly when it is all whitespace (the empty text included). */
  lemma LexEmptyIffBlank(text: string)
    ensures Lex(text) == Ok([]) <==> Blank(text, 0, |text|)
  {
    if Blank(text, 0, |text|) {
      LexFromBlank(text, 0, []);
    }
    if Lex(text) == Ok([]) {
      LexTiles(text, []);
    }
  }

  lemma {:induction false} LexFromStopsAtUnknown(text: string, i: nat, acc: seq<Token>, p: nat)
    requires i <= p < |text| && IsUnknown(text[p])
    ensures LexFrom(text, i, acc).Err?
    decreases |text| - i
  {
    var c := text[i];
    if i == p {
    } else if IsSpace(c) {
      LexFromStopsAtUnknown(text, i + 1, acc, p);
    } else if IsNumeralChar(c) {
      var j := NumberEnd(text, i);
      if Numeral(text[i..j]).Some? {
        LexFromStopsAtUnknown(text, j, acc + [NumberToken(Numeral(text[i..j]).value, i)], p);
      }
    } else if IsIdentStart(c) {
      var j := IdentifierEnd(text, i);
      LexFromStopsAtUnknown(text, j, acc + [IdentifierToken(text[i..j], i)], p);
    } else if c in Operators {
      LexFromStopsAtUnknown(text, i + 1, acc + [OperatorToken(c, i)], p);
    }
  }

  /** One character outside every class aborts the whole scan: no token list comes back. */
  lemma LexUnknownFails(text: string, p: nat)
    requires p < |text| && IsUnknown(text[p])
    ensures Lex(text).Err?
  {
    LexFromStopsAtUnknown(text, 0, [], p);
  }

  /** No character of a token is one the tokenizer rejects. */
  lemma TokenKnown(text: string, t: Token, q: nat)
    requires TokenAt(text, t) && t.position <= q < TokenEnd(text, t)
    ensures !IsUnknown(text[q])
  {
  }

  /** Text that scans cleanly up to `p` holds no rejected character before `p`. */
  lemma {:induction false} TiledKnown(text: string, ts: seq<Token>, p: nat)
    requires Tiled(text, ts, p)
    ensures p <= |text|
    ensures forall q | 0 <= q < p :: !IsUnknown(text[q])
    decreases |ts|
  {
    if ts != [] {
      var t := ts[|ts| - 1];
      var front := ts[..|ts| - 1];
      assert Tiled(text, front, t.position) by {
        forall k | 0 <= k < |front| ensures TokenAt(text, front[k]) {
          assert front[k] == ts[k];
        }
        forall k | 0 <= k < |front| - 1
          ensures Blank(text, TokenEnd(text, front[k]), front[k + 1].position)
        {
          assert front[k] == ts[k] && front[k + 1] == ts[k + 1];
        }
        if front != [] {
          assert front[0] == ts[0] && front[|front| - 1] == ts[|ts| - 2];
        }
      }
      TiledKnown(text, front, t.position);
      TokenEndAfterStart(text, t);
      forall q | t.position <= q < TokenEnd(text, t) ensures !IsUnknown(text[q]) {
        TokenKnown(text, t, q);
      }
    }
  }

  /** Text that scans cleanly past a first character that is not whitespace starts with a token there. */
  lemma TiledStart(text: string, ts: seq<Token>, p: nat)
    requires Tiled(text, ts, p) && 0 < p && !IsSpace(text[0])
    ensures ts != [] && ts[0].position == 0
  {
  }

  /** A token whose first character is a digit or `.` is a number read from an accepted numeral. */
  lemma NumeralTokenAt(text: string, t: Token)
    requires TokenAt(text, t) && IsNumeralChar(text[t.position])
    ensures t.NumberToken? && Numeral(text[t.position..NumberEnd(text, t.position)]).Some?
  {
  }

  /** `text[..p]` is whole tokens and whitespace: the scan reaches offset `p` without error. */
  ghost predicate ScansUpTo(text: string, p: nat)
  {
    exists ts :: Tiled(text, ts, p)
  }

  /**
   * `e` names the first place the scan fails: the text before its offset
   * scans cleanly, and at the offset there is an unknown character or the
   * start of a numeral that neither `int` nor `float` accepts.
   */
  ghost predicate ErrorCause(text: string, e: Error)
  {
    || (e.UnknownCharacter? && e.offset < |text| && ScansUpTo(text, e.offset)
        && text[e.offset] == e.ch && IsUnknown(e.ch))
    || (e.InvalidNumber? && e.offset < |text| && ScansUpTo(text, e.offset)
        && IsNumeralChar(text[e.offset])
        && e.numeral == text[e.offset..NumberEnd(text, e.offset)]
        && Numeral(e.numeral).None?)
  }

  lemma {:induction false} LexFromErrorCause(text: string, i: nat, acc: seq<Token>, e: Error)
    requires i <= |text| && Tiled(text, acc, i)
    requires LexFrom(text, i, acc) == Err(e)
    ensures ErrorCause(text, e)
    decreases |text| - i
  {
    var c := text[i];
    if IsSpace(c) {
      TiledSkipSpace(text, acc, i);
      LexFromErrorCause(text, i + 1, acc, e);
    } else if IsNumeralChar(c) {
      var j := NumberEnd(text, i);
      match Numeral(text[i..j])
      case Some(v) =>
        var t := NumberToken(v, i);
        TiledAppend(text, acc, i, t);
        LexFromErrorCause(text, j, acc + [t], e);
      case None =>
        assert e == InvalidNumber(text[i..j], i);
        assert ScansUpTo(text, i) by { assert Tiled(text, acc, i); }
    } else if IsIdentStart(c) {
      var j := IdentifierEnd(text, i);
      var t := IdentifierToken(text[i..j], i);
      TiledAppend(text, acc, i, t);
      LexFromErrorCause(text, j, acc + [t], e);
    } else if c in Operators {
      var t := OperatorToken(c, i);
      TiledAppend(text, acc, i, t);
      LexFromErrorCause(text, i + 1, acc + [t], e);
    } else {
      assert e == UnknownCharacter(c, i);
      assert ScansUpTo(text, i) by { assert Tiled(text, acc, i); }
    }
  }

  /**
   * A failed scan reports the first unknown character with its offset, or the
   * first numeral (the maximal run of digits and `.`) that neither `int` nor
   * `float` accepts, with the offset where the run starts.
   */
  lemma LexErrorCause(text: string, e: Error)
    requires Lex(text) == Err(e)
    ensures ErrorCause(text, e)
  {
    LexFromErrorCause(text, 0, [], e);
  }

  /** The offset an error names is the first place the scan can fail: no rejected character comes before it. */
  lemma ErrorCauseIsFirst(text: string, e: Error)
    requires ErrorCause(text, e)
    ensures forall q | 0 <= q < e.offset :: !IsUnknown(text[q])
  {
    var ts :| Tiled(text, ts, e.offset);
    TiledKnown(text, ts, e.offset);
  }
}

/**
 * Properties of the whole pipeline from text to tree that involve both the
 * tokenizer and the parser.
 */
module ParserProperties {
  import opened Wrappers
  import opened Lexer
  import opened MinisymParser
  import opened LexerProperties

  /** "Empty expression" is raised exactly for texts made of whitespace only. */
  lemma EmptyExpressionIffBlank(text: string)
    ensures ParseText(text) == Err(EmptyExpression) <==> Blank(text, 0, |text|)
  {
    LexEmptyIffBlank(text);
  }

  /**
   * A text fails to parse when it holds a character the tokenizer rejects,
   * whatever else it holds.
   */
  lemma UnknownCharacterFails(text: string, p: nat)
    requires p < |text| && IsUnknown(text[p])
    ensures ParseText(text).Err?
  {
    LexUnknownFails(text, p);
  }
}

/** The symbols that the encoders, the parsers and the grammar share are those of
    RFC 8259, and the limits those of the protocol. */
module Lexicon {
  import opened Unicode
  import opened Json
  import opened StrictJson
  import opened StrictJsonParser

  function Code(c: char): Unit { if c as int < 0x80 then c as int else 0 }

  /** Sections 2 and 6 of RFC 8259. */
  lemma SpacesAndDigits()
    ensures forall u: Unit :: IsSpace(u) <==> u in {0x20, 0x09, 0x0A, 0x0D}
    ensures forall u: Unit :: IsDigit(u) <==> Code('0') <= u <= Code('9')
    ensures MINUS == Code('-') && ZERO == Code('0')
  {
  }

  /** Section 7 of RFC 8259. */
  lemma Escapes()
    ensures forall u: Unit :: HexValue(u) ==
              if Code('0') <= u <= Code('9') then Some(u as int - Code('0'))
              else if Code('a') <= u <= Code('f') then Some(u as int - Code('a') + 10)
              else if Code('A') <= u <= Code('F') then Some(u as int - Code('A') + 10)
              else None
    ensures ShortEscape(Code('"')) == Some(0x22) && ShortEscape(Code('\\')) == Some(0x5C)
    ensures ShortEscape(Code('/')) == Some(0x2F) && ShortEscape(Code('b')) == Some(0x08)
    ensures ShortEscape(Code('f')) == Some(0x0C) && ShortEscape(Code('n')) == Some(0x0A)
    ensures ShortEscape(Code('r')) == Some(0x0D) && ShortEscape(Code('t')) == Some(0x09)
    ensures forall u: Unit :: ShortEscape(u).Some? ==>
              u in {Code('"'), Code('\\'), Code('/'), Code('b'), Code('f'), Code('n'), Code('r'), Code('t')}
    ensures LOWER_U == Code('u') && QUOTE == Code('"') && BACKSLASH == Code('\\')
  {
  }

  /** Sections 2 and 3 of RFC 8259. */
  lemma Literals()
    ensures TRUE == Ascii("true") && FALSE == Ascii("false") && NULL == Ascii("null")
    ensures LBRACE == Code('{') && RBRACE == Code('}') && LBRACKET == Code('[') && RBRACKET == Code(']')
    ensures COLON == COLON_BYTE == Code(':') && COMMA == COMMA_BYTE == Code(',')
  {
    assert |TRUE| == 4 && |FALSE| == 5 && |NULL| == 4;
  }

  lemma Limits()
    ensures MAX_SAFE_INTEGER == 9_007_199_254_740_991 && MAX_DEPTH == 64 && MAX_NODES == 100_000
    ensures MAX_INPUT_BYTES == 1_048_576
  {
  }
}

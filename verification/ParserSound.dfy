/** The parser reads nothing but the grammar: an accepted text is the spelling
    of a tree. With ParserComplete this determines the parser on every text. */
module ParserSound {
  import opened Unicode
  import opened Json
  import opened StrictJson
  import opened Grammar
  import opened ParserComplete

  lemma {:induction false} SpaceSplit(r: Units) returns (gap: Units)
    ensures IsGap(gap) && r == gap + SkipSpace(r)
    ensures SkipSpace(r) != [] ==> !IsSpace(SkipSpace(r)[0])
  {
    if r != [] && IsSpace(r[0]) {
      var more := SpaceSplit(r[1..]);
      gap := [r[0]] + more;
      assert r == [r[0]] + r[1..];
      Assoc([r[0]], more, SkipSpace(r));
    } else {
      gap := [];
    }
  }

  // ---- Strings ----

  /** The character at the front of an accepted string remainder. */
  lemma FirstPiece(r: Units, acc: Units) returns (p: Piece, more: Units)
    requires r != [] && r[0] != QUOTE && ParseString(r, acc).Some?
    ensures IsPiece(p) && r == PieceText(p) + more
    ensures ParseString(r, acc) == ParseString(more, acc + PieceValue(p))
  {
    if r[0] == BACKSLASH {
      p, more := FirstEscape(r, acc);
    } else if IsHigh(r[0]) {
      p, more := RawPair(r[0], r[1]), r[2..];
    } else {
      p, more := Raw(r[0]), r[1..];
    }
  }

  lemma FirstEscape(r: Units, acc: Units) returns (p: Piece, more: Units)
    requires StartsWith(r, BACKSLASH) && ParseEscape(r, acc).Some?
    ensures IsPiece(p) && r == PieceText(p) + more
    ensures ParseEscape(r, acc) == ParseString(more, acc + PieceValue(p))
  {
    hide HexUnit, HexValue;
    if ShortEscape(r[1]).Some? {
      p, more := Short(r[1]), r[2..];
    } else {
      var d, after := r[2..][..4], r[6..];
      assert r == [BACKSLASH, LOWER_U] + d + after;
      if IsHigh(HexUnit(d)) {
        var l := after[2..][..4];
        p, more := HexPair(d, l), after[6..];
        assert after == [BACKSLASH, LOWER_U] + l + more;
      } else {
        p, more := Hex(d), after;
      }
    }
  }

  lemma {:induction false} StringSpelled(r: Units, acc: Units) returns (ps: seq<Piece>)
    requires ParseString(r, acc).Some?
    ensures ArePieces(ps) && r == StringText(ps) + ([QUOTE] + ParseString(r, acc).value.1)
    decreases |r|
  {
    if r[0] == QUOTE {
      ps := [];
      assert r == [QUOTE] + r[1..];
    } else {
      var p, more := FirstPiece(r, acc);
      hide PieceText, PieceValue, ParseString;
      var rest := StringSpelled(more, acc + PieceValue(p));
      ps := [p] + rest;
      assert ps[1..] == rest;
      Assoc(PieceText(p), StringText(rest), [QUOTE] + ParseString(r, acc).value.1);
    }
  }

  // ---- Numbers ----

  /** Digits read after a nonzero number extend its decimal spelling. */
  lemma {:induction false} DigitsSpelled(r: Units, n: nat) returns (more: Units)
    requires n > 0
    ensures var (m, rest) := ScanDigits(r, n);
      m >= n && r == more + rest && Digits(m) == Digits(n) + more
    decreases |r|
  {
    if r != [] && IsDigit(r[0]) {
      var d := r[0] - ZERO;
      var tail := DigitsSpelled(r[1..], n * 10 + d);
      more := [r[0]] + tail;
      assert Digits(n * 10 + d) == Digits(n) + [r[0]];
      Assoc(Digits(n), [r[0]], tail);
      assert r == [r[0]] + r[1..];
      Assoc([r[0]], tail, ScanDigits(r, n).1);
    } else {
      more := [];
    }
  }

  lemma MagnitudeSpelled(r: Units)
    requires ParseMagnitude(r).Some?
    ensures var (n, rest) := ParseMagnitude(r).value; r == Digits(n) + rest && EndsNumber(rest)
  {
    var (n, rest) := ParseMagnitude(r).value;
    assert r == [r[0]] + r[1..];
    if r[0] == ZERO {
      assert Digits(0) == [ZERO];
    } else {
      var more := DigitsSpelled(r[1..], r[0] - ZERO);
      assert Digits(r[0] - ZERO) == [r[0]];
      Assoc([r[0]], more, rest);
    }
  }

  /** An integer as the encoder writes it. */
  function IntegerTree(n: int): Tree { TNum(n < 0, Digits(if n < 0 then -n else n), [], []) }

  lemma IntegerTreeSpells(n: int)
    ensures IsTree(IntegerTree(n)) && ValueOf(IntegerTree(n)) == Num(n) && Spelling(IntegerTree(n)) == Decimal(n)
    ensures Clean(IntegerTree(n)) <==> IsSafeInteger(n)
  {
    hide Digits;
    var m: nat := if n < 0 then -n else n;
    NumberOfDigits(m);
    assert Digits(m) + ([] + []) == Digits(m);
  }

  lemma NumberSpelled(r: Units)
    requires ParseNumber(r).Some?
    ensures var (n, rest) := ParseNumber(r).value; EndsNumber(rest) && r == Spelling(IntegerTree(n)) + rest
  {
    var negative := StartsWith(r, MINUS);
    var digits := if negative then r[1..] else r;
    MagnitudeSpelled(digits);
    IntegerTreeSpells(ParseNumber(r).value.0);
    hide ParseMagnitude, Digits, EndsNumber, IntegerTree;
    var (m, rest) := ParseMagnitude(digits).value;
    if negative {
      assert r == [MINUS] + digits;
      Assoc([MINUS], Digits(m), rest);
    }
  }

  // ---- Values ----

  lemma {:induction false} ValueSpelled(r: Units, depth: nat, nodes: nat) returns (t: Tree)
    requires ParseValue(r, depth, nodes).Read?
    ensures IsTree(t) && r == Spelling(t) + ParseValue(r, depth, nodes).rest
    ensures Separated(t, ParseValue(r, depth, nodes).rest)
    decreases |r|, 0
  {
    if r[0] == LBRACE {
      t := ObjectSpelled(r, depth, nodes);
    } else if r[0] == LBRACKET {
      t := ArraySpelled(r, depth, nodes);
    } else {
      t := ScalarSpelled(r, nodes + 1);
    }
  }

  lemma ScalarSpelled(r: Units, nodes: nat) returns (t: Tree)
    requires r != [] && ParseScalar(r, nodes).Read?
    ensures IsTree(t) && r == Spelling(t) + ParseScalar(r, nodes).rest
    ensures Separated(t, ParseScalar(r, nodes).rest)
  {
    hide ParseString, ParseNumber, NumberText, Digits, DigitsNumber;
    if r[0] == QUOTE {
      var ps := StringSpelled(r[1..], []);
      t := TStr(ps);
      assert r == [QUOTE] + r[1..];
      Assoc(StringText(ps), [QUOTE], ParseScalar(r, nodes).rest);
      Assoc([QUOTE], StringText(ps) + [QUOTE], ParseScalar(r, nodes).rest);
    } else if r[0] == TRUE[0] {
      t := TBool(true);
    } else if r[0] == FALSE[0] {
      t := TBool(false);
    } else if r[0] == NULL[0] {
      t := TNull;
    } else {
      NumberSpelled(r);
      IntegerTreeSpells(ParseNumber(r).value.0);
      t := IntegerTree(ParseNumber(r).value.0);
    }
  }

  lemma ArraySpelled(r: Units, depth: nat, nodes: nat) returns (t: Tree)
    requires StartsWith(r, LBRACKET) && ParseValue(r, depth, nodes).Read?
    ensures IsTree(t) && t.TArr? && r == Spelling(t) + ParseValue(r, depth, nodes).rest
    decreases |r|, 0, 0
  {
    hide SkipSpace, ParseItems, AtElem;
    var lead := SpaceSplit(r[1..]);
    var inner, rest := SkipSpace(r[1..]), ParseValue(r, depth, nodes).rest;
    assert r == [LBRACKET] + r[1..];
    var es: seq<Elem> := [];
    if StartsWith(inner, RBRACKET) {
      assert inner == [RBRACKET] + rest;
      Enclose(LBRACKET, lead, [RBRACKET], rest);
    } else {
      es := ElemsSpelled(inner, depth, nodes + 1, []);
      Enclose(LBRACKET, lead, AtElem(es), rest);
    }
    t := TArr(lead, es);
  }

  lemma ObjectSpelled(r: Units, depth: nat, nodes: nat) returns (t: Tree)
    requires StartsWith(r, LBRACE) && ParseValue(r, depth, nodes).Read?
    ensures IsTree(t) && t.TObj? && r == Spelling(t) + ParseValue(r, depth, nodes).rest
    decreases |r|, 0, 0
  {
    hide SkipSpace, ParseMembers, AtMember;
    var lead := SpaceSplit(r[1..]);
    var inner, rest := SkipSpace(r[1..]), ParseValue(r, depth, nodes).rest;
    assert r == [LBRACE] + r[1..];
    var ms: seq<Member> := [];
    if StartsWith(inner, RBRACE) {
      assert inner == [RBRACE] + rest;
      Enclose(LBRACE, lead, [RBRACE], rest);
    } else {
      ms := MembersSpelled(inner, depth, nodes + 1, map[]);
      Enclose(LBRACE, lead, AtMember(ms), rest);
    }
    t := TObj(lead, ms);
  }

  lemma Enclose(open: Unit, lead: Units, body: Units, rest: Units)
    ensures [open] + (lead + (body + rest)) == [open] + (lead + body) + rest
  {
    Assoc(lead, body, rest);
    Assoc([open], lead + body, rest);
  }

  /** The separator behind an item: white space, then what `next` says. */
  lemma SeparatorSpelled(r: Units, closer: Unit) returns (after: Units, gap: Units)
    requires !ParseSeparator(r, closer).Bad? && closer != COMMA
    ensures IsGap(after) && IsGap(gap)
    ensures match ParseSeparator(r, closer)
            case Closed(rest) => r == after + ([closer] + rest)
            case Next(rest) => r == after + ([COMMA] + (gap + rest))
            case Bad => true
  {
    after := SpaceSplit(r);
    gap := [];
    var next := SkipSpace(r);
    assert next == [next[0]] + next[1..];
    if next[0] != closer {
      gap := SpaceSplit(next[1..]);
    }
  }

  lemma {:induction false} ElemsSpelled(r: Units, depth: nat, nodes: nat, acc: seq<Value>) returns (es: seq<Elem>)
    requires ParseItems(r, depth, nodes, acc).Read?
    ensures es != [] && AreElems(es) && r == AtElem(es) + ParseItems(r, depth, nodes, acc).rest
    decreases |r|, 1
  {
    hide ParseValue, ParseSeparator, Spelling;
    var t := ValueSpelled(r, depth + 1, nodes);
    var step := ParseValue(r, depth + 1, nodes);
    var after, gap := SeparatorSpelled(step.rest, RBRACKET);
    var sep, rest := ParseSeparator(step.rest, RBRACKET), ParseItems(r, depth, nodes, acc).rest;
    var more: seq<Elem> := [];
    if sep.Next? {
      var found := ElemsSpelled(sep.rest, depth, step.nodes, acc + [step.value]);
      more := [found[0].(gap := gap)] + found[1..];
      assert more[1..] == found[1..];
      assert AtElem(more) == AtElem(found);
    }
    es := [Elem([], t, after)] + more;
    assert es[1..] == more;
    ElemsText(t, after, more, rest);
  }

  lemma ElemsText(t: Tree, after: Units, more: seq<Elem>, rest: Units)
    ensures Spelling(t)
            + (after + if more == [] then [RBRACKET] + rest else [COMMA] + (more[0].gap + (AtElem(more) + rest)))
         == AtElem([Elem([], t, after)] + more) + rest
  {
    var es := [Elem([], t, after)] + more;
    assert es[1..] == more && es[0].value == t && es[0].after == after;
    assert AtElem(es) == Spelling(t) + (after + AfterElem(more));
    hide Spelling, AtElem;
    if more != [] {
      Assoc(more[0].gap, AtElem(more), rest);
      Assoc([COMMA], more[0].gap + AtElem(more), rest);
    }
    Assoc(after, AfterElem(more), rest);
    Assoc(Spelling(t), after + AfterElem(more), rest);
  }

  lemma KeySpelled(r: Units, taken: set<Units>) returns (m: Member)
    requires ParseKey(r, taken).Some?
    ensures IsKey(m) && r == KeyText(m) + ParseKey(r, taken).value.1
  {
    hide ParseString, SkipSpace;
    var key := StringSpelled(r[1..], []);
    var behind := ParseString(r[1..], []).value.1;
    var beforeColon := SpaceSplit(behind);
    var colon := SkipSpace(behind);
    var afterColon := SpaceSplit(colon[1..]);
    var rest := SkipSpace(colon[1..]);
    m := Member([], key, beforeColon, afterColon, TNull, []);
    assert r == [QUOTE] + r[1..] && colon == [COLON] + colon[1..];
    Assoc([COLON], afterColon, rest);
    Assoc(beforeColon, [COLON] + afterColon, rest);
    Assoc([QUOTE], beforeColon + ([COLON] + afterColon), rest);
    Assoc(StringText(key), [QUOTE] + (beforeColon + ([COLON] + afterColon)), rest);
    Assoc([QUOTE], StringText(key) + ([QUOTE] + (beforeColon + ([COLON] + afterColon))), rest);
  }

  lemma {:induction false} MembersSpelled(r: Units, depth: nat, nodes: nat, acc: map<Units, Value>)
    returns (ms: seq<Member>)
    requires ParseMembers(r, depth, nodes, acc).Read?
    ensures ms != [] && AreMembers(ms) && r == AtMember(ms) + ParseMembers(r, depth, nodes, acc).rest
    decreases |r|, 1
  {
    hide ParseKey, ParseValue, ParseSeparator, Spelling, KeyText, IsKey;
    var k := KeySpelled(r, acc.Keys);
    var (key, valueAt) := ParseKey(r, acc.Keys).value;
    var t := ValueSpelled(valueAt, depth + 1, nodes);
    var step := ParseValue(valueAt, depth + 1, nodes);
    var after, gap := SeparatorSpelled(step.rest, RBRACE);
    var sep, rest := ParseSeparator(step.rest, RBRACE), ParseMembers(r, depth, nodes, acc).rest;
    var more: seq<Member> := [];
    if sep.Next? {
      var found := MembersSpelled(sep.rest, depth, step.nodes, acc[key := step.value]);
      more := [found[0].(gap := gap)] + found[1..];
      SameMembers(found, gap);
    }
    SameKey(k, t, after);
    var m := k.(value := t, after := after);
    ms := [m] + more;
    assert ms[1..] == more;
    MembersText(m, more, rest);
  }

  lemma SameMembers(ms: seq<Member>, gap: Units)
    requires ms != [] && AreMembers(ms) && IsGap(gap)
    ensures var more := [ms[0].(gap := gap)] + ms[1..];
      AreMembers(more) && AtMember(more) == AtMember(ms) && more[0].gap == gap
  {
    var more := [ms[0].(gap := gap)] + ms[1..];
    assert more[1..] == ms[1..];
  }

  lemma SameKey(k: Member, t: Tree, after: Units)
    ensures KeyText(k.(value := t, after := after)) == KeyText(k)
    ensures IsKey(k.(value := t, after := after)) <==> IsKey(k)
  {
  }

  lemma MembersText(m: Member, more: seq<Member>, rest: Units)
    ensures KeyText(m) + (Spelling(m.value) + (m.after
              + if more == [] then [RBRACE] + rest else [COMMA] + (more[0].gap + (AtMember(more) + rest))))
         == AtMember([m] + more) + rest
  {
    var ms := [m] + more;
    assert ms[1..] == more && ms[0] == m;
    assert AtMember(ms) == KeyText(m) + (Spelling(m.value) + (m.after + AfterMember(more)));
    hide Spelling, AtMember, KeyText;
    if more != [] {
      Assoc(more[0].gap, AtMember(more), rest);
      Assoc([COMMA], more[0].gap + AtMember(more), rest);
    }
    Assoc(m.after, AfterMember(more), rest);
    Assoc(Spelling(m.value), m.after + AfterMember(more), rest);
    Assoc(KeyText(m), Spelling(m.value) + (m.after + AfterMember(more)), rest);
  }

  // ---- Whole texts ----

  /** `text` spells `t`, with white space around it. */
  ghost predicate Spells(text: Units, lead: Units, t: Tree, trail: Units) {
    IsGap(lead) && IsTree(t) && IsGap(trail) && text == lead + (Spelling(t) + trail)
  }

  /** On any spelling of any tree the parser gives the tree's value exactly if
      the tree fits; in particular it rejects every repeated key. */
  lemma ParseSpelling(text: Units, lead: Units, t: Tree, trail: Units)
    requires Spells(text, lead, t, trail)
    ensures ParseText(text) == if Fits(t, 1, 0) then Some(ValueOf(t)) else None
  {
    TextStart(t);
    SkipsGap(lead, Spelling(t) + trail);
    assert EndsNumber(trail);
    ReadsTree(t, trail, 1, 0);
    SkipsGap(trail, []);
    assert trail + [] == trail;
  }

  /** Every accepted text is the spelling of a tree that fits. */
  lemma ParsedIsSpelled(text: Units) returns (lead: Units, t: Tree, trail: Units)
    requires ParseText(text).Some?
    ensures Spells(text, lead, t, trail) && Fits(t, 1, 0) && ParseText(text) == Some(ValueOf(t))
  {
    lead := SpaceSplit(text);
    t := ValueSpelled(SkipSpace(text), 1, 0);
    var rest := ParseValue(SkipSpace(text), 1, 0).rest;
    trail := SpaceSplit(rest);
    assert trail == rest;
    ParseSpelling(text, lead, t, trail);
  }

  /** Both directions: the strict parser is the grammar with the limits. */
  lemma ParserIsGrammar(text: Units, v: Value)
    ensures ParseText(text) == Some(v)
      <==> exists lead, t, trail :: Spells(text, lead, t, trail) && Fits(t, 1, 0) && ValueOf(t) == v
  {
    if ParseText(text) == Some(v) {
      var lead, t, trail := ParsedIsSpelled(text);
    }
    forall lead, t, trail | Spells(text, lead, t, trail) && Fits(t, 1, 0) && ValueOf(t) == v
      ensures ParseText(text) == Some(v)
    {
      ParseSpelling(text, lead, t, trail);
    }
  }
}

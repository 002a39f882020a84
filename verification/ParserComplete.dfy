/** The parser reads every text the grammar spells: it accepts exactly the trees
    within the limits and without repeated keys, and yields their values. */
module ParserComplete {
  import opened Unicode
  import opened Json
  import opened StrictJson
  import opened Grammar

  lemma {:induction false} SkipsGap(gap: Units, r: Units)
    requires IsGap(gap) && (r == [] || !IsSpace(r[0]))
    ensures SkipSpace(gap + r) == r
  {
    if gap == [] {
      assert gap + r == r;
    } else {
      SkipsGap(gap[1..], r);
      assert (gap + r)[1..] == gap[1..] + r;
    }
  }

  // ---- Strings ----

  /** Each written character is read back as its value. */
  lemma ReadsPiece(p: Piece, r: Units, acc: Units)
    requires IsPiece(p)
    ensures ParseString(PieceText(p) + r, acc) == ParseString(r, acc + PieceValue(p))
  {
    match p
    case Hex(d) => ReadsHex(d, r, acc);
    case HexPair(h, l) => ReadsHexPair(h, l, r, acc);
    case _ => assert (PieceText(p) + r)[|PieceText(p)|..] == r;
  }

  lemma ReadsHex(d: Units, r: Units, acc: Units)
    requires IsPiece(Hex(d))
    ensures ParseString(PieceText(Hex(d)) + r, acc) == ParseString(r, acc + PieceValue(Hex(d)))
  {
    var t := PieceText(Hex(d)) + r;
    assert t[2..] == d + r && (d + r)[..4] == d && t[6..] == r;
    hide HexUnit, HexValue;
  }

  lemma ReadsHexPair(h: Units, l: Units, r: Units, acc: Units)
    requires IsPiece(HexPair(h, l))
    ensures ParseString(PieceText(HexPair(h, l)) + r, acc) == ParseString(r, acc + PieceValue(HexPair(h, l)))
  {
    hide HexUnit, HexValue;
    var u := [BACKSLASH, LOWER_U] + l + r;
    var t := PieceText(HexPair(h, l)) + r;
    assert t == [BACKSLASH, LOWER_U] + h + u;
    assert t[2..] == h + u && (h + u)[..4] == h && t[6..] == u;
    assert u[2..] == l + r && (l + r)[..4] == l && u[6..] == r;
    assert ParseString(t, acc) == ParseEscape(t, acc);
  }

  lemma {:induction false} ReadsString(ps: seq<Piece>, r: Units, acc: Units)
    requires ArePieces(ps)
    ensures ParseString(StringText(ps) + ([QUOTE] + r), acc) == Some((acc + StringValue(ps), r))
    decreases |ps|
  {
    var close := [QUOTE] + r;
    if ps == [] {
      assert StringText(ps) + close == close && close[1..] == r;
      assert acc + StringValue(ps) == acc;
    } else {
      hide ParseString, PieceText, PieceValue;
      ReadsPiece(ps[0], StringText(ps[1..]) + close, acc);
      Assoc(PieceText(ps[0]), StringText(ps[1..]), close);
      ReadsString(ps[1..], r, acc + PieceValue(ps[0]));
      Assoc(acc, PieceValue(ps[0]), StringValue(ps[1..]));
    }
  }

  // ---- Numbers ----

  lemma {:induction false} ReadsDigits(n: nat, r: Units)
    ensures ScanDigits(Digits(n) + r, 0) == ScanDigits(r, n)
    ensures (r == [] || !IsDigit(r[0])) ==> ScanDigits(Digits(n) + r, 0) == (n, r)
  {
    var last: Unit := ZERO + n % 10;
    assert ([last] + r)[1..] == r;
    if n >= 10 {
      ReadsDigits(n / 10, [last] + r);
      Assoc(Digits(n / 10), [last], r);
    }
  }

  lemma {:induction false} LeadingDigit(n: nat)
    ensures IsDigit(Digits(n)[0]) && (Digits(n)[0] == ZERO <==> n == 0)
    ensures n == 0 ==> Digits(n) == [ZERO]
  {
    if n >= 10 { LeadingDigit(n / 10); }
  }

  /** The value of an integer part has that part as its decimal digits. */
  lemma {:induction false} DigitsOfNumber(d: Units)
    requires IsInteger(d)
    ensures Digits(DigitsNumber(d)) == d
    ensures d[0] != ZERO ==> DigitsNumber(d) > 0
  {
    var n := |d| - 1;
    assert d == d[..n] + [d[n]];
    if n == 0 {
      assert d[..n] == [];
      assert DigitsNumber(d) == d[0] - ZERO;
    } else {
      DigitsOfNumber(d[..n]);
    }
  }

  lemma {:induction false} NumberOfDigits(n: nat)
    ensures IsInteger(Digits(n)) && DigitsNumber(Digits(n)) == n
  {
    LeadingDigit(n);
    if n >= 10 {
      NumberOfDigits(n / 10);
      LeadingDigit(n / 10);
      assert Digits(n)[..|Digits(n)| - 1] == Digits(n / 10);
    } else {
      assert Digits(n)[..0] == [];
    }
  }

  lemma ReadsMagnitude(n: nat, r: Units)
    requires r == [] || !IsDigit(r[0])
    ensures ParseMagnitude(Digits(n) + r) == if EndsNumber(r) then Some((n, r)) else None
  {
    hide ScanDigits, Digits, EndsNumber, IsAscii;
    LeadingDigit(n);
    ReadsDigits(n, r);
    ScansOne(Digits(n), r);
    assert (Digits(n) + r)[0] == Digits(n)[0];
    if n == 0 { assert (Digits(n) + r)[1..] == r; }
  }

  /** A fraction or an exponent continues a number. */
  lemma TailAhead(f: Units, e: Units, r: Units)
    requires IsFraction(f) && IsExponent(e) && EndsNumber(r)
    ensures var more := f + e + r; (more == [] || !IsDigit(more[0])) && (EndsNumber(more) <==> f == [] && e == [])
  {
    if f == [] && e == [] {
      assert f + e + r == r;
    } else {
      assert (f + e + r)[0] == if f != [] then f[0] else e[0];
    }
  }

  lemma ReadsNumber(t: Tree, r: Units)
    requires t.TNum? && IsTree(t) && EndsNumber(r)
    ensures ParseNumber(Spelling(t) + r) == if Clean(t) then Some((SignedNumber(t.negative, t.digits), r)) else None
    ensures Spelling(t) != [] && (Spelling(t)[0] == MINUS || IsDigit(Spelling(t)[0]))
  {
    hide ParseMagnitude, Digits, EndsNumber, IsAscii, IsFraction, IsExponent, DigitsNumber;
    var d, tail := t.digits, t.fraction + t.exponent;
    var n := DigitsNumber(d);
    DigitsOfNumber(d);
    TailAhead(t.fraction, t.exponent, r);
    ReadsMagnitude(n, tail + r);
    Assoc(d, tail, r);
    NumberStart(t.negative, d, tail, r);
    if t.fraction == [] && t.exponent == [] { assert tail + r == r; }
  }

  lemma NumberStart(negative: bool, d: Units, tail: Units, r: Units)
    requires AreDigits(d)
    ensures var text := NumberText(negative, d, tail) + r;
            StartsWith(text, MINUS) == negative && (if negative then text[1..] else text) == (d + tail) + r
    ensures NumberText(negative, d, tail)[0] == if negative then MINUS else d[0]
  {
    var text := NumberText(negative, d, tail) + r;
    if negative {
      assert text[1..] == (d + tail) + r;
    } else {
      assert text == (d + tail) + r && text[0] == d[0];
    }
  }

  lemma ScansOne(digits: Units, r: Units)
    requires digits != [] && IsDigit(digits[0])
    ensures ScanDigits(digits + r, 0) == ScanDigits((digits + r)[1..], digits[0] - ZERO)
  {
  }

  // ---- Values ----

  /** A number is readable only if what follows does not continue it. */
  ghost predicate Separated(t: Tree, rest: Units) { t.TNum? ==> EndsNumber(rest) }

  ghost function Outcome(fits: bool, v: Value, rest: Units, nodes: nat): Read<Value> {
    if fits then Read(v, rest, nodes) else Fail
  }

  /** The exact verdict and result of the parser on the text of any tree. */
  lemma {:induction false} ReadsTree(t: Tree, rest: Units, depth: nat, nodes: nat)
    requires IsTree(t) && Separated(t, rest)
    ensures ParseValue(Spelling(t) + rest, depth, nodes)
         == Outcome(Fits(t, depth, nodes), ValueOf(t), rest, nodes + Nodes(t))
    decreases t, 0
  {
    if depth <= MAX_DEPTH && nodes < MAX_NODES {
      match t {
        case TArr(lead, es) => ReadsArray(t, rest, depth, nodes);
        case TObj(lead, ms) => ReadsObject(t, rest, depth, nodes);
        case _ => ReadsScalar(t, rest, nodes + 1);
      }
    }
  }

  lemma ReadsScalar(t: Tree, rest: Units, nodes: nat)
    requires IsTree(t) && Separated(t, rest) && !t.TArr? && !t.TObj?
    ensures Spelling(t)[0] != LBRACE && Spelling(t)[0] != LBRACKET
    ensures ParseScalar(Spelling(t) + rest, nodes) == Outcome(Clean(t), ValueOf(t), rest, nodes)
  {
    hide ParseNumber, NumberText, ParseString, StringText, DigitsNumber, IsFraction, IsExponent;
    var text := Spelling(t) + rest;
    match t
    case TNull => assert text[..4] == NULL && text[4..] == rest;
    case TBool(true) => assert text[..4] == TRUE && text[4..] == rest;
    case TBool(false) => assert text[..5] == FALSE && text[5..] == rest;
    case TNum(_, _, _, _) => ReadsNumber(t, rest);
    case TStr(ps) =>
      ReadsString(ps, rest, []);
      assert text[1..] == StringText(ps) + ([QUOTE] + rest);
      assert [] + StringValue(ps) == StringValue(ps);
  }

  lemma TextStart(t: Tree)
    requires IsTree(t)
    ensures Spelling(t) != [] && !IsSpace(Spelling(t)[0])
    ensures Spelling(t)[0] != RBRACE && Spelling(t)[0] != RBRACKET
  {
    if t.TNum? { NumberStart(t.negative, t.digits, t.fraction + t.exponent, []); }
  }

  /** Opening a bracket and skipping the white space behind it. */
  lemma OpensArray(lead: Units, body: Units, rest: Units)
    requires IsGap(lead) && body != [] && (!IsSpace(body[0]) || body[0] == RBRACE || body[0] == RBRACKET)
    ensures SkipSpace(([LBRACKET] + (lead + body) + rest)[1..]) == body + rest
    ensures SkipSpace(([LBRACE] + (lead + body) + rest)[1..]) == body + rest
  {
    assert ([LBRACKET] + (lead + body) + rest)[1..] == lead + (body + rest);
    assert ([LBRACE] + (lead + body) + rest)[1..] == lead + (body + rest);
    SkipsGap(lead, body + rest);
  }

  ghost predicate ElemsFit(es: seq<Elem>, depth: nat, nodes: nat)
    requires AreElems(es)
  {
    CleanElems(es) && ShallowElems(es, MAX_DEPTH - depth) && nodes + ElemNodes(es) <= MAX_NODES
  }

  ghost predicate MembersFit(taken: set<Units>, ms: seq<Member>, depth: nat, nodes: nat)
    requires AreMembers(ms)
  {
    KeysFresh(taken, ms) && CleanMembers(ms) && ShallowMembers(ms, MAX_DEPTH - depth)
    && nodes + MemberNodes(ms) <= MAX_NODES
  }

  lemma ArrayFits(t: Tree, depth: nat, nodes: nat)
    requires t.TArr? && IsTree(t) && depth <= MAX_DEPTH
    ensures IsGap(t.lead) && AreElems(t.elems) && ValueOf(t) == Arr(ElemValues(t.elems))
    ensures Fits(t, depth, nodes) <==> ElemsFit(t.elems, depth, nodes + 1)
    ensures Nodes(t) == 1 + ElemNodes(t.elems)
  {
  }

  lemma ObjectFits(t: Tree, depth: nat, nodes: nat)
    requires t.TObj? && IsTree(t) && depth <= MAX_DEPTH
    ensures IsGap(t.lead) && AreMembers(t.members) && ValueOf(t) == Obj(MemberValues(map[], t.members))
    ensures Fits(t, depth, nodes) <==> MembersFit({}, t.members, depth, nodes + 1)
    ensures Nodes(t) == 1 + MemberNodes(t.members)
  {
  }

  lemma ElemsFitStep(es: seq<Elem>, depth: nat, nodes: nat)
    requires AreElems(es)
    ensures es == [] ==>
      ElemNodes(es) == 0 && ElemValues(es) == []
      && (ElemsFit(es, depth, nodes) <==> nodes <= MAX_NODES)
    ensures es != [] ==>
      AreElems(es[1..]) && IsTree(es[0].value) && IsGap(es[0].after)
      && ElemNodes(es) == Nodes(es[0].value) + ElemNodes(es[1..])
      && ElemValues(es) == [ValueOf(es[0].value)] + ElemValues(es[1..])
      && (ElemsFit(es, depth, nodes) <==>
           Fits(es[0].value, depth + 1, nodes) && ElemsFit(es[1..], depth, nodes + Nodes(es[0].value)))
  {
    hide IsTree, IsGap, Clean, Shallow, Nodes, ValueOf;
  }

  lemma MembersFitStep(taken: set<Units>, ms: seq<Member>, acc: map<Units, Value>, depth: nat, nodes: nat)
    requires AreMembers(ms)
    ensures ms == [] ==>
      MemberNodes(ms) == 0 && MemberValues(acc, ms) == acc
      && (MembersFit(taken, ms, depth, nodes) <==> nodes <= MAX_NODES)
    ensures ms != [] ==>
      AreMembers(ms[1..]) && IsKey(ms[0]) && IsTree(ms[0].value) && IsGap(ms[0].after)
      && MemberNodes(ms) == Nodes(ms[0].value) + MemberNodes(ms[1..])
      && MemberValues(acc, ms) == MemberValues(acc[StringValue(ms[0].key) := ValueOf(ms[0].value)], ms[1..])
      && (MembersFit(taken, ms, depth, nodes) <==>
           StringValue(ms[0].key) !in taken && Fits(ms[0].value, depth + 1, nodes)
           && MembersFit(taken + {StringValue(ms[0].key)}, ms[1..], depth, nodes + Nodes(ms[0].value)))
  {
    hide IsTree, IsKey, IsGap, Clean, Shallow, Nodes, ValueOf, StringValue;
  }

  lemma ReadsArray(t: Tree, rest: Units, depth: nat, nodes: nat)
    requires t.TArr? && IsTree(t) && depth <= MAX_DEPTH && nodes < MAX_NODES
    ensures ParseValue(Spelling(t) + rest, depth, nodes)
         == Outcome(Fits(t, depth, nodes), ValueOf(t), rest, nodes + Nodes(t))
    decreases t.elems, 5
  {
    hide Fits, ElemsFit, Nodes, ElemNodes, ValueOf, ElemValues, ParseItems, AtElem;
    hide AreElems, IsGap, SkipSpace, IsSpace, ParseScalar, ParseMembers;
    var es := t.elems;
    ArrayFits(t, depth, nodes);
    ElemsFitStep(es, depth, nodes + 1);
    if es == [] {
      OpensArray(t.lead, [RBRACKET], rest);
      assert ([RBRACKET] + rest)[1..] == rest;
    } else {
      ElemStart(es);
      OpensArray(t.lead, AtElem(es), rest);
      ReadsElems(es, rest, depth, nodes + 1, []);
      assert [] + ElemValues(es) == ElemValues(es);
    }
  }

  lemma ElemStart(es: seq<Elem>)
    requires es != [] && AreElems(es)
    ensures AtElem(es) != [] && !IsSpace(AtElem(es)[0]) && AtElem(es)[0] != RBRACKET
  {
    TextStart(es[0].value);
  }

  lemma ReadsObject(t: Tree, rest: Units, depth: nat, nodes: nat)
    requires t.TObj? && IsTree(t) && depth <= MAX_DEPTH && nodes < MAX_NODES
    ensures ParseValue(Spelling(t) + rest, depth, nodes)
         == Outcome(Fits(t, depth, nodes), ValueOf(t), rest, nodes + Nodes(t))
    decreases t.members, 5
  {
    hide Fits, MembersFit, Nodes, MemberNodes, ValueOf, MemberValues, ParseMembers, AtMember;
    hide AreMembers, IsGap, SkipSpace, IsSpace, ParseScalar, ParseItems;
    var ms := t.members;
    ObjectFits(t, depth, nodes);
    MembersFitStep({}, ms, map[], depth, nodes + 1);
    if ms == [] {
      OpensArray(t.lead, [RBRACE], rest);
      assert ([RBRACE] + rest)[1..] == rest;
    } else {
      MemberStart(ms);
      OpensArray(t.lead, AtMember(ms), rest);
      var none: map<Units, Value> := map[];
      assert none.Keys == {};
      ReadsMembers(ms, rest, depth, nodes + 1, none);
    }
  }

  lemma MemberStart(ms: seq<Member>)
    requires ms != []
    ensures AtMember(ms) != [] && AtMember(ms)[0] == QUOTE && !IsSpace(QUOTE)
  {
  }

  lemma {:induction false} ReadsElems(es: seq<Elem>, rest: Units, depth: nat, nodes: nat, acc: seq<Value>)
    requires es != [] && AreElems(es)
    ensures ParseItems(AtElem(es) + rest, depth, nodes, acc)
         == Outcome(ElemsFit(es, depth, nodes), Arr(acc + ElemValues(es)), rest, nodes + ElemNodes(es))
    decreases es, 1
  {
    hide Fits, ElemsFit, Nodes, ElemNodes, ValueOf, ElemValues, IsTree, AreElems, IsGap;
    hide ParseSeparator, ParseValue, Spelling, AtElem, AfterElem, EndsNumber;
    var e, more := es[0], es[1..];
    ElemsFitStep(es, depth, nodes);
    var tail, n := e.after + AfterElem(more) + rest, nodes + Nodes(e.value);
    Assoc(acc, [ValueOf(e.value)], ElemValues(more));
    ElemSplit(es, rest);
    SeparatorAhead(e.after, more, rest);
    ElemsFitStep(more, depth, n);
    ReadsTree(e.value, tail, depth + 1, nodes);
    if Fits(e.value, depth + 1, nodes) {
      if more == [] {
        FitsBound(e.value, depth + 1, nodes);
        assert acc + [ValueOf(e.value)] + [] == acc + [ValueOf(e.value)];
      } else {
        ReadsElems(more, rest, depth, n, acc + [ValueOf(e.value)]);
      }
    }
  }

  lemma ElemSplit(es: seq<Elem>, rest: Units)
    requires es != []
    ensures AtElem(es) + rest == Spelling(es[0].value) + (es[0].after + AfterElem(es[1..]) + rest)
  {
    hide Spelling;
    Assoc(Spelling(es[0].value), es[0].after + AfterElem(es[1..]), rest);
  }

  lemma MemberSplit(ms: seq<Member>, rest: Units)
    requires ms != []
    ensures AtMember(ms) + rest
         == KeyText(ms[0]) + (Spelling(ms[0].value) + (ms[0].after + AfterMember(ms[1..]) + rest))
  {
    hide Spelling, KeyText;
    var m, tail := ms[0], ms[0].after + AfterMember(ms[1..]);
    Assoc(KeyText(m), Spelling(m.value) + tail, rest);
    Assoc(Spelling(m.value), tail, rest);
  }

  lemma FitsBound(t: Tree, depth: nat, nodes: nat)
    requires IsTree(t) && Fits(t, depth, nodes)
    ensures nodes + Nodes(t) <= MAX_NODES
  {
  }

  /** What follows an element is no part of a number, and is read as a separator. */
  lemma SeparatorAhead(after: Units, more: seq<Elem>, rest: Units)
    requires IsGap(after) && AreElems(more)
    ensures EndsNumber(after + AfterElem(more) + rest)
    ensures ParseSeparator(after + AfterElem(more) + rest, RBRACKET)
         == if more == [] then Closed(rest) else Next(AtElem(more) + rest)
  {
    hide AtElem, SkipSpace;
    var next := AfterElem(more) + rest;
    Assoc(after, AfterElem(more), rest);
    SkipsGap(after, next);
    if more == [] {
      assert next[1..] == rest;
    } else {
      ElemStart(more);
      assert next[1..] == more[0].gap + (AtElem(more) + rest);
      SkipsGap(more[0].gap, AtElem(more) + rest);
    }
  }

  lemma {:induction false} ReadsMembers(
    ms: seq<Member>, rest: Units, depth: nat, nodes: nat, acc: map<Units, Value>)
    requires ms != [] && AreMembers(ms)
    ensures ParseMembers(AtMember(ms) + rest, depth, nodes, acc)
         == Outcome(MembersFit(acc.Keys, ms, depth, nodes), Obj(MemberValues(acc, ms)), rest, nodes + MemberNodes(ms))
    decreases ms, 1
  {
    hide Fits, MembersFit, Nodes, MemberNodes, ValueOf, MemberValues, StringValue, IsTree, AreMembers, IsKey, IsGap;
    hide ParseKey, ParseSeparator, ParseValue, Spelling, KeyText, AtMember, AfterMember, EndsNumber, IsSpace;
    var m, more := ms[0], ms[1..];
    MembersFitStep(acc.Keys, ms, acc, depth, nodes);
    KeyDecodes(m);
    var key, n := StringValue(m.key), nodes + Nodes(m.value);
    var tail, next := m.after + AfterMember(more) + rest, acc[key := ValueOf(m.value)];
    MemberSplit(ms, rest);
    MemberSeparatorAhead(m.after, more, rest);
    TextStart(m.value);
    ReadsKey(m, Spelling(m.value) + tail, acc.Keys);
    assert next.Keys == acc.Keys + {key};
    MembersFitStep(next.Keys, more, next, depth, n);
    if key !in acc {
      ReadsTree(m.value, tail, depth + 1, nodes);
      if Fits(m.value, depth + 1, nodes) {
        if more == [] {
          FitsBound(m.value, depth + 1, nodes);
        } else {
          ReadsMembers(more, rest, depth, n, next);
        }
      }
    }
  }

  lemma KeyDecodes(m: Member)
    requires IsKey(m)
    ensures ArePieces(m.key)
  {
  }

  lemma ReadsKey(m: Member, r: Units, taken: set<Units>)
    requires IsKey(m) && r != [] && !IsSpace(r[0])
    ensures ParseKey(KeyText(m) + r, taken)
         == if StringValue(m.key) in taken then None else Some((StringValue(m.key), r))
  {
    hide ParseString, StringText, StringValue;
    var colon := [COLON] + m.afterColon + r;
    var inner := m.beforeColon + colon;
    assert (KeyText(m) + r)[1..] == StringText(m.key) + ([QUOTE] + inner);
    ReadsString(m.key, inner, []);
    assert [] + StringValue(m.key) == StringValue(m.key);
    SkipsGap(m.beforeColon, colon);
    assert colon[1..] == m.afterColon + r;
    SkipsGap(m.afterColon, r);
  }

  lemma MemberSeparatorAhead(after: Units, more: seq<Member>, rest: Units)
    requires IsGap(after) && AreMembers(more)
    ensures EndsNumber(after + AfterMember(more) + rest)
    ensures ParseSeparator(after + AfterMember(more) + rest, RBRACE)
         == if more == [] then Closed(rest) else Next(AtMember(more) + rest)
  {
    hide AtMember, SkipSpace;
    var next := AfterMember(more) + rest;
    Assoc(after, AfterMember(more), rest);
    SkipsGap(after, next);
    if more == [] {
      assert next[1..] == rest;
    } else {
      MemberStart(more);
      assert next[1..] == more[0].gap + (AtMember(more) + rest);
      SkipsGap(more[0].gap, AtMember(more) + rest);
    }
  }
}

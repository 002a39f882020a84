/** Canonical text and strict parsing are inverse to each other. */
module RoundTrip {
  import opened Unicode
  import opened Json
  import opened Budget
  import opened Encoders
  import opened StrictJson
  import opened Grammar
  import opened ParserSound

  // ---- A tree measures what its value measures ----

  /** Counting the items of an array depends on the remaining items only. */
  lemma {:induction false} CountItemsFrame(v: Value, i: nat, w: Value, j: nat)
    requires v.Arr? && w.Arr? && i <= |v.items| && j <= |w.items| && v.items[i..] == w.items[j..]
    ensures CountItems(v, i) == CountItems(w, j)
    decreases |v.items| - i
  {
    assert |v.items[i..]| == |w.items[j..]|;
    if i < |v.items| {
      assert v.items[i] == v.items[i..][0] == w.items[j..][0] == w.items[j];
      assert v.items[i + 1..] == v.items[i..][1..] && w.items[j + 1..] == w.items[j..][1..];
      CountItemsFrame(v, i + 1, w, j + 1);
    }
  }

  lemma CountCons(x: Value, items: seq<Value>)
    ensures Count(Arr([x] + items)) == Count(x) + Count(Arr(items))
  {
    var v := Arr([x] + items);
    assert v.items[1..] == items[0..];
    CountItemsFrame(v, 1, Arr(items), 0);
  }

  lemma {:induction false} CountMembersFrame(v: Value, w: Value, ks: set<Units>)
    requires v.Obj? && w.Obj? && ks <= v.members.Keys && ks <= w.members.Keys
    requires forall k | k in ks :: v.members[k] == w.members[k]
    ensures CountMembers(v, ks) == CountMembers(w, ks)
    decreases ks
  {
    if ks != {} {
      var k :| k in ks;
      CountPick(v, ks, k);
      CountPick(w, ks, k);
      CountMembersFrame(v, w, ks - {k});
    }
  }

  lemma CountInsert(m: map<Units, Value>, k: Units, x: Value)
    requires k !in m
    ensures Count(Obj(m[k := x])) == Count(Obj(m)) + Count(x)
  {
    var v := Obj(m[k := x]);
    CountPick(v, v.members.Keys, k);
    assert v.members.Keys - {k} == m.Keys;
    CountMembersFrame(v, Obj(m), m.Keys);
  }

  lemma {:induction false} StringIsScalar(ps: seq<Piece>)
    requires ArePieces(ps)
    ensures IsScalarString(StringValue(ps))
  {
    if ps != [] {
      StringIsScalar(ps[1..]);
      var head := PieceValue(ps[0]);
      assert IsScalarString(head) by { assert head[|head|..] == []; }
      CodePointsConcat(head, StringValue(ps[1..]));
    }
  }

  /** Nodes, depth and encodability can be read off the tree. */
  lemma {:induction false} TreeMeasures(t: Tree, d: int)
    requires IsTree(t) && Clean(t)
    ensures Nodes(t) == Count(ValueOf(t))
    ensures Shallow(t, d) <==> FitsDepth(ValueOf(t), d)
    ensures Encodable(ValueOf(t))
    decreases t, 0
  {
    match t
    case TStr(ps) => StringIsScalar(ps);
    case TArr(_, es) => ElemsMeasure(es, d - 1);
    case TObj(_, ms) => ObjectMeasures(t, d);
    case _ =>
  }

  lemma {:induction false} ElemsMeasure(es: seq<Elem>, d: int)
    requires AreElems(es) && CleanElems(es)
    ensures 1 + ElemNodes(es) == Count(Arr(ElemValues(es)))
    ensures ShallowElems(es, d) <==> forall i | 0 <= i < |ElemValues(es)| :: FitsDepth(ElemValues(es)[i], d)
    ensures forall i | 0 <= i < |ElemValues(es)| :: Encodable(ElemValues(es)[i])
    decreases es, 1
  {
    if es != [] {
      TreeMeasures(es[0].value, d);
      ElemsMeasure(es[1..], d);
      var x, vs := ValueOf(es[0].value), ElemValues(es[1..]);
      CountCons(x, vs);
      assert forall i | 0 <= i < |vs| :: ([x] + vs)[i + 1] == vs[i];
    }
  }

  lemma ObjectMeasures(t: Tree, d: int)
    requires t.TObj? && IsTree(t) && Clean(t)
    ensures Nodes(t) == Count(ValueOf(t))
    ensures Shallow(t, d) <==> FitsDepth(ValueOf(t), d)
    ensures Encodable(ValueOf(t))
    decreases t.members, 2
  {
    var none: map<Units, Value> := map[];
    assert none.Keys == {};
    MembersMeasure(none, t.members, d - 1);
  }

  ghost predicate AllFit(m: map<Units, Value>, d: int) { forall k | k in m :: FitsDepth(m[k], d) }

  ghost predicate AllEncodable(m: map<Units, Value>) { forall k | k in m :: IsScalarString(k) && Encodable(m[k]) }

  lemma {:induction false} MembersMeasure(acc: map<Units, Value>, ms: seq<Member>, d: int)
    requires AreMembers(ms) && CleanMembers(ms) && KeysFresh(acc.Keys, ms)
    ensures Count(Obj(MemberValues(acc, ms))) == Count(Obj(acc)) + MemberNodes(ms)
    ensures AllFit(MemberValues(acc, ms), d) <==> AllFit(acc, d) && ShallowMembers(ms, d)
    ensures AllEncodable(acc) ==> AllEncodable(MemberValues(acc, ms))
    decreases ms, 1
  {
    if ms != [] {
      var k, x := StringValue(ms[0].key), ValueOf(ms[0].value);
      var next := acc[k := x];
      TreeMeasures(ms[0].value, d);
      StringIsScalar(ms[0].key);
      CountInsert(acc, k, x);
      assert next.Keys == acc.Keys + {k};
      MembersMeasure(next, ms[1..], d);
      assert AllFit(next, d) <==> AllFit(acc, d) && FitsDepth(x, d) by {
        assert next[k] == x;
        assert forall j | j in acc :: next[j] == acc[j];
      }
    }
  }

  /** The check that closes `parse` accepts whatever was read. */
  lemma ParsedIsCanonicalizable(text: Units)
    ensures ParseText(text).Some? ==> Canonicalizable(ParseText(text).value)
  {
    if ParseText(text).Some? {
      var lead, t, trail := ParsedIsSpelled(text);
      TreeMeasures(t, MAX_DEPTH);
    }
  }

  // ---- The canonical text as a spelling ----

  /** The piece that spells the first character of a nonempty string canonically. */
  function CanonicalPiece(s: Units): Piece
    requires s != []
  {
    var u := s[0];
    if StartsWithPair(s) then RawPair(s[0], s[1])
    else if u == QUOTE || u == BACKSLASH then Short(u)
    else if u == 0x08 then Short(0x62)
    else if u == 0x09 then Short(0x74)
    else if u == 0x0A then Short(0x6E)
    else if u == 0x0C then Short(0x66)
    else if u == 0x0D then Short(0x72)
    else if u <= 0x1F then Hex([ZERO, ZERO, HexDigit(u / 16), HexDigit(u % 16)])
    else Raw(u)
  }

  function CanonicalPieces(s: Units): seq<Piece> {
    if s == [] then []
    else [CanonicalPiece(s)] + CanonicalPieces(s[if StartsWithPair(s) then 2 else 1..])
  }

  lemma CanonicalPieceSpells(s: Units)
    requires s != [] && IsScalarString(s)
    ensures var p, n := CanonicalPiece(s), if StartsWithPair(s) then 2 else 1;
      IsPiece(p) && PieceValue(p) == s[..n] && EscapeAll(s) == PieceText(p) + EscapeAll(s[n..])
  {
    if StartsWithPair(s) {
      EscapeAllPair(s);
    } else {
      var u := s[0];
      assert u <= 0x1F ==> HexDigit(u / 16) - 0x30 == u / 16;
    }
  }

  lemma {:induction false} CanonicalPiecesSpell(s: Units)
    requires IsScalarString(s)
    ensures ArePieces(CanonicalPieces(s))
    ensures StringText(CanonicalPieces(s)) == EscapeAll(s) && StringValue(CanonicalPieces(s)) == s
    decreases |s|
  {
    if s != [] {
      CanonicalPieceSpells(s);
      var n := if StartsWithPair(s) then 2 else 1;
      hide CanonicalPiece, PieceText, PieceValue, IsPiece, EscapeAll;
      CanonicalPiecesSpell(s[n..]);
      assert s == s[..n] + s[n..];
      assert CanonicalPieces(s)[1..] == CanonicalPieces(s[n..]);
    } else {
      assert EscapeAll(s) == [];
    }
  }

  ghost function CanonicalTree(v: Value): Tree
    decreases v, 1
  {
    match v
    case Null => TNull
    case Bool(b) => TBool(b)
    case Num(n) => IntegerTree(n)
    case Str(s) => TStr(CanonicalPieces(s))
    case Arr(_) => TArr([], CanonicalElems(v))
    case Obj(_) => TObj([], CanonicalMembers(v))
  }

  ghost function CanonicalElems(v: Value): seq<Elem>
    requires v.Arr?
    decreases v, 0
  {
    seq(|v.items|, i requires 0 <= i < |v.items| => Elem([], CanonicalTree(v.items[i]), []))
  }

  ghost function CanonicalMembers(v: Value): seq<Member>
    requires v.Obj?
    decreases v, 0
  {
    var ks := SortedKeys(ByScalar, v.members.Keys);
    seq(|ks|, i requires 0 <= i < |ks| =>
      assert ks[i] in ks; Member([], CanonicalPieces(ks[i]), [], [], CanonicalTree(v.members[ks[i]]), []))
  }

  /** What is proved of the canonical tree of `v`. */
  ghost predicate Canonical(t: Tree, v: Value, text: Units) {
    IsTree(t) && Clean(t) && ValueOf(t) == v && Spelling(t) == text
  }

  lemma {:induction false} CanonicalTreeSpells(v: Value)
    requires Encodable(v)
    ensures Canonical(CanonicalTree(v), v, Encode(v))
    decreases v, 3
  {
    match v
    case Num(n) => IntegerTreeSpells(n);
    case Str(s) =>
      CanonicalPiecesSpell(s);
      Assoc([QUOTE], EscapeAll(s), [QUOTE]);
    case Arr(_) => ArraySpells(v);
    case Obj(_) => ObjectSpells(v);
    case _ =>
  }

  lemma ArraySpells(v: Value)
    requires v.Arr? && Encodable(v)
    ensures Canonical(CanonicalTree(v), v, Encode(v))
    decreases v, 2
  {
    hide Spelling, IsTree, Clean, ValueOf, Encode, CanonicalTree;
    var es, items, parts := CanonicalElems(v), v.items, EncodeItems(v);
    forall i | 0 <= i < |items| ensures CanonicalElem(es[i], items[i], parts[i]) {
      CanonicalTreeSpells(items[i]);
    }
    ElemsCanonical(es, items, parts);
    CanonicalArray(v);
  }

  lemma ObjectSpells(v: Value)
    requires v.Obj? && Encodable(v)
    ensures Canonical(CanonicalTree(v), v, Encode(v))
    decreases v, 2
  {
    hide *;
    var ms, m, parts := CanonicalMembers(v), v.members, EncodeMembers(v);
    var ks := SortedKeys(ByScalar, m.Keys);
    MembersListed(v);
    forall i | 0 <= i < |ks| ensures CanonicalMember(ms[i], ks[i], m[ks[i]], parts[i]) {
      MemberSpells(v, ks[i]);
    }
    KeysDistinct(ByScalar, m.Keys);
    var none: map<Units, Value> := map[];
    assert none.Keys == {};
    MembersCanonical(none, ms, ks, m, parts);
    CanonicalObject(v);
  }

  lemma MembersListed(v: Value)
    requires v.Obj?
    ensures var ms, ks, parts := CanonicalMembers(v), SortedKeys(ByScalar, v.members.Keys), EncodeMembers(v);
      |ms| == |ks| == |parts| && forall i | 0 <= i < |ks| ::
        ks[i] in v.members && parts[i] == EncodeMember(v, ks[i])
        && ms[i] == Member([], CanonicalPieces(ks[i]), [], [], CanonicalTree(v.members[ks[i]]), [])
  {
    hide EncodeMember, CanonicalPieces, CanonicalTree;
    var ks := SortedKeys(ByScalar, v.members.Keys);
    forall i | 0 <= i < |ks| ensures ks[i] in v.members {
      assert ks[i] in ks;
    }
  }

  lemma MemberSpells(v: Value, k: Units)
    requires v.Obj? && Encodable(v) && k in v.members
    ensures CanonicalMember(Member([], CanonicalPieces(k), [], [], CanonicalTree(v.members[k]), []),
                            k, v.members[k], EncodeMember(v, k))
    decreases v, 1
  {
    hide CanonicalMember, Canonical, CanonicalTree;
    CanonicalTreeSpells(v.members[k]);
    CanonicalPiecesSpell(k);
    MemberCanonical(k, v.members[k]);
  }

  ghost predicate CanonicalElem(e: Elem, v: Value, text: Units) {
    e.gap == [] && e.after == [] && Canonical(e.value, v, text)
  }

  ghost predicate CanonicalMember(m: Member, k: Units, v: Value, text: Units) {
    IsKey(m) && m.gap == [] && m.after == [] && StringValue(m.key) == k
    && IsTree(m.value) && Clean(m.value) && ValueOf(m.value) == v
    && KeyText(m) + Spelling(m.value) == text
  }

  lemma MemberCanonical(k: Units, v: Value)
    requires Canonical(CanonicalTree(v), v, Encode(v))
    requires ArePieces(CanonicalPieces(k)) && StringValue(CanonicalPieces(k)) == k
    requires StringText(CanonicalPieces(k)) == EscapeAll(k)
    ensures CanonicalMember(Member([], CanonicalPieces(k), [], [], CanonicalTree(v), []), k, v, Pair(k, Encode(v)))
  {
    hide Spelling, Encode, EscapeAll, CanonicalPieces, CanonicalTree;
    var m := Member([], CanonicalPieces(k), [], [], CanonicalTree(v), []);
    assert [COLON] + m.afterColon == [COLON];
    assert m.beforeColon + [COLON] == [COLON];
    Assoc([QUOTE], EscapeAll(k), [QUOTE] + [COLON]);
    Assoc([QUOTE] + EscapeAll(k), [QUOTE], [COLON]);
  }

  /** Elements without white space spell the joined parts and the bracket. */
  lemma {:induction false} ElemsCanonical(es: seq<Elem>, items: seq<Value>, parts: seq<Units>)
    requires |es| == |items| == |parts|
    requires forall i | 0 <= i < |es| :: CanonicalElem(es[i], items[i], parts[i])
    ensures AreElems(es) && CleanElems(es) && ElemValues(es) == items
    ensures AfterElem(es) == JoinRest(COMMA, parts) + [RBRACKET]
    ensures es != [] ==> AtElem(es) == Join(COMMA, parts) + [RBRACKET]
  {
    hide Spelling, IsTree, Clean, ValueOf;
    if es != [] {
      ElemsCanonical(es[1..], items[1..], parts[1..]);
      assert CanonicalElem(es[0], items[0], parts[0]);
      var rest := JoinRest(COMMA, parts[1..]);
      assert es[0].after + AfterElem(es[1..]) == AfterElem(es[1..]);
      Assoc(parts[0], rest, [RBRACKET]);
      assert es[0].gap + AtElem(es) == AtElem(es);
      Assoc([COMMA] + parts[0], rest, [RBRACKET]);
      Assoc([COMMA], parts[0], rest + [RBRACKET]);
    }
  }

  lemma CanonicalArray(v: Value)
    requires v.Arr?
    requires CanonicalElems(v) != [] ==>
      AtElem(CanonicalElems(v)) == Join(COMMA, EncodeItems(v)) + [RBRACKET]
    requires AreElems(CanonicalElems(v)) && CleanElems(CanonicalElems(v))
    requires ElemValues(CanonicalElems(v)) == v.items
    ensures Canonical(CanonicalTree(v), v, Encode(v))
  {
    hide AtElem, CanonicalElems;
    var body := Join(COMMA, EncodeItems(v));
    Assoc([LBRACKET], body, [RBRACKET]);
    if |CanonicalElems(v)| == 0 {
      assert v.items == [] && body == [];
    } else {
      assert [] + AtElem(CanonicalElems(v)) == AtElem(CanonicalElems(v));
    }
  }

  lemma CanonicalObject(v: Value)
    requires v.Obj?
    requires CanonicalMembers(v) != [] ==>
      AtMember(CanonicalMembers(v)) == Join(COMMA, EncodeMembers(v)) + [RBRACE]
    requires AreMembers(CanonicalMembers(v)) && CleanMembers(CanonicalMembers(v))
    requires KeysFresh({}, CanonicalMembers(v)) && MemberValues(map[], CanonicalMembers(v)) == v.members
    ensures Canonical(CanonicalTree(v), v, Encode(v))
  {
    hide AtMember;
    var body := Join(COMMA, EncodeMembers(v));
    Assoc([LBRACE], body, [RBRACE]);
    if |CanonicalMembers(v)| == 0 {
      assert EncodeMembers(v) == [] && body == [];
    } else {
      assert [] + AtMember(CanonicalMembers(v)) == AtMember(CanonicalMembers(v));
    }
  }

  ghost predicate Distinct(ks: seq<Units>) { forall i, j | 0 <= i < j < |ks| :: ks[i] != ks[j] }

  lemma {:induction false} KeysDistinct(o: KeyOrder, ks: set<Units>)
    ensures Distinct(SortedKeys(o, ks))
    decreases ks
  {
    if ks != {} {
      var k := LeastKey(o, ks);
      var r, rest := SortedKeys(o, ks), SortedKeys(o, ks - {k});
      KeysDistinct(o, ks - {k});
      hide SortedKeys, LeastKey;
      forall i, j | 0 <= i < j < |r| ensures r[i] != r[j] {
        assert r[j] == rest[j - 1] && rest[j - 1] in rest;
        if i > 0 { assert r[i] == rest[i - 1]; }
      }
    }
  }

  /** Members with distinct keys collect exactly the entries they list. */
  lemma {:induction false} MembersCanonical(
    acc: map<Units, Value>, ms: seq<Member>, ks: seq<Units>, m: map<Units, Value>, parts: seq<Units>)
    requires |ms| == |ks| == |parts| && Distinct(ks)
    requires forall i | 0 <= i < |ks| ::
               ks[i] !in acc && ks[i] in m && CanonicalMember(ms[i], ks[i], m[ks[i]], parts[i])
    requires forall k | k in m :: k in acc || k in ks
    requires forall k | k in acc :: k in m && acc[k] == m[k]
    ensures AreMembers(ms) && CleanMembers(ms) && KeysFresh(acc.Keys, ms) && MemberValues(acc, ms) == m
    ensures AfterMember(ms) == JoinRest(COMMA, parts) + [RBRACE]
    ensures ms != [] ==> AtMember(ms) == Join(COMMA, parts) + [RBRACE]
    decreases |ms|
  {
    hide Spelling, IsTree, Clean, ValueOf, KeyText, StringValue;
    if ms == [] {
      assert acc == m;
    } else {
      assert CanonicalMember(ms[0], ks[0], m[ks[0]], parts[0]);
      var next := acc[ks[0] := m[ks[0]]];
      assert next.Keys == acc.Keys + {ks[0]};
      MembersCanonical(next, ms[1..], ks[1..], m, parts[1..]);
      var rest := JoinRest(COMMA, parts[1..]);
      assert ms[0].after + AfterMember(ms[1..]) == AfterMember(ms[1..]);
      Assoc(KeyText(ms[0]), Spelling(ms[0].value), rest + [RBRACE]);
      Assoc(parts[0], rest, [RBRACE]);
      assert ms[0].gap + AtMember(ms) == AtMember(ms);
      Assoc([COMMA] + parts[0], rest, [RBRACE]);
      Assoc([COMMA], parts[0], rest + [RBRACE]);
    }
  }

  // ---- Main results ----

  /** Parsing the canonical text gives back the value. */
  lemma CanonicalTextParses(v: Value)
    requires Canonicalizable(v)
    ensures ParseText(Encode(v)) == Some(v)
  {
    CanonicalTreeSpells(v);
    var t := CanonicalTree(v);
    TreeMeasures(t, MAX_DEPTH);
    assert [] + (Encode(v) + []) == Encode(v);
    ParseSpelling(Encode(v), [], t, []);
  }

  /** The canonical bytes determine the value. */
  lemma EncodingInjective(v: Value, w: Value)
    requires Canonicalizable(v) && Canonicalizable(w)
    requires Utf8Units(Encode(v)) == Utf8Units(Encode(w))
    ensures v == w
  {
    Utf8UnitsInjective(Encode(v), Encode(w));
    CanonicalTextParses(v);
    CanonicalTextParses(w);
  }

  /** Two accepted texts re-encode to the same canonical bytes exactly when they
      spell the same value, whatever the white space, member order and escapes
      of each; and those bytes parse to that value. */
  lemma SpellingsConverge(
    a: Units, leadA: Units, t: Tree, trailA: Units, b: Units, leadB: Units, u: Tree, trailB: Units)
    requires Spells(a, leadA, t, trailA) && Fits(t, 1, 0)
    requires Spells(b, leadB, u, trailB) && Fits(u, 1, 0)
    ensures ParseText(a) == Some(ValueOf(t)) && ParseText(b) == Some(ValueOf(u))
    ensures Utf8Units(Encode(ValueOf(t))) == Utf8Units(Encode(ValueOf(u))) <==> ValueOf(t) == ValueOf(u)
    ensures ParseText(Encode(ValueOf(t))) == Some(ValueOf(t))
  {
    ParseSpelling(a, leadA, t, trailA);
    ParseSpelling(b, leadB, u, trailB);
    ParsedIsCanonicalizable(a);
    ParsedIsCanonicalizable(b);
    CanonicalTextParses(ValueOf(t));
    if Utf8Units(Encode(ValueOf(t))) == Utf8Units(Encode(ValueOf(u))) { EncodingInjective(ValueOf(t), ValueOf(u)); }
  }
}

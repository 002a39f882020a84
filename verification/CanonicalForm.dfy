/** What canonical text looks like, said of the text through the grammar. */
module CanonicalForm {
  import opened Unicode
  import opened Json
  import opened StrictJson
  import opened Grammar
  import opened ParserComplete
  import opened RoundTrip

  // ---- The form ----

  /** At the first position where they differ `a` has the lower code point, or `a` ends first. */
  ghost predicate Precedes(a: seq<nat>, b: seq<nat>) {
    exists i | 0 <= i <= |a| && i <= |b| :: DiffersAt(a, b, i)
  }

  predicate DiffersAt(a: seq<nat>, b: seq<nat>, i: nat)
    requires i <= |a| && i <= |b|
  {
    a[..i] == b[..i] && i < |b| && (i == |a| || a[i] < b[i])
  }

  ghost predicate Ascending(keys: seq<Units>) {
    forall i, j | 0 <= i < j < |keys| :: Precedes(CodePoints(keys[i]), CodePoints(keys[j]))
  }

  /** Written as itself if that is allowed, else by the short escape, else by
      four digits in lower case. */
  predicate IsPlain(p: Piece) {
    match p
    case Raw(_) => true
    case RawPair(_, _) => true
    case Short(letter) => letter != 0x2F
    case Hex(d) =>
      AreHex(d) && HexUnit(d) <= 0x1F && HexUnit(d) !in {0x08, 0x09, 0x0A, 0x0C, 0x0D}
      && forall i | 0 <= i < |d| :: !(0x41 <= d[i] <= 0x46)
    case HexPair(_, _) => false
  }

  predicate ArePlain(ps: seq<Piece>) { forall i | 0 <= i < |ps| :: IsPlain(ps[i]) }

  /** The decoded keys in the order in which they are written. */
  ghost function Keys(ms: seq<Member>): (r: seq<Units>)
    requires AreMembers(ms)
    ensures |r| == |ms|
  {
    if ms == [] then [] else [StringValue(ms[0].key)] + Keys(ms[1..])
  }

  /** No white space, plain strings, no fraction or exponent, and members in
      strictly ascending code-point order of their keys, at every level. */
  ghost predicate IsCanonical(t: Tree)
    requires IsTree(t)
  {
    match t
    case TNum(_, _, f, e) => f == [] && e == []
    case TStr(ps) => ArePlain(ps)
    case TArr(lead, es) => lead == [] && CanonicalItems(es)
    case TObj(lead, ms) => lead == [] && Ascending(Keys(ms)) && CanonicalEntries(ms)
    case _ => true
  }

  ghost predicate CanonicalItems(es: seq<Elem>)
    requires AreElems(es)
  {
    es == [] || (es[0].gap == [] && IsCanonical(es[0].value) && es[0].after == [] && CanonicalItems(es[1..]))
  }

  ghost predicate CanonicalEntries(ms: seq<Member>)
    requires AreMembers(ms)
  {
    ms == [] || (IsTight(ms[0]) && IsCanonical(ms[0].value) && CanonicalEntries(ms[1..]))
  }

  predicate IsTight(m: Member) {
    m.gap == [] && ArePlain(m.key) && m.beforeColon == [] && m.afterColon == [] && m.after == []
  }

  // ---- Ascending key lists ----

  lemma {:induction false} LexIsPrecedes(a: seq<nat>, b: seq<nat>)
    ensures LexLess(a, b) <==> Precedes(a, b)
  {
    if a != [] && b != [] && a[0] == b[0] {
      LexIsPrecedes(a[1..], b[1..]);
      PrecedesTail(a, b);
    } else if LexLess(a, b) {
      assert DiffersAt(a, b, 0);
    } else {
      forall i | 0 <= i <= |a| && i <= |b| ensures !DiffersAt(a, b, i) {
        if i > 0 { assert a[..i][0] == a[0] && b[..i][0] == b[0]; }
      }
    }
  }

  lemma PrecedesTail(a: seq<nat>, b: seq<nat>)
    requires a != [] && b != [] && a[0] == b[0]
    ensures Precedes(a, b) <==> Precedes(a[1..], b[1..])
  {
    if Precedes(a, b) {
      var i :| 0 <= i <= |a| && i <= |b| && DiffersAt(a, b, i);
      assert i > 0 && a[1..][..i - 1] == a[..i][1..] && b[1..][..i - 1] == b[..i][1..];
      assert DiffersAt(a[1..], b[1..], i - 1);
    }
    if Precedes(a[1..], b[1..]) {
      var i :| 0 <= i <= |a| - 1 && i <= |b| - 1 && DiffersAt(a[1..], b[1..], i);
      assert a[..i + 1] == [a[0]] + a[1..][..i] && b[..i + 1] == [b[0]] + b[1..][..i];
      assert DiffersAt(a, b, i + 1);
    }
  }

  /** The sorted keys ascend. */
  lemma {:induction false} SortedAscend(ks: set<Units>)
    ensures Ascending(SortedKeys(ByScalar, ks))
    decreases ks
  {
    if ks != {} {
      var k := LeastKey(ByScalar, ks);
      var r, rest := SortedKeys(ByScalar, ks), SortedKeys(ByScalar, ks - {k});
      SortedAscend(ks - {k});
      hide SortedKeys, LeastKey;
      forall i, j | 0 <= i < j < |r| ensures Precedes(CodePoints(r[i]), CodePoints(r[j])) {
        assert r[j] == rest[j - 1] && rest[j - 1] in rest;
        if i > 0 {
          assert r[i] == rest[i - 1];
        } else {
          LexIsPrecedes(CodePoints(r[i]), CodePoints(r[j]));
        }
      }
    }
  }

  lemma PrecedesOneWay(a: Units, b: Units)
    requires Precedes(CodePoints(a), CodePoints(b))
    ensures !Precedes(CodePoints(b), CodePoints(a)) && a != b
  {
    LexIsPrecedes(CodePoints(a), CodePoints(b));
    LexIsPrecedes(CodePoints(b), CodePoints(a));
    LexTotal(CodePoints(a), CodePoints(b));
  }

  /** A set of keys has one ascending list. */
  lemma {:induction false} AscendingUnique(a: seq<Units>, b: seq<Units>)
    requires Ascending(a) && Ascending(b) && forall k :: k in a <==> k in b
    ensures a == b
  {
    hide Precedes, CodePoints;
    if a == [] {
      NonemptyHas(b);
    } else {
      assert a[0] in b;
      FirstIsFirst(a, b);
      TailKeys(a);
      TailKeys(b);
      AscendingUnique(a[1..], b[1..]);
    }
  }

  lemma NonemptyHas(a: seq<Units>)
    ensures a != [] ==> exists k :: k in a
  {
    if a != [] { assert a[0] in a; }
  }

  lemma FirstIsFirst(a: seq<Units>, b: seq<Units>)
    requires Ascending(a) && Ascending(b) && a != [] && b != [] && a[0] in b && b[0] in a
    ensures a[0] == b[0]
  {
    hide Precedes, CodePoints;
    var i :| 0 <= i < |b| && b[i] == a[0];
    var j :| 0 <= j < |a| && a[j] == b[0];
    if i > 0 && j > 0 { PrecedesOneWay(a[0], b[0]); }
  }

  lemma TailKeys(a: seq<Units>)
    requires Ascending(a) && a != []
    ensures Ascending(a[1..]) && forall k :: k in a[1..] <==> k in a && k != a[0]
  {
    hide Precedes, CodePoints;
    forall i | 0 <= i < |a| - 1 ensures a[1..][i] != a[0] {
      PrecedesOneWay(a[0], a[i + 1]);
    }
    assert a == [a[0]] + a[1..];
  }

  // ---- One canonical tree for each value ----

  lemma PlainHex(d: Units)
    requires IsPlain(Hex(d))
    ensures d == [ZERO, ZERO, HexDigit(HexUnit(d) / 16), HexDigit(HexUnit(d) % 16)]
  {
    var a, b, c, e := HexValue(d[0]).value, HexValue(d[1]).value, HexValue(d[2]).value, HexValue(d[3]).value;
    assert HexUnit(d) == ((a * 16 + b) * 16 + c) * 16 + e;
    assert a == 0 && b == 0 && HexUnit(d) / 16 == c && HexUnit(d) % 16 == e;
  }

  lemma PlainPiece(p: Piece, rest: Units)
    requires IsPiece(p) && IsPlain(p)
    ensures CanonicalPiece(PieceValue(p) + rest) == p
    ensures |PieceValue(p)| == if StartsWithPair(PieceValue(p) + rest) then 2 else 1
  {
    if p.Hex? { PlainHex(p.digits); }
  }

  lemma {:induction false} PlainString(ps: seq<Piece>)
    requires ArePieces(ps) && ArePlain(ps)
    ensures CanonicalPieces(StringValue(ps)) == ps
  {
    if ps != [] {
      PlainString(ps[1..]);
      var rest := StringValue(ps[1..]);
      PlainPiece(ps[0], rest);
      hide CanonicalPiece, PieceValue, IsPiece, IsPlain;
      var s := PieceValue(ps[0]) + rest;
      assert s[|PieceValue(ps[0])|..] == rest;
    }
  }

  /** Each piece of a canonical string is plain. */
  lemma {:induction false} CanonicalIsPlain(s: Units)
    requires IsScalarString(s)
    ensures ArePlain(CanonicalPieces(s))
    decreases |s|
  {
    if s != [] {
      var p, n := CanonicalPiece(s), if StartsWithPair(s) then 2 else 1;
      FirstIsPlain(s);
      CanonicalIsPlain(s[n..]);
      hide CanonicalPiece, IsPlain;
      var rest := CanonicalPieces(s[n..]);
      assert CanonicalPieces(s) == [p] + rest;
      forall i | 0 <= i < |rest| + 1 ensures IsPlain(([p] + rest)[i]) {
        if i > 0 { assert IsPlain(rest[i - 1]); }
      }
    }
  }

  lemma FirstIsPlain(s: Units)
    requires s != [] && IsScalarString(s)
    ensures IsPlain(CanonicalPiece(s))
  {
    var u := s[0];
    if u <= 0x1F && u !in {0x08, 0x09, 0x0A, 0x0C, 0x0D} && !StartsWithPair(s) {
      var d := [ZERO, ZERO, HexDigit(u / 16), HexDigit(u % 16)];
      assert HexValue(d[2]) == Some(u / 16) && HexValue(d[3]) == Some(u % 16);
      assert HexUnit(d) == u;
    }
  }

  lemma {:induction false} KeysAt(ms: seq<Member>, i: nat)
    requires AreMembers(ms) && i < |ms|
    ensures IsKey(ms[i]) && IsTree(ms[i].value) && Keys(ms)[i] == StringValue(ms[i].key)
  {
    hide IsTree, IsKey, StringValue;
    if i > 0 { KeysAt(ms[1..], i - 1); }
  }

  /** The value of the member at a position. */
  ghost function ValueAt(ms: seq<Member>, i: nat): Value
    requires AreMembers(ms) && i < |ms|
  {
    KeysAt(ms, i);
    ValueOf(ms[i].value)
  }

  /** With fresh keys the object has exactly the members that are written. */
  lemma {:induction false} MembersWritten(acc: map<Units, Value>, ms: seq<Member>)
    requires AreMembers(ms) && KeysFresh(acc.Keys, ms)
    ensures var m := MemberValues(acc, ms);
            (forall k :: k in m <==> k in acc || k in Keys(ms))
            && (forall k | k in acc :: m[k] == acc[k])
            && forall i | 0 <= i < |ms| :: Keys(ms)[i] in m && m[Keys(ms)[i]] == ValueAt(ms, i)
    decreases |ms|
  {
    hide IsTree, StringValue, ValueOf;
    if ms != [] {
      var k, x, more := StringValue(ms[0].key), ValueOf(ms[0].value), ms[1..];
      var next := acc[k := x];
      assert next.Keys == acc.Keys + {k};
      MembersWritten(next, more);
      var m := MemberValues(acc, ms);
      forall i | 0 <= i < |ms| ensures Keys(ms)[i] in m && m[Keys(ms)[i]] == ValueAt(ms, i) {
        if i > 0 { assert Keys(ms)[i] == Keys(more)[i - 1] && ValueAt(ms, i) == ValueAt(more, i - 1); }
      }
    }
  }

  /** A canonical tree is the canonical tree of its value. */
  lemma {:induction false} CanonicalUnique(t: Tree)
    requires IsTree(t) && Clean(t) && IsCanonical(t)
    ensures t == CanonicalTree(ValueOf(t))
    decreases t, 0
  {
    match t
    case TNum(negative, d, _, _) => DigitsOfNumber(d);
    case TStr(ps) => PlainString(ps);
    case TArr(_, es) => ItemsUnique(es);
    case TObj(_, ms) => EntriesUnique(ms); ObjectUnique(t);
    case _ =>
  }

  lemma {:induction false} ItemsUnique(es: seq<Elem>)
    requires AreElems(es) && CleanElems(es) && CanonicalItems(es)
    ensures |ElemValues(es)| == |es|
    ensures forall i | 0 <= i < |es| :: es[i] == Elem([], CanonicalTree(ElemValues(es)[i]), [])
    decreases es, 1
  {
    if es != [] {
      CanonicalUnique(es[0].value);
      ItemsUnique(es[1..]);
      hide IsTree, Clean, IsCanonical, ValueOf, CanonicalTree;
      assert forall i | 0 < i < |es| :: es[i] == es[1..][i - 1] && ElemValues(es)[i] == ElemValues(es[1..])[i - 1];
    }
  }

  ghost predicate EntryIs(m: Member, k: Units, v: Value) {
    m == Member([], CanonicalPieces(k), [], [], CanonicalTree(v), [])
  }

  lemma {:induction false} EntriesUnique(ms: seq<Member>)
    requires AreMembers(ms) && CleanMembers(ms) && CanonicalEntries(ms)
    ensures forall i | 0 <= i < |ms| :: EntryIs(ms[i], Keys(ms)[i], ValueAt(ms, i))
    decreases ms, 1
  {
    if ms != [] {
      CanonicalUnique(ms[0].value);
      PlainString(ms[0].key);
      EntriesUnique(ms[1..]);
      hide IsTree, Clean, IsCanonical, ValueOf, CanonicalTree, StringValue, CanonicalPieces, IsPlain;
      forall i | 0 <= i < |ms| ensures EntryIs(ms[i], Keys(ms)[i], ValueAt(ms, i)) {
        if i > 0 { assert EntryIs(ms[1..][i - 1], Keys(ms[1..])[i - 1], ValueAt(ms[1..], i - 1)); }
      }
    }
  }

  lemma ObjectUnique(t: Tree)
    requires t.TObj? && IsTree(t) && Clean(t) && IsCanonical(t)
    requires forall i | 0 <= i < |t.members| :: EntryIs(t.members[i], Keys(t.members)[i], ValueAt(t.members, i))
    ensures t == CanonicalTree(ValueOf(t))
  {
    hide CanonicalEntries, CleanMembers, ValueAt, SortedKeys, CanonicalPieces, MemberValues, Ascending;
    var ms, v := t.members, ValueOf(t);
    var none: map<Units, Value> := map[];
    assert none.Keys == {};
    MembersWritten(none, ms);
    SortedAscend(v.members.Keys);
    AscendingUnique(Keys(ms), SortedKeys(ByScalar, v.members.Keys));
    MembersListed(v);
    assert ms == CanonicalMembers(v);
  }

  lemma {:induction false} CanonicalTreeForm(v: Value)
    requires Encodable(v)
    ensures IsTree(CanonicalTree(v)) && Clean(CanonicalTree(v)) && IsCanonical(CanonicalTree(v))
    decreases v, 1
  {
    CanonicalTreeSpells(v);
    match v
    case Str(s) => CanonicalIsPlain(s);
    case Arr(items) =>
      forall i | 0 <= i < |items| ensures IsTree(CanonicalTree(items[i])) && IsCanonical(CanonicalTree(items[i])) {
        CanonicalTreeForm(items[i]);
      }
      ItemsForm(CanonicalElems(v));
    case Obj(m) =>
      forall k | k in m
        ensures IsScalarString(k) && IsTree(CanonicalTree(m[k])) && IsCanonical(CanonicalTree(m[k]))
      {
        CanonicalTreeForm(m[k]);
      }
      ObjectForm(v);
    case _ =>
  }

  lemma {:induction false} ItemsForm(es: seq<Elem>)
    requires AreElems(es)
    requires forall i | 0 <= i < |es| ::
               es[i].gap == [] && es[i].after == [] && IsTree(es[i].value) && IsCanonical(es[i].value)
    ensures CanonicalItems(es)
  {
    hide IsTree, IsCanonical;
    if es != [] { ItemsForm(es[1..]); }
  }

  lemma {:induction false} EntriesForm(ms: seq<Member>)
    requires AreMembers(ms)
    requires forall i | 0 <= i < |ms| :: IsTight(ms[i]) && IsTree(ms[i].value) && IsCanonical(ms[i].value)
    ensures CanonicalEntries(ms)
  {
    hide IsTree, IsCanonical, IsTight;
    if ms != [] { EntriesForm(ms[1..]); }
  }

  lemma ObjectForm(v: Value)
    requires v.Obj? && IsTree(CanonicalTree(v))
    requires forall k | k in v.members ::
               IsScalarString(k) && IsTree(CanonicalTree(v.members[k])) && IsCanonical(CanonicalTree(v.members[k]))
    ensures IsCanonical(CanonicalTree(v))
  {
    var ms, ks := CanonicalMembers(v), SortedKeys(ByScalar, v.members.Keys);
    MembersListed(v);
    SortedAscend(v.members.Keys);
    hide SortedKeys, CanonicalPieces, CanonicalMembers, Ascending, ArePlain;
    assert CanonicalTree(v) == TObj([], ms);
    forall i | 0 <= i < |ms|
      ensures IsTight(ms[i]) && IsTree(ms[i].value) && IsCanonical(ms[i].value) && Keys(ms)[i] == ks[i]
    {
      CanonicalIsPlain(ks[i]);
      CanonicalPiecesSpell(ks[i]);
      KeysAt(ms, i);
    }
    EntriesForm(ms);
    assert Keys(ms) == ks;
  }

  /** The text spells the value in canonical form. */
  ghost predicate SpellsCanonically(t: Tree, v: Value, text: Units) {
    IsTree(t) && Clean(t) && IsCanonical(t) && ValueOf(t) == v && Spelling(t) == text
  }

  /** The canonical text of a value is its one spelling without white space, with
      plain strings and with members in ascending code-point order everywhere. */
  lemma CanonicalTextExactly(v: Value, text: Units)
    requires Encodable(v)
    ensures text == Encode(v) <==> exists t :: SpellsCanonically(t, v, text)
  {
    hide Encode, IsTree, Clean, IsCanonical, ValueOf, Spelling, Encodable;
    if text == Encode(v) {
      CanonicalTreeSpells(v);
      CanonicalTreeForm(v);
      assert SpellsCanonically(CanonicalTree(v), v, text);
    }
    if t :| SpellsCanonically(t, v, text) {
      CanonicalUnique(t);
      CanonicalTreeSpells(v);
    }
  }

  // ---- No spelling is shorter ----

  /** The least number of code units that spell the value. A member is counted
      with the comma or brace behind it, an item with the comma or bracket. */
  ghost function Weight(v: Value): (n: nat)
    decreases v, 2
  {
    match v
    case Null => 4
    case Bool(b) => if b then 4 else 5
    case Num(n) => |Decimal(n)|
    case Str(s) => 2 + |EscapeAll(s)|
    case Arr(items) => 1 + (if items == [] then 1 else ItemsWeight(v, 0))
    case Obj(m) => 1 + (if m == map[] then 1 else MembersWeight(v, m.Keys))
  }

  ghost function ItemsWeight(v: Value, i: nat): nat
    requires v.Arr? && i <= |v.items|
    decreases v, 1, |v.items| - i
  {
    if i == |v.items| then 0 else Weight(v.items[i]) + 1 + ItemsWeight(v, i + 1)
  }

  ghost function MemberWeight(v: Value, k: Units): nat
    requires v.Obj? && k in v.members
    decreases v, 0
  {
    2 + |EscapeAll(k)| + 1 + Weight(v.members[k]) + 1
  }

  ghost function MembersWeight(v: Value, ks: set<Units>): nat
    requires v.Obj? && ks <= v.members.Keys
    decreases v, 1, ks
  {
    if ks == {} then 0
    else
      var k :| k in ks;
      MemberWeight(v, k) + MembersWeight(v, ks - {k})
  }

  lemma {:induction false} WeightPick(v: Value, ks: set<Units>, k: Units)
    requires v.Obj? && ks <= v.members.Keys && k in ks
    ensures MembersWeight(v, ks) == MemberWeight(v, k) + MembersWeight(v, ks - {k})
    decreases ks
  {
    var j :| j in ks && MembersWeight(v, ks) == MemberWeight(v, j) + MembersWeight(v, ks - {j});
    if j != k {
      WeightPick(v, ks - {j}, k);
      WeightPick(v, ks - {k}, j);
      assert ks - {j} - {k} == ks - {k} - {j};
    }
  }

  lemma {:induction false} MembersWeightFrame(v: Value, w: Value, ks: set<Units>)
    requires v.Obj? && w.Obj? && ks <= v.members.Keys && ks <= w.members.Keys
    requires forall k | k in ks :: v.members[k] == w.members[k]
    ensures MembersWeight(v, ks) == MembersWeight(w, ks)
    decreases ks
  {
    if ks != {} {
      var k :| k in ks;
      WeightPick(v, ks, k);
      WeightPick(w, ks, k);
      MembersWeightFrame(v, w, ks - {k});
    }
  }

  lemma WeightInsert(m: map<Units, Value>, k: Units, x: Value)
    requires k !in m
    ensures var v := Obj(m[k := x]);
            MembersWeight(v, v.members.Keys)
              == MembersWeight(Obj(m), m.Keys) + (2 + |EscapeAll(k)| + 1 + Weight(x) + 1)
  {
    var v := Obj(m[k := x]);
    WeightPick(v, v.members.Keys, k);
    assert v.members.Keys - {k} == m.Keys;
    MembersWeightFrame(v, Obj(m), m.Keys);
  }

  lemma {:induction false} ItemsWeightFrame(v: Value, i: nat, w: Value, j: nat)
    requires v.Arr? && w.Arr? && i <= |v.items| && j <= |w.items| && v.items[i..] == w.items[j..]
    ensures ItemsWeight(v, i) == ItemsWeight(w, j)
    decreases |v.items| - i
  {
    assert |v.items[i..]| == |w.items[j..]|;
    if i < |v.items| {
      assert v.items[i] == v.items[i..][0] == w.items[j..][0] == w.items[j];
      assert v.items[i + 1..] == v.items[i..][1..] && w.items[j + 1..] == w.items[j..][1..];
      ItemsWeightFrame(v, i + 1, w, j + 1);
    }
  }

  lemma ItemsWeightCons(x: Value, items: seq<Value>)
    ensures ItemsWeight(Arr([x] + items), 0) == Weight(x) + 1 + ItemsWeight(Arr(items), 0)
  {
    var v := Arr([x] + items);
    assert v.items[1..] == items[0..];
    ItemsWeightFrame(v, 1, Arr(items), 0);
  }

  /** A piece is at least as long as the canonical escape of what it stands for. */
  lemma PieceWeighs(p: Piece, rest: Units)
    requires IsPiece(p)
    ensures |EscapeAll(PieceValue(p) + rest)| <= |PieceText(p)| + |EscapeAll(rest)|
    ensures IsPlain(p) ==> |EscapeAll(PieceValue(p) + rest)| == |PieceText(p)| + |EscapeAll(rest)|
  {
    var s := PieceValue(p) + rest;
    assert s[1..] == PieceValue(p)[1..] + rest;
    if |PieceValue(p)| == 2 { assert s[1..][1..] == rest; } else { assert s[1..] == rest; }
  }

  lemma {:induction false} StringWeighs(ps: seq<Piece>)
    requires ArePieces(ps)
    ensures |EscapeAll(StringValue(ps))| <= |StringText(ps)|
    ensures ArePlain(ps) ==> |EscapeAll(StringValue(ps))| == |StringText(ps)|
  {
    if ps != [] {
      StringWeighs(ps[1..]);
      PieceWeighs(ps[0], StringValue(ps[1..]));
    }
  }

  lemma NumberWeighs(t: Tree)
    requires t.TNum? && IsTree(t) && Clean(t)
    ensures |Spelling(t)| == Weight(ValueOf(t))
  {
    DigitsOfNumber(t.digits);
    assert t.digits + ([] + []) == t.digits;
  }

  /** A clean spelling is at least as long as its value weighs, a canonical one exactly. */
  lemma {:induction false} SpellingWeighs(t: Tree)
    requires IsTree(t) && Clean(t)
    ensures |Spelling(t)| >= Weight(ValueOf(t))
    ensures IsCanonical(t) ==> |Spelling(t)| == Weight(ValueOf(t))
    decreases t, 0
  {
    match t
    case TNum(_, _, _, _) => NumberWeighs(t);
    case TStr(ps) => StringWeighs(ps);
    case TArr(lead, es) =>
      ItemsWeigh(es);
      assert ElemValues(es) == [] <==> es == [];
    case TObj(lead, ms) => ObjectWeighs(t);
    case _ =>
  }

  lemma {:induction false} ItemsWeigh(es: seq<Elem>)
    requires AreElems(es) && CleanElems(es)
    ensures es != [] ==> |AtElem(es)| >= ItemsWeight(Arr(ElemValues(es)), 0)
    ensures es != [] && CanonicalItems(es) ==> |AtElem(es)| == ItemsWeight(Arr(ElemValues(es)), 0)
    decreases es, 1
  {
    if es != [] {
      SpellingWeighs(es[0].value);
      ItemsWeigh(es[1..]);
      assert |AtElem(es)| == |Spelling(es[0].value)| + |es[0].after| + |AfterElem(es[1..])|;
      assert es[1..] != [] && CanonicalItems(es[1..]) ==> |AfterElem(es[1..])| == 1 + |AtElem(es[1..])|;
      hide IsTree, Clean, IsCanonical, ValueOf, Spelling, Weight;
      ItemsWeightCons(ValueOf(es[0].value), ElemValues(es[1..]));
    }
  }

  lemma ObjectWeighs(t: Tree)
    requires t.TObj? && IsTree(t) && Clean(t)
    ensures |Spelling(t)| >= Weight(ValueOf(t))
    ensures IsCanonical(t) ==> |Spelling(t)| == Weight(ValueOf(t))
    decreases t.members, 2
  {
    var none: map<Units, Value> := map[];
    assert none.Keys == {};
    MembersWeigh(none, t.members);
    MembersWritten(none, t.members);
    if t.members != [] { assert Keys(t.members)[0] in Keys(t.members); }
    assert ValueOf(t).members == map[] <==> t.members == [];
  }

  lemma {:induction false} MembersWeigh(acc: map<Units, Value>, ms: seq<Member>)
    requires AreMembers(ms) && CleanMembers(ms) && KeysFresh(acc.Keys, ms)
    ensures var v := Obj(MemberValues(acc, ms));
            var more := MembersWeight(v, v.members.Keys) - MembersWeight(Obj(acc), acc.Keys);
            (if ms == [] then more == 0 else |AtMember(ms)| >= more)
            && (ms != [] && CanonicalEntries(ms) ==> |AtMember(ms)| == more)
    decreases ms, 1
  {
    if ms != [] {
      var k, x := StringValue(ms[0].key), ValueOf(ms[0].value);
      var next := acc[k := x];
      SpellingWeighs(ms[0].value);
      StringWeighs(ms[0].key);
      WeightInsert(acc, k, x);
      assert next.Keys == acc.Keys + {k};
      MembersWeigh(next, ms[1..]);
    }
  }

  /** No acceptable spelling of a value is shorter than its canonical text. */
  lemma CanonicalTextShortest(t: Tree)
    requires IsTree(t) && Clean(t)
    ensures |Encode(ValueOf(t))| <= |Spelling(t)|
  {
    hide IsTree, Clean, IsCanonical, ValueOf, Spelling, Encode, Weight;
    var v := ValueOf(t);
    TreeMeasures(t, 0);
    CanonicalTreeSpells(v);
    CanonicalTreeForm(v);
    SpellingWeighs(t);
    SpellingWeighs(CanonicalTree(v));
  }
}

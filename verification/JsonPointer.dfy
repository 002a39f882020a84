/** JSON Pointers: the validator's decoding inverts the encoding of RFC 6901. */
module JsonPointer {
  import opened Unicode
  import opened Json

  const SLASH: Unit := 0x2F
  const TILDE: Unit := 0x7E
  const DIGIT_0: Unit := 0x30
  const DIGIT_1: Unit := 0x31

  // ---- As the validator decodes ----

  /** No tilde without a 0 or a 1 behind it. */
  predicate TildesPaired(s: Units) {
    forall i | 0 <= i < |s| && s[i] == TILDE :: i + 1 < |s| && (s[i + 1] == DIGIT_0 || s[i + 1] == DIGIT_1)
  }

  /** `validJsonPointer`: nonempty, absolute, with paired tildes. */
  predicate ValidPointer(path: Units) { path != [] && path[0] == SLASH && TildesPaired(path) }

  /** `split("/")`. */
  function Split(s: Units): (parts: seq<Units>)
    ensures parts != []
  {
    if s == [] then [[]]
    else
      var rest := Split(s[1..]);
      if s[0] == SLASH then [[]] + rest else [[s[0]] + rest[0]] + rest[1..]
  }

  /** `replaceAll` of a tilde and a digit, scanning from the left. */
  function ReplaceAll(s: Units, digit: Unit, plain: Unit): Units {
    if s == [] then []
    else if |s| >= 2 && s[0] == TILDE && s[1] == digit then [plain] + ReplaceAll(s[2..], digit, plain)
    else [s[0]] + ReplaceAll(s[1..], digit, plain)
  }

  /** Two passes, `~1` before `~0`. */
  function DecodeToken(s: Units): Units { ReplaceAll(ReplaceAll(s, DIGIT_1, SLASH), DIGIT_0, TILDE) }

  function DecodeTokens(parts: seq<Units>): (ts: seq<Units>)
    ensures |ts| == |parts|
  {
    seq(|parts|, i requires 0 <= i < |parts| => DecodeToken(parts[i]))
  }

  /** `jsonPointerTokens`. */
  function PointerTokens(path: Units): Option<seq<Units>> {
    if ValidPointer(path) then Some(DecodeTokens(Split(path[1..]))) else None
  }

  // ---- As RFC 6901 encodes ----

  function EscapeUnit(u: Unit): Units {
    if u == TILDE then [TILDE, DIGIT_0] else if u == SLASH then [TILDE, DIGIT_1] else [u]
  }

  function EscapeToken(t: Units): Units {
    if t == [] then [] else EscapeUnit(t[0]) + EscapeToken(t[1..])
  }

  /** Each reference token behind a slash. */
  function Rooted(parts: seq<Units>): Units {
    if parts == [] then [] else [SLASH] + parts[0] + Rooted(parts[1..])
  }

  function EscapeTokens(ts: seq<Units>): (parts: seq<Units>)
    ensures |parts| == |ts|
  {
    seq(|ts|, i requires 0 <= i < |ts| => EscapeToken(ts[i]))
  }

  function PointerOf(ts: seq<Units>): Units { Rooted(EscapeTokens(ts)) }

  // ---- One token ----

  predicate NoSlash(s: Units) { forall i | 0 <= i < |s| :: s[i] != SLASH }

  /** The two passes take one unit, or one tilde and its digit, at a time. */
  lemma DecodeStep(s: Units)
    requires s != [] && TildesPaired(s)
    ensures s[0] != TILDE ==> TildesPaired(s[1..]) && DecodeToken(s) == [s[0]] + DecodeToken(s[1..])
    ensures s[0] == TILDE ==>
              |s| >= 2 && TildesPaired(s[2..])
              && DecodeToken(s) == [if s[1] == DIGIT_0 then TILDE else SLASH] + DecodeToken(s[2..])
  {
    var first := ReplaceAll(s, DIGIT_1, SLASH);
    if s[0] != TILDE {
      var more := ReplaceAll(s[1..], DIGIT_1, SLASH);
      assert first[0] == s[0] && first[1..] == more;
    } else {
      assert s[1] == DIGIT_0 || s[1] == DIGIT_1;
      var more := ReplaceAll(s[2..], DIGIT_1, SLASH);
      assert s[1..][1..] == s[2..];
      if s[1] == DIGIT_0 {
        assert first == [TILDE] + ([DIGIT_0] + more);
        assert first[0] == TILDE && first[1] == DIGIT_0 && first[2..] == more;
      } else {
        assert first[0] == SLASH && first[1..] == more;
      }
    }
  }

  lemma EscapeJoins(u: Unit, rest: Units)
    requires TildesPaired(rest) && NoSlash(rest)
    ensures var s := EscapeUnit(u) + rest;
            TildesPaired(s) && NoSlash(s) && s != [] && s[|EscapeUnit(u)|..] == rest
  {
    var head := EscapeUnit(u);
    var s := head + rest;
    assert forall i | 0 <= i < |rest| :: s[i + |head|] == rest[i];
    assert forall i | |head| <= i < |s| :: s[i] == rest[i - |head|];
  }

  lemma {:induction false} DecodeInvertsEscape(t: Units)
    ensures TildesPaired(EscapeToken(t)) && NoSlash(EscapeToken(t)) && DecodeToken(EscapeToken(t)) == t
  {
    hide TildesPaired, NoSlash, DecodeToken;
    if t == [] {
      NoneDecoded();
    } else {
      DecodeInvertsEscape(t[1..]);
      EscapeJoins(t[0], EscapeToken(t[1..]));
      DecodeStep(EscapeToken(t));
      assert t == [t[0]] + t[1..];
    }
  }

  lemma NoneDecoded()
    ensures TildesPaired([]) && NoSlash([]) && DecodeToken([]) == []
  {
  }

  lemma {:induction false} EscapeInvertsDecode(s: Units)
    requires TildesPaired(s) && NoSlash(s)
    ensures EscapeToken(DecodeToken(s)) == s
  {
    if s != [] {
      DecodeStep(s);
      var n := if s[0] == TILDE then 2 else 1;
      EscapeInvertsDecode(s[n..]);
      var d := DecodeToken(s);
      assert d[1..] == DecodeToken(s[n..]);
      assert s == s[..n] + s[n..];
    }
  }

  // ---- Whole pointers ----

  lemma RootedCons(part: Units, rest: seq<Units>)
    ensures Rooted([part] + rest) == [SLASH] + (part + Rooted(rest))
  {
    assert ([part] + rest)[1..] == rest;
    Assoc([SLASH], part, Rooted(rest));
  }

  lemma BehindSlash(a: Units, b: Units)
    requires [SLASH] + a == [SLASH] + b
    ensures a == b
  {
    assert a == ([SLASH] + a)[1..] && b == ([SLASH] + b)[1..];
  }

  /** Putting a unit before the first part. */
  lemma RootedHead(u: Unit, rest: seq<Units>, s: Units)
    requires rest != [] && Rooted(rest) == [SLASH] + s
    ensures Rooted([[u] + rest[0]] + rest[1..]) == [SLASH] + ([u] + s)
  {
    hide Rooted;
    var tail := Rooted(rest[1..]);
    RootedCons(rest[0], rest[1..]);
    assert [rest[0]] + rest[1..] == rest;
    BehindSlash(rest[0] + tail, s);
    RootedCons([u] + rest[0], rest[1..]);
    Assoc([u], rest[0], tail);
  }

  lemma {:induction false} SplitRooted(s: Units)
    ensures Rooted(Split(s)) == [SLASH] + s
  {
    if s == [] {
      assert Rooted([[]]) == [SLASH] + [] + Rooted([]);
    } else {
      SplitRooted(s[1..]);
      var rest, parts := Split(s[1..]), Split(s);
      assert s == [s[0]] + s[1..];
      if s[0] == SLASH {
        assert parts[0] == [] && parts[1..] == rest;
      } else {
        RootedHead(s[0], rest, s[1..]);
      }
    }
  }

  lemma {:induction false} SplitNoSlash(s: Units)
    ensures forall i | 0 <= i < |Split(s)| :: NoSlash(Split(s)[i])
  {
    if s != [] {
      SplitNoSlash(s[1..]);
    }
  }

  lemma {:induction false} SplitOfRooted(head: Units, parts: seq<Units>)
    requires NoSlash(head) && forall i | 0 <= i < |parts| :: NoSlash(parts[i])
    ensures Split(head + Rooted(parts)) == [head] + parts
    decreases |parts|, |head|
  {
    var s := head + Rooted(parts);
    if head != [] {
      SplitOfRooted(head[1..], parts);
      assert s[1..] == head[1..] + Rooted(parts);
      assert head == [head[0]] + head[1..];
    } else if parts != [] {
      SplitOfRooted(parts[0], parts[1..]);
      assert s == [SLASH] + (parts[0] + Rooted(parts[1..]));
      assert s[1..] == parts[0] + Rooted(parts[1..]);
      assert parts == [parts[0]] + parts[1..];
    }
  }

  lemma {:induction false} RootedPaired(parts: seq<Units>)
    ensures TildesPaired(Rooted(parts)) <==> forall i | 0 <= i < |parts| :: TildesPaired(parts[i])
  {
    if parts != [] {
      RootedPaired(parts[1..]);
      assert Rooted(parts) == [SLASH] + (parts[0] + Rooted(parts[1..]));
      SlashPaired(parts[0] + Rooted(parts[1..]));
      PairedConcat(parts[0], Rooted(parts[1..]));
      assert parts == [parts[0]] + parts[1..];
      assert forall i | 0 < i < |parts| :: parts[i] == parts[1..][i - 1];
      assert forall i | 0 <= i < |parts| - 1 :: parts[1..][i] == parts[i + 1];
    }
  }

  lemma SlashPaired(s: Units)
    ensures TildesPaired([SLASH] + s) <==> TildesPaired(s)
  {
    var t := [SLASH] + s;
    assert forall i | 0 <= i < |s| :: t[i + 1] == s[i];
    assert forall i | 0 < i < |t| :: t[i] == s[i - 1];
  }

  /** Tildes never pair across a slash. */
  lemma PairedConcat(a: Units, b: Units)
    requires b == [] || b[0] == SLASH
    ensures TildesPaired(a + b) <==> TildesPaired(a) && TildesPaired(b)
  {
    var s := a + b;
    assert forall i | 0 <= i < |a| :: s[i] == a[i];
    assert forall i | 0 <= i < |b| :: s[i + |a|] == b[i];
    assert forall i | |a| <= i < |s| :: s[i] == b[i - |a|];
    if TildesPaired(s) {
      forall i | 0 <= i < |a| && a[i] == TILDE ensures i + 1 < |a| && (a[i + 1] == DIGIT_0 || a[i + 1] == DIGIT_1) {
        assert s[i] == TILDE && i + 1 < |s|;
        assert s[i + 1] != SLASH;
      }
    }
  }

  lemma EncodedDecodes(ts: seq<Units>)
    requires ts != []
    ensures PointerTokens(PointerOf(ts)) == Some(ts)
  {
    hide DecodeToken, EscapeToken, Split, Rooted, TildesPaired, NoSlash;
    var parts, path := EscapeTokens(ts), PointerOf(ts);
    forall i | 0 <= i < |ts| ensures TildesPaired(parts[i]) && NoSlash(parts[i]) && DecodeToken(parts[i]) == ts[i] {
      DecodeInvertsEscape(ts[i]);
    }
    RootedPaired(parts);
    assert [parts[0]] + parts[1..] == parts;
    RootedCons(parts[0], parts[1..]);
    assert path[1..] == parts[0] + Rooted(parts[1..]);
    SplitOfRooted(parts[0], parts[1..]);
    assert DecodeTokens(parts) == ts;
  }

  lemma DecodedEncodes(path: Units)
    requires ValidPointer(path)
    ensures PointerOf(DecodeTokens(Split(path[1..]))) == path
  {
    hide DecodeToken, EscapeToken, Split, Rooted, TildesPaired, NoSlash;
    var parts := Split(path[1..]);
    var ts := DecodeTokens(parts);
    SplitRooted(path[1..]);
    SplitNoSlash(path[1..]);
    assert path == [SLASH] + path[1..];
    RootedPaired(parts);
    forall i | 0 <= i < |parts| ensures EscapeToken(ts[i]) == parts[i] {
      EscapeInvertsDecode(parts[i]);
    }
    assert EscapeTokens(ts) == parts;
  }

  /** The validator accepts exactly the RFC 6901 pointers to something below
      the root, and its two passes decode each to the tokens that spell it. */
  lemma PointerExact(path: Units, ts: seq<Units>)
    ensures PointerTokens(path) == Some(ts) <==> ts != [] && path == PointerOf(ts)
  {
    hide DecodeTokens, Split, PointerOf, ValidPointer;
    if ts != [] && path == PointerOf(ts) { EncodedDecodes(ts); }
    if PointerTokens(path) == Some(ts) { DecodedEncodes(path); }
  }
}

/** The encoders as they run: TypeScript collects strings in arrays, Rust
    appends to one output buffer. */
module Encoders {
  import opened Unicode
  import opened Json
  import opened Budget

  ghost predicate Canonicalizable(v: Value) { WithinBudget(v) && Encodable(v) }

  /** `quoteString` walks the scalars of a checked string. */
  method QuoteString(value: Units) returns (r: Option<Units>)
    ensures r == if IsScalarString(value) then Some(Quote(value)) else None
  {
    var ok := AssertScalarString(value);
    if !ok {
      return None;
    }
    var output := [QUOTE];
    var rest := value;
    while rest != []
      invariant IsScalarString(rest)
      invariant output + EscapeAll(rest) == [QUOTE] + EscapeAll(value)
      decreases |rest|
    {
      var width := if StartsWithPair(rest) then 2 else 1;
      if width == 2 {
        EscapeAllPair(rest);
        Assoc(output, rest[..2], EscapeAll(rest[2..]));
        assert rest[..2] == [rest[0], rest[1]];
        output := output + rest[..2];
      } else {
        Assoc(output, Escape(rest[0]), EscapeAll(rest[1..]));
        output := output + Escape(rest[0]);
      }
      rest := rest[width..];
    }
    assert output == output + EscapeAll([]);
    return Some(output + [QUOTE]);
  }

  /** `canonicalizeInner`: `None` stands for the thrown error. */
  method CanonicalizeInner(v: Value) returns (r: Option<Units>)
    ensures r == if Encodable(v) then Some(Encode(v)) else None
    decreases v, 2
  {
    match v
    case Null => r := Some(NULL);
    case Bool(b) => r := Some(if b then TRUE else FALSE);
    case Str(s) => r := QuoteString(s);
    case Num(n) => r := if IsSafeInteger(n) then Some(Decimal(n)) else None;
    case Arr(_) =>
      var elements := CanonicalizeItems(v);
      r := if elements.None? then None else Some([LBRACKET] + Join(COMMA, elements.value) + [RBRACKET]);
    case Obj(_) =>
      var entries := CanonicalizeMembers(v);
      r := if entries.None? then None else Some([LBRACE] + Join(COMMA, entries.value) + [RBRACE]);
  }

  method CanonicalizeItems(v: Value) returns (r: Option<seq<Units>>)
    requires v.Arr?
    ensures r == if Encodable(v) then Some(EncodeItems(v)) else None
    decreases v, 0
  {
    var items, elements: seq<Units> := v.items, [];
    while |elements| < |items|
      invariant |elements| <= |items|
      invariant forall i | 0 <= i < |elements| :: Encodable(items[i]) && elements[i] == Encode(items[i])
    {
      var element := CanonicalizeInner(items[|elements|]);
      if element.None? {
        return None;
      }
      elements := elements + [element.value];
    }
    assert elements == EncodeItems(v);
    return Some(elements);
  }

  method CanonicalizeMembers(v: Value) returns (r: Option<seq<Units>>)
    requires v.Obj?
    ensures r == if Encodable(v) then Some(EncodeMembers(v)) else None
    decreases v, 1
  {
    hide SortedKeys;
    var keys := SortedKeys(ByScalar, v.members.Keys);
    KeysListed(ByScalar, v);
    r := CanonicalizeKeys(v, keys);
    MembersEncodable(v, keys);
    if r.Some? {
      assert r.value == EncodeMembers(v);
    }
  }

  method CanonicalizeKeys(v: Value, keys: seq<Units>) returns (r: Option<seq<Units>>)
    requires v.Obj? && forall i | 0 <= i < |keys| :: keys[i] in v.members
    ensures r.Some? <==> forall i | 0 <= i < |keys| :: MemberEncodable(v, keys[i])
    ensures r.Some? ==> |r.value| == |keys|
    ensures r.Some? ==> forall i | 0 <= i < |keys| :: r.value[i] == EncodeMember(v, keys[i])
    decreases v, 0
  {
    var entries: seq<Units> := [];
    var index := 0;
    while index < |keys|
      invariant index == |entries| <= |keys|
      invariant forall i | 0 <= i < index :: entries[i] == EncodeMember(v, keys[i])
      invariant forall i | 0 <= i < index :: MemberEncodable(v, keys[i])
    {
      var key := keys[index];
      var quoted := QuoteString(key);
      if quoted.None? {
        assert !MemberEncodable(v, keys[index]);
        return None;
      }
      var member := CanonicalizeInner(v.members[key]);
      if member.None? {
        assert !MemberEncodable(v, keys[index]);
        return None;
      }
      entries := entries + [quoted.value + [COLON] + member.value];
      index := index + 1;
    }
    return Some(entries);
  }

  ghost predicate MemberEncodable(v: Value, k: Units)
    requires v.Obj?
  {
    k in v.members && IsScalarString(k) && Encodable(v.members[k])
  }

  lemma KeysListed(o: KeyOrder, v: Value)
    requires v.Obj?
    ensures forall i | 0 <= i < |v.members| :: SortedKeys(o, v.members.Keys)[i] in v.members
    ensures |SortedKeys(o, v.members.Keys)| == |v.members|
    ensures forall k | k in v.members :: k in SortedKeys(o, v.members.Keys)
  {
    var keys := SortedKeys(o, v.members.Keys);
    forall i | 0 <= i < |v.members| ensures keys[i] in v.members {
      assert keys[i] in keys;
    }
  }

  lemma MembersEncodable(v: Value, keys: seq<Units>)
    requires v.Obj? && (forall k | k in v.members :: k in keys)
    requires forall i | 0 <= i < |keys| :: keys[i] in v.members
    ensures Encodable(v) <==> forall i | 0 <= i < |keys| :: MemberEncodable(v, keys[i])
  {
    if forall i | 0 <= i < |keys| :: MemberEncodable(v, keys[i]) {
      forall k | k in v.members ensures IsScalarString(k) && Encodable(v.members[k]) {
        var i :| 0 <= i < |keys| && keys[i] == k;
        assert MemberEncodable(v, keys[i]);
      }
    }
  }

  method CanonicalJson(v: Value) returns (r: Option<Units>)
    ensures r == if Canonicalizable(v) then Some(Encode(v)) else None
  {
    var fits := EnforceValueBudget(v);
    if !fits {
      return None;
    }
    r := CanonicalizeInner(v);
  }

  /** A value Rust can hold: every string is well-formed by its type. */
  ghost predicate RustValue(v: Value) {
    match v
    case Str(s) => IsScalarString(s)
    case Arr(items) => forall i | 0 <= i < |items| :: RustValue(items[i])
    case Obj(m) => forall k | k in m :: IsScalarString(k) && RustValue(m[k])
    case _ => true
  }

  /** No number is outside the safe range. */
  ghost predicate SafeNumbers(v: Value) {
    match v
    case Num(n) => IsSafeInteger(n)
    case Arr(items) => forall i | 0 <= i < |items| :: SafeNumbers(items[i])
    case Obj(m) => forall k | k in m :: SafeNumbers(m[k])
    case _ => true
  }

  lemma {:induction false} RustEncodable(v: Value)
    requires RustValue(v)
    ensures SafeNumbers(v) <==> Encodable(v)
    decreases v
  {
    match v
    case Arr(items) =>
      forall i | 0 <= i < |items| ensures SafeNumbers(items[i]) <==> Encodable(items[i]) {
        RustEncodable(items[i]);
      }
    case Obj(m) =>
      forall k | k in m ensures SafeNumbers(m[k]) <==> Encodable(m[k]) {
        RustEncodable(m[k]);
      }
    case _ =>
  }

  /** `encode_canonical_value`: appends to `output` and stops at an unsafe number. */
  method EncodeCanonicalValue(v: Value, output: Bytes) returns (ok: bool, out: Bytes)
    ensures ok <==> SafeNumbers(v)
    ensures ok ==> out == output + RustEncode(v)
    decreases v, 3
  {
    match v
    case Null => return true, output + NULL;
    case Bool(b) => return true, output + if b then TRUE else FALSE;
    case Num(n) => return IsSafeInteger(n), output + if IsSafeInteger(n) then Decimal(n) else [];
    case Str(s) => return true, output + QuoteBytes(s);
    case Arr(_) =>
      ok, out := EncodeArray(v, output + [LBRACKET]);
      out := out + [RBRACKET];
      Enclosed(output, LBRACKET, Join(COMMA_BYTE, RustItems(v)), RBRACKET);
    case Obj(_) =>
      ok, out := EncodeObject(v, output + [LBRACE]);
      out := out + [RBRACE];
      Enclosed(output, LBRACE, Join(COMMA_BYTE, RustMembers(v)), RBRACE);
  }

  lemma Enclosed(output: Bytes, open: Byte, body: Bytes, close: Byte)
    ensures output + [open] + body + [close] == output + ([open] + body + [close])
  {
    Assoc(output, [open], body);
    Assoc(output, [open] + body, [close]);
  }

  method EncodeArray(v: Value, output: Bytes) returns (ok: bool, out: Bytes)
    requires v.Arr?
    ensures ok <==> SafeNumbers(v)
    ensures ok ==> out == output + Join(COMMA_BYTE, RustItems(v))
    decreases v, 1
  {
    ok, out := EncodeElements(v, RustItems(v), output);
    if forall i | 0 <= i < |v.items| :: ItemSafe(v, i) {
      forall i | 0 <= i < |v.items| ensures SafeNumbers(v.items[i]) {
        assert ItemSafe(v, i);
      }
    }
  }

  ghost predicate ItemSafe(v: Value, i: nat)
    requires v.Arr? && i < |v.items|
  {
    SafeNumbers(v.items[i])
  }

  method EncodeElements(v: Value, ghost parts: seq<Bytes>, output: Bytes) returns (ok: bool, out: Bytes)
    requires v.Arr? && |parts| == |v.items|
    requires forall i | 0 <= i < |v.items| :: parts[i] == RustItem(v, i)
    ensures ok <==> forall i | 0 <= i < |v.items| :: ItemSafe(v, i)
    ensures ok ==> out == output + Join(COMMA_BYTE, parts)
    decreases v, 0
  {
    out := output;
    var index := 0;
    while index < |v.items|
      invariant index <= |v.items|
      invariant forall i | 0 <= i < index :: ItemSafe(v, i)
      invariant Emit(out, parts, index) == Emit(output, parts, 0)
    {
      out := out + Comma(index);
      ok, out := EncodeCanonicalValue(v.items[index], out);
      if !ok {
        assert !ItemSafe(v, index);
        return;
      }
      assert ItemSafe(v, index);
      index := index + 1;
    }
    EmitJoins(output, parts, 0);
    return true, out;
  }

  method EncodeObject(v: Value, output: Bytes) returns (ok: bool, out: Bytes)
    requires v.Obj?
    ensures ok <==> SafeNumbers(v)
    ensures ok ==> out == output + Join(COMMA_BYTE, RustMembers(v))
    decreases v, 2
  {
    hide SortedKeys, Join;
    var ordered := SortedKeys(ByByte, v.members.Keys);
    KeysListed(ByByte, v);
    ok, out := EncodeEntries(v, ordered, RustMembers(v), output);
    EntriesSafe(v, ordered);
  }

  lemma EntriesSafe(v: Value, ordered: seq<Units>)
    requires v.Obj? && forall k :: k in ordered <==> k in v.members
    ensures SafeNumbers(v) <==> forall i | 0 <= i < |ordered| :: MemberSafe(v, ordered[i])
  {
    if forall i | 0 <= i < |ordered| :: MemberSafe(v, ordered[i]) {
      forall k | k in v.members ensures SafeNumbers(v.members[k]) {
        var i :| 0 <= i < |ordered| && ordered[i] == k;
        assert MemberSafe(v, ordered[i]);
      }
    }
    if SafeNumbers(v) {
      forall i | 0 <= i < |ordered| ensures MemberSafe(v, ordered[i]) {
        assert ordered[i] in ordered;
      }
    }
  }

  method EncodeEntry(v: Value, key: Units, output: Bytes) returns (ok: bool, out: Bytes)
    requires v.Obj? && key in v.members
    ensures ok <==> MemberSafe(v, key)
    ensures ok ==> out == output + RustMember(v, key)
    decreases v, 0
  {
    out := output + QuoteBytes(key);
    out := out + [COLON_BYTE];
    ok, out := EncodeCanonicalValue(v.members[key], out);
    PairAppended(output, key, RustEncode(v.members[key]));
  }

  ghost predicate MemberSafe(v: Value, k: Units)
    requires v.Obj? && k in v.members
  {
    SafeNumbers(v.members[k])
  }

  method EncodeEntries(v: Value, ordered: seq<Units>, ghost parts: seq<Bytes>, output: Bytes)
    returns (ok: bool, out: Bytes)
    requires v.Obj? && |parts| == |ordered|
    requires forall i | 0 <= i < |ordered| :: ordered[i] in v.members && parts[i] == RustMember(v, ordered[i])
    ensures ok <==> forall i | 0 <= i < |ordered| :: MemberSafe(v, ordered[i])
    ensures ok ==> out == output + Join(COMMA_BYTE, parts)
    decreases v, 1
  {
    hide RustMember, MemberSafe;
    out := output;
    var index := 0;
    while index < |ordered|
      invariant index <= |ordered|
      invariant forall i | 0 <= i < index :: MemberSafe(v, ordered[i])
      invariant Emit(out, parts, index) == Emit(output, parts, 0)
    {
      var key := ordered[index];
      out := out + Comma(index);
      ok, out := EncodeEntry(v, key, out);
      if !ok {
        assert !MemberSafe(v, ordered[index]);
        return;
      }
      assert MemberSafe(v, ordered[index]);
      index := index + 1;
    }
    EmitJoins(output, parts, 0);
    return true, out;
  }

  function Comma(index: nat): Bytes { if index > 0 then [COMMA_BYTE] else [] }

  /** What the loop has written once it has gone through the parts from `i` on. */
  ghost function Emit(out: Bytes, parts: seq<Bytes>, i: nat): Bytes
    requires i <= |parts|
    decreases |parts| - i
  {
    if i == |parts| then out else Emit(out + Comma(i) + parts[i], parts, i + 1)
  }

  lemma {:induction false} EmitJoins(out: Bytes, parts: seq<Bytes>, i: nat)
    requires i <= |parts|
    ensures Emit(out, parts, i)
         == out + if i == 0 then Join(COMMA_BYTE, parts) else JoinRest(COMMA_BYTE, parts[i..])
    decreases |parts| - i
  {
    if i < |parts| {
      EmitJoins(out + Comma(i) + parts[i], parts, i + 1);
      var rest := JoinRest(COMMA_BYTE, parts[i + 1..]);
      assert parts[i..][1..] == parts[i + 1..];
      Assoc(out + Comma(i), parts[i], rest);
      Assoc(out, Comma(i), parts[i] + rest);
      Assoc(Comma(i), parts[i], rest);
    }
  }

  lemma PairAppended(start: Bytes, key: Units, member: Bytes)
    ensures start + QuoteBytes(key) + [COLON_BYTE] + member == start + PairBytes(key, member)
  {
    Assoc(start, QuoteBytes(key), [COLON_BYTE]);
    Assoc(start, QuoteBytes(key) + [COLON_BYTE], member);
  }

  /** Both public encoders accept the same values and produce the same bytes. */
  method RustCanonicalJson(v: Value) returns (r: Option<Bytes>)
    requires RustValue(v)
    ensures r == if Canonicalizable(v) then Some(Utf8Units(Encode(v))) else None
  {
    var fits, _ := ValidateValueBudget(v, 1, 0);
    if !fits {
      return None;
    }
    var ok, output := EncodeCanonicalValue(v, []);
    RustEncodable(v);
    if !ok {
      return None;
    }
    EncodersAgree(v);
    assert [] + RustEncode(v) == RustEncode(v);
    return Some(output);
  }
}

/** The strict parser as it runs: one object whose `index` and `nodes` fields
    advance over the source text. A thrown error is a `None` result. */
module StrictJsonParser {
  import opened Unicode
  import opened Json
  import opened StrictJson
  import opened Encoders
  import opened RoundTrip

  const MAX_INPUT_BYTES: nat := 1024 * 1024

  class Parser {
    var index: nat
    var nodes: nat
    const source: Units

    constructor (source: Units)
      ensures this.source == source && index == 0 && nodes == 0
    {
      this.source := source;
      index := 0;
      nodes := 0;
    }

    predicate Valid()
      reads this
    {
      index <= |source|
    }

    /** The text not yet read. */
    function Unread(): Units
      reads this
      requires Valid()
    {
      source[index..]
    }

    /** The parser stands where the step `s` ends, with the result of `s`. */
    predicate Follows(s: Read<Value>, r: Option<Value>)
      reads this
    {
      Valid() && match s
                 case Fail => r.None?
                 case Read(v, rest, n) => r == Some(v) && Unread() == rest && nodes == n
    }

    method Take(expected: Unit) returns (taken: bool)
      requires Valid()
      modifies this`index
      ensures Valid() && taken == StartsWith(old(Unread()), expected)
      ensures Unread() == if taken then old(Unread())[1..] else old(Unread())
    {
      if index == |source| || source[index] != expected {
        return false;
      }
      index := index + 1;
      return true;
    }

    method SkipWhitespace()
      requires Valid()
      modifies this`index
      ensures Valid() && Unread() == SkipSpace(old(Unread()))
    {
      while index < |source| && IsSpace(source[index])
        invariant Valid() && SkipSpace(Unread()) == SkipSpace(old(Unread()))
      {
        assert Unread()[1..] == source[index + 1..];
        index := index + 1;
      }
    }

    method Keyword(token: Units, value: Value) returns (r: Option<Value>)
      requires Valid() && token != []
      modifies this`index
      ensures Follows(ParseKeyword(old(Unread()), token, value, nodes), r)
    {
      if index + |token| > |source| || source[index..index + |token|] != token {
        return None;
      }
      assert Unread()[..|token|] == source[index..index + |token|];
      assert Unread()[|token|..] == source[index + |token|..];
      index := index + |token|;
      return Some(value);
    }

    /** Four hexadecimal digits, in either case. */
    method ReadHexUnit() returns (r: Option<Unit>)
      requires Valid()
      modifies this`index
      ensures Valid()
      ensures r.Some? <==> HexAhead(old(Unread()))
      ensures r.Some? ==> r.value == HexUnit(old(Unread())[..4]) && Unread() == old(Unread())[4..]
    {
      if index + 4 > |source| {
        return None;
      }
      var token := source[index..index + 4];
      assert token == Unread()[..4];
      if !AreHex(token) {
        return None;
      }
      assert Unread()[4..] == source[index + 4..];
      index := index + 4;
      return Some(HexUnit(token));
    }

    /** `String.fromCodePoint`. */
    static function FromCodePoint(c: CodePoint): Units {
      if c < 0x10000 then [c] else [0xD800 + (c - 0x10000) / 0x400, 0xDC00 + (c - 0x10000) % 0x400]
    }

    static lemma FromJoinedPair(hi: Unit, lo: Unit)
      requires IsHigh(hi) && IsLow(lo)
      ensures FromCodePoint(JoinPair(hi, lo)) == [hi, lo]
    {
    }

    method ReadString() returns (r: Option<Units>)
      requires Valid() && StartsWith(Unread(), QUOTE)
      modifies this`index
      ensures Valid()
      ensures match ParseString(old(Unread())[1..], [])
              case None => r.None?
              case Some((s, rest)) => r == Some(s) && Unread() == rest
    {
      ghost var spec := ParseString(Unread()[1..], []);
      assert Unread()[1..] == source[index + 1..];
      index := index + 1;
      var result: Units := [];
      while index < |source|
        invariant Valid() && ParseString(Unread(), result) == spec
        decreases |source| - index
      {
        var current := source[index];
        if current == QUOTE {
          assert Unread()[1..] == source[index + 1..];
          index := index + 1;
          return Some(result);
        }
        if current == BACKSLASH {
          var ok;
          ok, result := ReadEscape(result);
          if !ok {
            return None;
          }
        } else if current <= 0x1F {
          return None;
        } else if IsHigh(current) {
          if !(index + 1 < |source| && IsLow(source[index + 1])) {
            return None;
          }
          assert Unread()[2..] == source[index + 2..];
          assert source[index..index + 2] == [source[index], source[index + 1]];
          result := result + source[index..index + 2];
          index := index + 2;
        } else if IsLow(current) {
          return None;
        } else {
          assert Unread()[1..] == source[index + 1..];
          result := result + [current];
          index := index + 1;
        }
      }
      return None;
    }

    /** One escape sequence of a string. */
    method ReadEscape(result: Units) returns (ok: bool, out: Units)
      requires Valid() && StartsWith(Unread(), BACKSLASH)
      modifies this`index
      ensures Valid()
      ensures !ok ==> ParseEscape(old(Unread()), result).None?
      ensures ok ==> index > old(index) && ParseEscape(old(Unread()), result) == ParseString(Unread(), out)
    {
      ghost var start := Unread();
      index := index + 1;
      if index == |source| {
        return false, result;
      }
      assert start[1] == source[index] && start[2..] == source[index + 1..];
      var simple := ShortEscape(source[index]);
      if simple.Some? {
        index := index + 1;
        return true, result + [simple.value];
      }
      if source[index] != LOWER_U {
        return false, result;
      }
      index := index + 1;
      var first := ReadHexUnit();
      if first.None? {
        return false, result;
      }
      assert start[2..][4..] == start[6..];
      if IsHigh(first.value) {
        if index + 2 > |source| || source[index..index + 2] != [BACKSLASH, LOWER_U] {
          return false, result;
        }
        assert source[index] == source[index..index + 2][0] && source[index + 1] == source[index..index + 2][1];
        assert Unread()[2..] == source[index + 2..];
        index := index + 2;
        var second := ReadHexUnit();
        if second.None? || !IsLow(second.value) {
          return false, result;
        }
        assert start[6..][2..][4..] == start[6..][6..];
        FromJoinedPair(first.value, second.value);
        return true, result + FromCodePoint(JoinPair(first.value, second.value));
      }
      if IsLow(first.value) {
        return false, result;
      }
      return true, result + [first.value];
    }

    /** The digits of a number that starts with a digit other than zero. */
    method ReadDigits() returns (n: nat)
      requires Valid() && Unread() != [] && IsDigit(Unread()[0])
      modifies this`index
      ensures Valid() && (n, Unread()) == ScanDigits(old(Unread())[1..], old(Unread())[0] - ZERO)
    {
      assert Unread()[1..] == source[index + 1..];
      n := source[index] - ZERO;
      ghost var spec := ScanDigits(Unread()[1..], n);
      index := index + 1;
      while index < |source| && IsDigit(source[index])
        invariant Valid() && ScanDigits(Unread(), n) == spec
      {
        assert Unread()[1..] == source[index + 1..];
        n := n * 10 + (source[index] - ZERO);
        index := index + 1;
      }
    }

    method ReadNumber() returns (r: Option<int>)
      requires Valid()
      modifies this`index
      ensures Valid()
      ensures match ParseNumber(old(Unread()))
              case None => r.None?
              case Some((n, rest)) => r == Some(n) && Unread() == rest
    {
      var negative := Take(MINUS);
      var n: int := 0;
      var zero := Take(ZERO);
      if zero {
        if index < |source| && IsDigit(source[index]) {
          return None;
        }
      } else {
        if index == |source| || !(0x31 <= source[index] <= 0x39) {
          return None;
        }
        n := ReadDigits();
      }
      if index < |source| && !EndsNumber(source[index..]) {
        return None;
      }
      if !IsSafeInteger(n) || (negative && n == 0) {
        return None;
      }
      return Some(if negative then -n else n);
    }

    method ReadValue(depth: nat) returns (r: Option<Value>)
      requires Valid()
      modifies this
      ensures Follows(ParseValue(old(Unread()), depth, old(nodes)), r)
      decreases |source| - index, 1
    {
      if depth > MAX_DEPTH {
        return None;
      }
      nodes := nodes + 1;
      if nodes > MAX_NODES {
        return None;
      }
      if index == |source| {
        return None;
      }
      var current := source[index];
      if current == LBRACE {
        r := ReadObject(depth);
      } else if current == LBRACKET {
        r := ReadArray(depth);
      } else if current == QUOTE {
        var s := ReadString();
        r := if s.None? then None else Some(Str(s.value));
      } else if current == TRUE[0] {
        r := Keyword(TRUE, Bool(true));
      } else if current == FALSE[0] {
        r := Keyword(FALSE, Bool(false));
      } else if current == NULL[0] {
        r := Keyword(NULL, Null);
      } else if current == MINUS || IsDigit(current) {
        var n := ReadNumber();
        r := if n.None? then None else Some(Num(n.value));
      } else {
        r := None;
      }
    }

    /** The end of an item: `closed`, or a comma passed, or neither. */
    method ReadSeparator(closer: Unit) returns (ok: bool, closed: bool)
      requires Valid()
      modifies this`index
      ensures Valid()
      ensures match ParseSeparator(old(Unread()), closer)
              case Closed(rest) => closed && Unread() == rest
              case Next(rest) => ok && !closed && Unread() == rest
              case Bad => !ok && !closed
    {
      SkipWhitespace();
      closed := Take(closer);
      if closed {
        return true, true;
      }
      ok := Take(COMMA);
      if ok {
        SkipWhitespace();
      }
    }

    method ReadArray(depth: nat) returns (r: Option<Value>)
      requires Valid() && StartsWith(Unread(), LBRACKET)
      modifies this
      ensures var inner := SkipSpace(old(Unread())[1..]);
        Follows(if StartsWith(inner, RBRACKET) then Read(Arr([]), inner[1..], old(nodes))
                else ParseItems(inner, depth, old(nodes), []), r)
      decreases |source| - index, 0
    {
      assert Unread()[1..] == source[index + 1..];
      index := index + 1;
      SkipWhitespace();
      var closed := Take(RBRACKET);
      if closed {
        return Some(Arr([]));
      }
      r := ReadItems(depth);
    }

    method ReadItems(depth: nat) returns (r: Option<Value>)
      requires Valid()
      modifies this
      ensures Follows(ParseItems(old(Unread()), depth, old(nodes), []), r)
      decreases |source| - index, 2
    {
      ghost var spec := ParseItems(Unread(), depth, nodes, []);
      var result: seq<Value> := [];
      while true
        invariant Valid() && index >= old(index)
        invariant ParseItems(Unread(), depth, nodes, result) == spec
        decreases |source| - index
      {
        ghost var start := |Unread()|;
        var item := ReadValue(depth + 1);
        if item.None? {
          return None;
        }
        result := result + [item.value];
        var ok, closed := ReadSeparator(RBRACKET);
        if closed {
          return Some(Arr(result));
        }
        if !ok {
          return None;
        }
        assert |Unread()| < start;
      }
    }

    method ReadKey(keys: set<Units>) returns (r: Option<Units>)
      requires Valid()
      modifies this`index
      ensures Valid()
      ensures match ParseKey(old(Unread()), keys)
              case None => r.None?
              case Some((key, rest)) => r == Some(key) && Unread() == rest
    {
      if index == |source| || source[index] != QUOTE {
        return None;
      }
      var key := ReadString();
      if key.None? || key.value in keys {
        return None;
      }
      SkipWhitespace();
      var colon := Take(COLON);
      if !colon {
        return None;
      }
      SkipWhitespace();
      return key;
    }

    method ReadObject(depth: nat) returns (r: Option<Value>)
      requires Valid() && StartsWith(Unread(), LBRACE)
      modifies this
      ensures var inner := SkipSpace(old(Unread())[1..]);
        Follows(if StartsWith(inner, RBRACE) then Read(Obj(map[]), inner[1..], old(nodes))
                else ParseMembers(inner, depth, old(nodes), map[]), r)
      decreases |source| - index, 0
    {
      assert Unread()[1..] == source[index + 1..];
      index := index + 1;
      SkipWhitespace();
      var closed := Take(RBRACE);
      if closed {
        return Some(Obj(map[]));
      }
      r := ReadMembers(depth);
    }

    method ReadMembers(depth: nat) returns (r: Option<Value>)
      requires Valid()
      modifies this
      ensures Follows(ParseMembers(old(Unread()), depth, old(nodes), map[]), r)
      decreases |source| - index, 2
    {
      hide ParseKey, ParseValue, ParseSeparator;
      var result: map<Units, Value> := map[];
      ghost var spec := ParseMembers(Unread(), depth, nodes, result);
      var keys: set<Units> := {};
      while true
        invariant Valid() && index >= old(index) && keys == result.Keys
        invariant ParseMembers(Unread(), depth, nodes, result) == spec
        decreases |source| - index
      {
        ghost var start := |Unread()|;
        var key := ReadKey(keys);
        if key.None? {
          return None;
        }
        keys := keys + {key.value};
        assert |Unread()| < start;
        var member := ReadValue(depth + 1);
        if member.None? {
          return None;
        }
        result := result[key.value := member.value];
        var ok, closed := ReadSeparator(RBRACE);
        if closed {
          return Some(Obj(result));
        }
        if !ok {
          return None;
        }
      }
    }

    /** `parse`: the closing `canonicalJson(value)` can never be what rejects. */
    method Parse() returns (r: Option<Value>)
      requires index == 0 && nodes == 0
      modifies this
      ensures r == ParseText(source)
    {
      assert Unread() == source;
      SkipWhitespace();
      var value := ReadValue(1);
      if value.None? {
        return None;
      }
      SkipWhitespace();
      if index != |source| {
        return None;
      }
      var canonical := CanonicalJson(value.value);
      ParsedIsCanonicalizable(source);
      if canonical.None? {
        return None;
      }
      return value;
    }
  }

  function ParseStrict(text: Units): Option<Value> {
    if |Utf8Units(text)| > MAX_INPUT_BYTES then None else ParseText(text)
  }

  method ParseStrictJson(text: Units) returns (r: Option<Value>)
    ensures r == ParseStrict(text)
  {
    if |Utf8Units(text)| > MAX_INPUT_BYTES {
      return None;
    }
    var parser := new Parser(text);
    r := parser.Parse();
  }

  /** `parseStrictJson(canonicalJson(v))` gives back `v` exactly when the text
      is within the transport limit. */
  lemma StrictRoundTrip(v: Value)
    requires Canonicalizable(v)
    ensures ParseStrict(Encode(v)) == if |RustEncode(v)| <= MAX_INPUT_BYTES then Some(v) else None
  {
    EncodersAgree(v);
    CanonicalTextParses(v);
  }
}

/** Which patches the Kubernetes profile accepts, said of the JSON of their operations. */
module PatchForm {
  import opened Unicode
  import opened Json
  import opened JsonPointer
  import opened KubernetesPatch
  import opened CanonicalForm
  import G = Grammar
  import P = ParserComplete
  import S = StrictJson

  // ---- Protected places ----

  function Metadata(): Units { Ascii("/metadata") }
  function Uid(): Units { Ascii("/metadata/uid") }
  function ResourceVersion(): Units { Ascii("/metadata/resourceVersion") }

  /** No unit of the token needs an escape in a pointer. */
  predicate Unescaped(t: Units) { forall i | 0 <= i < |t| :: t[i] != TILDE && t[i] != SLASH }

  lemma PathTexts()
    ensures Metadata() == [SLASH] + Ascii("metadata")
    ensures Uid() == [SLASH] + Ascii("metadata") + ([SLASH] + Ascii("uid"))
    ensures ResourceVersion() == [SLASH] + Ascii("metadata") + ([SLASH] + Ascii("resourceVersion"))
    ensures Unescaped(Ascii("metadata")) && Unescaped(Ascii("uid")) && Unescaped(Ascii("resourceVersion"))
  {
  }

  lemma OneToken(path: Units, a: Units)
    requires Unescaped(a)
    ensures PointerTokens(path) == Some([a]) <==> path == [SLASH] + a
  {
    hide PointerTokens, ValidPointer;
    EscapePlain(a);
    assert EscapeTokens([a]) == [a];
    var none: seq<Units> := [];
    assert [a][1..] == none;
    assert Rooted([a]) == [SLASH] + a;
    PointerExact(path, [a]);
  }

  lemma TwoTokens(path: Units, a: Units, b: Units)
    requires Unescaped(a) && Unescaped(b)
    ensures PointerTokens(path) == Some([a, b]) <==> path == [SLASH] + a + ([SLASH] + b)
  {
    hide PointerTokens, ValidPointer;
    EscapePlain(a);
    EscapePlain(b);
    assert EscapeTokens([a, b]) == [a, b];
    assert [a, b][1..] == [b] && [b][1..] == [];
    assert Rooted([b]) == [SLASH] + b;
    PointerExact(path, [a, b]);
  }

  /** Exactly three paths overwrite the identity or the version of an object. */
  lemma ProtectedExactly(path: Units)
    ensures OverwritesProtectedMetadata(path) <==> path in {Metadata(), Uid(), ResourceVersion()}
  {
    hide PointerTokens, Ascii, Metadata, Uid, ResourceVersion, Unescaped;
    PathTexts();
    OneToken(path, Ascii("metadata"));
    TwoTokens(path, Ascii("metadata"), Ascii("uid"));
    TwoTokens(path, Ascii("metadata"), Ascii("resourceVersion"));
    if OverwritesProtectedMetadata(path) { CoveringTokens(path, PointerTokens(path).value); }
  }

  lemma CoveringTokens(path: Units, ts: seq<Units>)
    requires PointerTokens(path) == Some(ts) && (Covers(ts, UidTokens()) || Covers(ts, VersionTokens()))
    ensures ts == [Ascii("metadata")] || ts == UidTokens() || ts == VersionTokens()
  {
    hide Ascii;
    if |ts| == 1 { assert ts == [ts[0]]; } else { assert ts == [ts[0], ts[1]]; }
  }

  /** The two units that a pointer escapes, as section 3 of RFC 6901 has them. */
  lemma EscapedUnits(u: Unit)
    ensures EscapeUnit(u) ==
              if u == '~' as int then ['~' as int, '0' as int]
              else if u == '/' as int then ['~' as int, '1' as int]
              else [u]
  {
  }

  // ---- Operations ----

  function Removal(path: Units): Value {
    Obj(map[Ascii("op") := Str(Ascii("remove")), Ascii("path") := Str(path)])
  }

  function Addition(path: Units, x: Value): Value {
    Obj(map[Ascii("op") := Str(Ascii("add")), Ascii("path") := Str(path), Ascii("value") := x])
  }

  function Replacement(path: Units, x: Value): Value {
    Obj(map[Ascii("op") := Str(Ascii("replace")), Ascii("path") := Str(path), Ascii("value") := x])
  }

  function TestOf(path: Units, x: Value): Value {
    Obj(map[Ascii("op") := Str(Ascii("test")), Ascii("path") := Str(path), Ascii("value") := x])
  }

  predicate IsTestAt(operation: Value, path: Units) {
    operation.Obj? && Ascii("value") in operation.members
    && operation == TestOf(path, operation.members[Ascii("value")])
  }

  predicate IsChangeAt(operation: Value, path: Units) {
    operation == Removal(path)
    || (operation.Obj? && Ascii("value") in operation.members
        && (operation == Addition(path, operation.members[Ascii("value")])
            || operation == Replacement(path, operation.members[Ascii("value")])))
  }

  /** The operation is a test, or a change of a claimed and unprotected place,
      and has no member beyond those of its kind. */
  ghost predicate HasForm(operation: Value, writeSet: seq<Units>) {
    exists path :: ValidPointer(path)
      && (IsTestAt(operation, path)
          || (IsChangeAt(operation, path) && path in writeSet && path !in {Metadata(), Uid(), ResourceVersion()}))
  }

  lemma KeyNames()
    ensures Op() == Ascii("op") && Path() == Ascii("path") && Val() == Ascii("value")
    ensures |Op()| == 2 && |Path()| == 4 && |Val()| == 5
  {
  }

  lemma OpNames()
    ensures |Ascii("add")| == 3 && |Ascii("remove")| == 6 && |Ascii("replace")| == 7 && |Ascii("test")| == 4
  {
  }

  /** An operation with the keys of its kind is the object of that kind. */
  lemma ThreeKeys(m: map<Units, Value>, name: Units, path: Units)
    requires m.Keys == {Op(), Path(), Val()} && m[Op()] == Str(name) && m[Path()] == Str(path)
    ensures m == map[Op() := Str(name), Path() := Str(path), Val() := m[Val()]]
  {
  }

  lemma TwoKeys(m: map<Units, Value>, name: Units, path: Units)
    requires m.Keys == {Op(), Path()} && m[Op()] == Str(name) && m[Path()] == Str(path)
    ensures m == map[Op() := Str(name), Path() := Str(path)]
  {
  }

  /** A permitted operation is one of the four objects. */
  lemma PermittedIsOne(operation: Value)
    requires IsPermitted(operation)
    ensures var path := operation.members[Path()].units;
            ValidPointer(path)
            && if IsMutation(operation) then IsChangeAt(operation, path) else IsTestAt(operation, path)
  {
    hide ValidPointer, Op, Path, Val, Ascii;
    KeyNames();
    OpNames();
    var m := operation.members;
    var path := m[Path()].units;
    if IsOp(operation, "remove") {
      TwoKeys(m, Ascii("remove"), path);
    } else {
      ThreeKeys(m, m[Op()].units, path);
    }
  }

  lemma OneIsPermitted(operation: Value, path: Units)
    requires ValidPointer(path) && (IsChangeAt(operation, path) || IsTestAt(operation, path))
    ensures IsPermitted(operation) && Member(operation, Path()) == Some(Str(path))
    ensures IsMutation(operation) <==> IsChangeAt(operation, path)
  {
    hide ValidPointer, Op, Path, Val, Ascii;
    KeyNames();
    OpNames();
  }

  /** What is allowed behind the tests has that form, and nothing else has. */
  lemma AllowedExactly(operation: Value, writeSet: seq<Units>)
    ensures IsAllowed(operation, writeSet) <==> HasForm(operation, writeSet)
  {
    hide ValidPointer, OverwritesProtectedMetadata, IsPermitted, IsMutation, IsChangeAt, IsTestAt;
    hide Metadata, Uid, ResourceVersion, Path;
    if IsAllowed(operation, writeSet) {
      AllowedPath(operation, writeSet);
      PermittedIsOne(operation);
      ProtectedExactly(operation.members[Path()].units);
    }
    if HasForm(operation, writeSet) {
      var path :| ValidPointer(path)
        && (IsTestAt(operation, path)
            || (IsChangeAt(operation, path) && path in writeSet && path !in {Metadata(), Uid(), ResourceVersion()}));
      OneIsPermitted(operation, path);
      ProtectedExactly(path);
      TestIsNoChange(operation, path);
    }
  }

  lemma TestIsNoChange(operation: Value, path: Units)
    ensures !(IsTestAt(operation, path) && IsChangeAt(operation, path))
  {
    hide Op, Path, Val, Ascii;
    KeyNames();
    OpNames();
    assert IsTestAt(operation, path) ==> Member(operation, Op()) == Some(Str(Ascii("test")));
    assert IsChangeAt(operation, path) ==> Member(operation, Op()) != Some(Str(Ascii("test")));
  }

  // ---- Application ----

  /** What application looks at. */
  predicate Reads(operation: Value, name: Units, path: Units, x: Option<Value>) {
    Member(operation, Op()) == Some(Str(name)) && Member(operation, Path()) == Some(Str(path))
    && Member(operation, Val()) == x
  }

  lemma AdditionReads(path: Units, x: Value)
    ensures Reads(Addition(path, x), Ascii("add"), path, Some(x))
  {
    hide Op, Path, Val, Ascii;
    KeyNames();
  }

  lemma RemovalReads(path: Units)
    ensures Reads(Removal(path), Ascii("remove"), path, None)
  {
    hide Op, Path, Val, Ascii;
    KeyNames();
  }

  lemma ReplacementReads(path: Units, x: Value)
    ensures Reads(Replacement(path, x), Ascii("replace"), path, Some(x))
  {
    hide Op, Path, Val, Ascii;
    KeyNames();
  }

  lemma TestReads(path: Units, x: Value)
    ensures Reads(TestOf(path, x), Ascii("test"), path, Some(x))
  {
    hide Op, Path, Val, Ascii;
    KeyNames();
  }

  lemma ReadsApplies(v: Value, operation: Value, name: Units, path: Units, x: Option<Value>)
    requires Reads(operation, name, path, x) && ValidPointer(path) && (name == Ascii("remove") || x.Some?)
    ensures PointerTokens(path).Some? && PointerTokens(path).value != []
    ensures var ts := PointerTokens(path).value;
            && (name == Ascii("add") ==> Apply(v, operation) == Mutate(v, ts, Add(x.value)))
            && (name == Ascii("remove") ==> Apply(v, operation) == Mutate(v, ts, Remove))
            && (name == Ascii("replace") ==> Apply(v, operation) == Mutate(v, ts, Replace(x.value)))
            && (name == Ascii("test") ==> Apply(v, operation) == if Lookup(v, ts) == x then Some(v) else None)
  {
    hide ValidPointer, Op, Path, Val, Ascii, Mutate, Lookup, Member;
    OpNames();
  }

  /** An addition adds its value at the place of its path. */
  lemma AdditionApplies(v: Value, path: Units, x: Value)
    requires ValidPointer(path)
    ensures PointerTokens(path).Some? && PointerTokens(path).value != []
    ensures Apply(v, Addition(path, x)) == Mutate(v, PointerTokens(path).value, Add(x))
  {
    hide *;
    AdditionReads(path, x);
    ReadsApplies(v, Addition(path, x), Ascii("add"), path, Some(x));
  }

  /** A removal removes what is at the place of its path. */
  lemma RemovalApplies(v: Value, path: Units)
    requires ValidPointer(path)
    ensures PointerTokens(path).Some? && PointerTokens(path).value != []
    ensures Apply(v, Removal(path)) == Mutate(v, PointerTokens(path).value, Remove)
  {
    hide *;
    RemovalReads(path);
    ReadsApplies(v, Removal(path), Ascii("remove"), path, None);
  }

  /** A replacement replaces what is at the place of its path. */
  lemma ReplacementApplies(v: Value, path: Units, x: Value)
    requires ValidPointer(path)
    ensures PointerTokens(path).Some? && PointerTokens(path).value != []
    ensures Apply(v, Replacement(path, x)) == Mutate(v, PointerTokens(path).value, Replace(x))
  {
    hide *;
    ReplacementReads(path, x);
    ReadsApplies(v, Replacement(path, x), Ascii("replace"), path, Some(x));
  }

  /** A test changes nothing, and passes exactly on the value at the place of its path. */
  lemma TestApplies(v: Value, path: Units, x: Value)
    requires ValidPointer(path)
    ensures PointerTokens(path).Some?
    ensures Apply(v, TestOf(path, x)) == if Lookup(v, PointerTokens(path).value) == Some(x) then Some(v) else None
  {
    hide *;
    TestReads(path, x);
    ReadsApplies(v, TestOf(path, x), Ascii("test"), path, Some(x));
  }

  // ---- Places ----

  lemma {:induction false} SameDigits(t: Units)
    requires forall i | 0 <= i < |t| :: 0x30 <= t[i] <= 0x39
    ensures DigitsValue(t) == G.DigitsNumber(t)
  {
    if t == [] {
    } else {
      SameDigits(t[..|t| - 1]);
      assert S.IsDigit(t[|t| - 1]);
    }
  }

  /** The index tokens are the decimal numbers. */
  lemma IndexExactly(t: Units, n: nat)
    ensures IsIndex(t) && IndexOf(t) == n <==> t == Digits(n)
  {
    P.NumberOfDigits(n);
    if IsIndex(t) || t == Digits(n) {
      SameDigits(t);
      P.DigitsOfNumber(t);
    }
  }

  /** The tokens lead to this value: by member names in objects and by decimal
      positions in arrays, as section 4 of RFC 6901 has it. */
  ghost predicate Leads(v: Value, ts: seq<Units>, w: Value)
    decreases |ts|
  {
    if ts == [] then w == v
    else
      match v
      case Obj(m) => ts[0] in m && Leads(m[ts[0]], ts[1..], w)
      case Arr(items) => exists n: nat :: n < |items| && ts[0] == Digits(n) && Leads(items[n], ts[1..], w)
      case _ => false
  }

  lemma {:induction false} PlaceExactly(v: Value, ts: seq<Units>, w: Value)
    ensures Lookup(v, ts) == Some(w) <==> Leads(v, ts, w)
    decreases |ts|
  {
    hide IsIndex, IndexOf, Digits;
    if ts == [] {
    } else if v.Arr? {
      forall n: nat | n < |v.items| ensures Lookup(v.items[n], ts[1..]) == Some(w) <==> Leads(v.items[n], ts[1..], w) {
        PlaceExactly(v.items[n], ts[1..], w);
      }
      forall n: nat ensures IsIndex(ts[0]) && IndexOf(ts[0]) == n <==> ts[0] == Digits(n) {
        IndexExactly(ts[0], n);
      }
    } else if v.Obj? && ts[0] in v.members {
      PlaceExactly(v.members[ts[0]], ts[1..], w);
    }
  }

  // ---- Write sets ----

  lemma KeysAscend(paths: seq<Units>)
    ensures IsCanonicalSet(paths) <==> Ascending(paths)
  {
    hide SortedKeys, Ascending;
    SortedAscend(PathSet(paths));
    SortedKeysAgree(PathSet(paths));
    if Ascending(paths) { AscendingUnique(paths, SortedKeys(ByScalar, PathSet(paths))); }
  }

  /** The operation tests the place of this path for this text. */
  predicate Tests(operation: Value, path: Units, text: Units) {
    operation.Obj? && Ascii("op") in operation.members && operation.members[Ascii("op")] == Str(Ascii("test"))
    && Ascii("path") in operation.members && operation.members[Ascii("path")] == Str(path)
    && Ascii("value") in operation.members && operation.members[Ascii("value")] == Str(text)
  }

  lemma TestsExactly(operation: Value, path: Units, text: Units)
    ensures IsTestOf(operation, path, text) <==> Tests(operation, path, text)
  {
    hide Op, Path, Val, Ascii;
    KeyNames();
  }

  /** The patches that the profile accepts: 3 to 256 operations, of which the first
      two test uid and resourceVersion and the others have the allowed form, with
      the changed paths as write set in strictly ascending order. */
  lemma AcceptedExactly(operations: seq<Value>, uid: Units, version: Units, writeSet: seq<Units>)
    ensures Accepted(operations, uid, version, writeSet) <==>
              3 <= |operations| <= 256
              && Tests(operations[0], Uid(), uid) && Tests(operations[1], ResourceVersion(), version)
              && writeSet != [] && Ascending(writeSet)
              && (forall i | 0 <= i < |writeSet| :: ValidPointer(writeSet[i]))
              && (forall i | 2 <= i < |operations| :: HasForm(operations[i], writeSet))
              && (forall p | p in writeSet :: exists i :: 2 <= i < |operations| && IsChangeAt(operations[i], p))
  {
    hide ValidPointer, Ascending, IsCanonicalSet, HasForm, IsAllowed, IsTestOf, Tests, IsChangeAt, Mutates;
    hide UidPath, VersionPath, Uid, ResourceVersion;
    KeysAscend(writeSet);
    SamePaths();
    if |operations| >= 3 {
      TestsExactly(operations[0], Uid(), uid);
      TestsExactly(operations[1], ResourceVersion(), version);
    }
    forall i | 2 <= i < |operations| ensures IsAllowed(operations[i], writeSet) <==> HasForm(operations[i], writeSet) {
      AllowedExactly(operations[i], writeSet);
    }
    forall i, p | 2 <= i < |operations| && IsAllowed(operations[i], writeSet)
      ensures Mutates(operations[i], p) <==> ValidPointer(p) && IsChangeAt(operations[i], p)
    {
      MutatesExactly(operations[i], p, writeSet);
    }
  }

  lemma SamePaths()
    ensures UidPath() == Uid() && VersionPath() == ResourceVersion()
  {
  }

  lemma MutatesExactly(operation: Value, p: Units, writeSet: seq<Units>)
    requires IsAllowed(operation, writeSet)
    ensures Mutates(operation, p) <==> ValidPointer(p) && IsChangeAt(operation, p)
  {
    hide ValidPointer, OverwritesProtectedMetadata, IsPermitted, IsMutation, IsChangeAt, IsTestAt;
    AllowedPath(operation, writeSet);
    PermittedIsOne(operation);
    if ValidPointer(p) && IsChangeAt(operation, p) { OneIsPermitted(operation, p); }
  }
}

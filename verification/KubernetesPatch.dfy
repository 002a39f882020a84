/** The Kubernetes profile's patch rules, and what they mean for RFC 6902 application. */
module KubernetesPatch {
  import opened Unicode
  import opened Json
  import opened JsonPointer

  // ---- RFC 6902 on the operations a patch may use ----

  function Member(v: Value, name: Units): Option<Value> {
    if v.Obj? && name in v.members then Some(v.members[name]) else None
  }

  function Op(): Units { Ascii("op") }
  function Path(): Units { Ascii("path") }
  function Val(): Units { Ascii("value") }

  predicate IsOp(operation: Value, name: string)
    requires forall i | 0 <= i < |name| :: name[i] as int < 0x80
  {
    Member(operation, Op()) == Some(Str(Ascii(name)))
  }

  /** The tokens of an operation's path; the root itself is no target here. */
  function TokensOf(operation: Value): Option<seq<Units>> {
    match Member(operation, Path())
    case Some(Str(path)) => PointerTokens(path)
    case _ => None
  }

  /** An array index of RFC 6901: decimal digits without a leading zero. */
  predicate IsIndex(t: Units) {
    t != [] && (forall i | 0 <= i < |t| :: 0x30 <= t[i] <= 0x39) && (|t| > 1 ==> t[0] != 0x30)
  }

  function IndexOf(t: Units): nat
    requires IsIndex(t)
  {
    DigitsValue(t)
  }

  function DigitsValue(t: Units): nat
    requires forall i | 0 <= i < |t| :: 0x30 <= t[i] <= 0x39
  {
    if t == [] then 0 else 10 * DigitsValue(t[..|t| - 1]) + (t[|t| - 1] - 0x30) as nat
  }

  const DASH: Units := [0x2D]

  function Child(v: Value, t: Units): Option<Value> {
    match v
    case Obj(m) => if t in m then Some(m[t]) else None
    case Arr(items) => if IsIndex(t) && IndexOf(t) < |items| then Some(items[IndexOf(t)]) else None
    case _ => None
  }

  function Lookup(v: Value, ts: seq<Units>): Option<Value> {
    if ts == [] then Some(v)
    else
      var child := Child(v, ts[0]);
      if child.None? then None else Lookup(child.value, ts[1..])
  }

  datatype Change = Add(value: Value) | Remove | Replace(value: Value)

  /** The change at the last token, inside its parent. */
  function Edit(v: Value, t: Units, change: Change): Option<Value> {
    match v
    case Obj(m) =>
      (match change
       case Add(x) => Some(Obj(m[t := x]))
       case Remove => if t in m then Some(Obj(m - {t})) else None
       case Replace(x) => if t in m then Some(Obj(m[t := x])) else None)
    case Arr(items) =>
      (match change
       case Add(x) =>
         if t == DASH then Some(Arr(items + [x]))
         else if IsIndex(t) && IndexOf(t) <= |items|
           then Some(Arr(items[..IndexOf(t)] + [x] + items[IndexOf(t)..])) else None
       case Remove =>
         if IsIndex(t) && IndexOf(t) < |items|
         then Some(Arr(items[..IndexOf(t)] + items[IndexOf(t) + 1..])) else None
       case Replace(x) =>
         if IsIndex(t) && IndexOf(t) < |items| then Some(Arr(items[IndexOf(t) := x])) else None)
    case _ => None
  }

  function Put(v: Value, t: Units, child: Value): Value
    requires Child(v, t).Some?
  {
    match v
    case Obj(m) => Obj(m[t := child])
    case Arr(items) => Arr(items[IndexOf(t) := child])
  }

  function Mutate(v: Value, ts: seq<Units>, change: Change): Option<Value>
    requires ts != []
  {
    if |ts| == 1 then Edit(v, ts[0], change)
    else
      var child := Child(v, ts[0]);
      if child.None? then None
      else
        var changed := Mutate(child.value, ts[1..], change);
        if changed.None? then None else Some(Put(v, ts[0], changed.value))
  }

  /** One operation of section 4 of RFC 6902; `None` when it fails. */
  function Apply(v: Value, operation: Value): Option<Value> {
    var ts, x := TokensOf(operation), Member(operation, Val());
    if ts.None? || ts.value == [] then None
    else if IsOp(operation, "test") then (if x.Some? && Lookup(v, ts.value) == x then Some(v) else None)
    else if IsOp(operation, "add") then (if x.Some? then Mutate(v, ts.value, Add(x.value)) else None)
    else if IsOp(operation, "remove") then Mutate(v, ts.value, Remove)
    else if IsOp(operation, "replace") then (if x.Some? then Mutate(v, ts.value, Replace(x.value)) else None)
    else None
  }

  function ApplyAll(v: Value, operations: seq<Value>): Option<Value>
    decreases |operations|
  {
    if operations == [] then Some(v)
    else
      var next := Apply(v, operations[0]);
      if next.None? then None else ApplyAll(next.value, operations[1..])
  }

  // ---- The validator ----

  /** "/metadata/uid" and "/metadata/resourceVersion". */
  function UidPath(): Units { [SLASH] + Ascii("metadata") + ([SLASH] + Ascii("uid")) }
  function VersionPath(): Units { [SLASH] + Ascii("metadata") + ([SLASH] + Ascii("resourceVersion")) }
  function UidTokens(): seq<Units> { [Ascii("metadata"), Ascii("uid")] }
  function VersionTokens(): seq<Units> { [Ascii("metadata"), Ascii("resourceVersion")] }

  /** `tokens` names `target` itself or one of its ancestors. */
  predicate Covers(tokens: seq<Units>, target: seq<Units>) {
    |tokens| <= |target| && forall i | 0 <= i < |tokens| :: tokens[i] == target[i]
  }

  predicate OverwritesProtectedMetadata(path: Units) {
    var ts := PointerTokens(path);
    ts.Some? && (Covers(ts.value, UidTokens()) || Covers(ts.value, VersionTokens()))
  }

  predicate IsTestOf(operation: Value, path: Units, committed: Units) {
    IsOp(operation, "test") && Member(operation, Path()) == Some(Str(path))
    && Member(operation, Val()) == Some(Str(committed))
  }

  /** `exactKeys` with the value required except on a removal. */
  predicate HasExactKeys(operation: Value) {
    operation.Obj? && Op() in operation.members && Path() in operation.members
    && operation.members.Keys <= (if IsOp(operation, "remove") then {Op(), Path()} else {Op(), Path(), Val()})
    && (!IsOp(operation, "remove") ==> Val() in operation.members)
  }

  predicate IsPermitted(operation: Value) {
    (IsOp(operation, "add") || IsOp(operation, "remove") || IsOp(operation, "replace") || IsOp(operation, "test"))
    && HasExactKeys(operation)
    && operation.members[Path()].Str? && ValidPointer(operation.members[Path()].units)
  }

  predicate IsMutation(operation: Value) { !IsOp(operation, "test") }

  /** Only adding and removing can renumber what follows in an array. */
  predicate Shifts(operation: Value) { IsOp(operation, "add") || IsOp(operation, "remove") }

  /** What is checked of one operation behind the two tests. */
  predicate IsAllowed(operation: Value, writeSet: seq<Units>) {
    IsPermitted(operation)
    && (IsMutation(operation) ==>
          var path := operation.members[Path()].units;
          !OverwritesProtectedMetadata(path) && path in writeSet)
  }

  function PathSet(paths: seq<Units>): set<Units> { set p | p in paths }

  /** Sorted by UTF-8 bytes, without repetition. */
  predicate IsCanonicalSet(paths: seq<Units>) { SortedKeys(ByByte, PathSet(paths)) == paths }

  /** The patch that the profile accepts for an object with this identity and version. */
  ghost predicate Accepted(operations: seq<Value>, uid: Units, version: Units, writeSet: seq<Units>) {
    3 <= |operations| <= 256
    && IsTestOf(operations[0], UidPath(), uid) && IsTestOf(operations[1], VersionPath(), version)
    && writeSet != [] && (forall i | 0 <= i < |writeSet| :: ValidPointer(writeSet[i])) && IsCanonicalSet(writeSet)
    && (forall i | 2 <= i < |operations| :: IsAllowed(operations[i], writeSet))
    && (forall p | p in writeSet :: exists i :: 2 <= i < |operations| && Mutates(operations[i], p))
  }

  ghost predicate Mutates(operation: Value, p: Units) {
    IsMutation(operation) && Member(operation, Path()) == Some(Str(p))
  }

  method ValidatePatch(operations: seq<Value>, uid: Units, version: Units, writeSet: seq<Units>) returns (ok: bool)
    ensures ok <==> Accepted(operations, uid, version, writeSet)
  {
    hide IsAllowed, IsTestOf, ValidPointer, SortedKeys, IsMutation, Member;
    if !(3 <= |operations| <= 256) {
      return false;
    }
    if !IsTestOf(operations[0], UidPath(), uid) || !IsTestOf(operations[1], VersionPath(), version) {
      return false;
    }
    if writeSet == [] || (exists i :: 0 <= i < |writeSet| && !ValidPointer(writeSet[i])) {
      return false;
    }
    if SortedKeys(ByByte, PathSet(writeSet)) != writeSet {
      return false;
    }
    var mutationPaths: seq<Units> := [];
    var index := 2;
    while index < |operations|
      invariant 2 <= index <= |operations|
      invariant forall i | 2 <= i < index :: IsAllowed(operations[i], writeSet)
      invariant forall p :: p in mutationPaths <==> exists i :: 2 <= i < index && Mutates(operations[i], p)
      invariant forall p :: p in mutationPaths ==> p in writeSet
    {
      var operation := operations[index];
      if !IsAllowed(operation, writeSet) {
        return false;
      }
      AllowedPath(operation, writeSet);
      if IsMutation(operation) {
        mutationPaths := mutationPaths + [operation.members[Path()].units];
      }
      index := index + 1;
    }
    SameSet(mutationPaths, writeSet);
    return SortedKeys(ByByte, PathSet(mutationPaths)) == writeSet;
  }

  lemma AllowedPath(operation: Value, writeSet: seq<Units>)
    requires IsAllowed(operation, writeSet)
    ensures operation.Obj? && Path() in operation.members && operation.members[Path()].Str?
    ensures var path := operation.members[Path()].units;
            Member(operation, Path()) == Some(Str(path)) && ValidPointer(path)
            && (IsMutation(operation) ==> !OverwritesProtectedMetadata(path) && path in writeSet)
  {
  }

  lemma SameSet(paths: seq<Units>, writeSet: seq<Units>)
    requires SortedKeys(ByByte, PathSet(writeSet)) == writeSet && forall p | p in paths :: p in writeSet
    ensures SortedKeys(ByByte, PathSet(paths)) == writeSet <==> forall p | p in writeSet :: p in paths
  {
    hide SortedKeys;
    if SortedKeys(ByByte, PathSet(paths)) == writeSet {
      forall p | p in writeSet ensures p in paths {
        assert p in SortedKeys(ByByte, PathSet(paths));
      }
    }
    if forall p | p in writeSet :: p in paths {
      assert PathSet(paths) == PathSet(writeSet);
    }
  }

  // ---- Where a change cannot reach ----

  /** Both stand in the same parent, and `target` passes through it or ends there. */
  predicate SharesParent(ts: seq<Units>, target: seq<Units>) {
    ts != [] && |ts| <= |target| && ts[..|ts| - 1] == target[..|ts| - 1]
  }

  lemma DashIsNoIndex()
    ensures !IsIndex(DASH)
  {
    assert DASH[0] == 0x2D;
  }

  /** The length of the array at that place, if there is one. */
  function LengthAt(v: Value, ts: seq<Units>): Option<nat> {
    var x := Lookup(v, ts);
    if x.Some? && x.value.Arr? then Some(|x.value.items|) else None
  }

  /** The position that a token names in an array of this length; `-` is behind the last. */
  function PositionIn(t: Units, length: nat): Option<nat> {
    if t == DASH then Some(length) else if IsIndex(t) then Some(IndexOf(t)) else None
  }

  /** Adding or removing at `ts` cannot move `target` to another position of an
      array, nor bring it into being: it is counted before the position that `ts` names. */
  predicate Shielded(v: Value, ts: seq<Units>, target: seq<Units>) {
    SharesParent(ts, target) && IsIndex(target[|ts| - 1]) ==>
      var length := LengthAt(v, ts[..|ts| - 1]);
      length.Some? ==>
        var position := PositionIn(ts[|ts| - 1], length.value);
        position.Some? ==> IndexOf(target[|ts| - 1]) < position.value
  }

  lemma {:induction false} DigitsPositive(t: Units)
    requires t != [] && (forall i | 0 <= i < |t| :: 0x30 <= t[i] <= 0x39) && t[0] != 0x30
    ensures DigitsValue(t) > 0
  {
    if |t| > 1 { DigitsPositive(t[..|t| - 1]); }
  }

  /** Without leading zeros, an array position has one spelling. */
  lemma {:induction false} IndexInjective(a: Units, b: Units)
    requires IsIndex(a) && IsIndex(b) && IndexOf(a) == IndexOf(b)
    ensures a == b
  {
    if |a| > 1 { DigitsPositive(a[..|a| - 1]); }
    if |b| > 1 { DigitsPositive(b[..|b| - 1]); }
    if |a| > 1 && |b| > 1 {
      IndexInjective(a[..|a| - 1], b[..|b| - 1]);
      assert a == a[..|a| - 1] + [a[|a| - 1]] && b == b[..|b| - 1] + [b[|b| - 1]];
    } else {
      assert DigitsValue(a[..|a| - 1]) == DigitsValue(b[..|b| - 1]) == 0;
    }
  }

  /** A change at one place leaves every other place alone that it neither covers
      nor lies below, unless it shifts the array that place is counted in. A
      replacement shifts nothing. */
  lemma {:induction false} ChangeMisses(v: Value, ts: seq<Units>, change: Change, target: seq<Units>)
    requires ts != [] && Mutate(v, ts, change).Some? && (change.Replace? || Shielded(v, ts, target))
    requires !Covers(ts, target) && !Covers(target, ts)
    ensures Lookup(Mutate(v, ts, change).value, target) == Lookup(v, target)
    decreases |ts|
  {
    hide Covers, IsIndex, IndexOf, Shielded;
    MissesMeanDifferent(ts, target);
    if |ts| == 1 {
      EditMisses(v, ts, change, target);
    } else if ts[0] == target[0] {
      var child := Child(v, ts[0]).value;
      if !change.Replace? { ShieldedChild(v, ts, target); }
      ChangeMisses(child, ts[1..], change, target[1..]);
      PutHits(v, ts[0], Mutate(child, ts[1..], change).value);
    } else {
      PutMisses(v, ts[0], Mutate(Child(v, ts[0]).value, ts[1..], change).value, target[0]);
    }
  }

  lemma EditMisses(v: Value, ts: seq<Units>, change: Change, target: seq<Units>)
    requires |ts| == 1 && Edit(v, ts[0], change).Some? && target != [] && ts[0] != target[0]
    requires change.Replace? || Shielded(v, ts, target)
    ensures Child(Edit(v, ts[0], change).value, target[0]) == Child(v, target[0])
  {
    hide IsIndex, IndexOf;
    assert ts[..0] == target[..0] == [];
    DashIsNoIndex();
    if v.Arr? && IsIndex(ts[0]) && IsIndex(target[0]) && IndexOf(ts[0]) == IndexOf(target[0]) {
      IndexInjective(ts[0], target[0]);
    }
  }

  lemma PutHits(v: Value, t: Units, child: Value)
    requires Child(v, t).Some?
    ensures Child(Put(v, t, child), t) == Some(child)
  {
  }

  lemma PutMisses(v: Value, t: Units, child: Value, other: Units)
    requires Child(v, t).Some? && t != other
    ensures Child(Put(v, t, child), other) == Child(v, other)
  {
    hide IndexOf;
    if v.Arr? && IsIndex(other) && IndexOf(other) == IndexOf(t) { IndexInjective(other, t); }
  }

  lemma ShieldedChild(v: Value, ts: seq<Units>, target: seq<Units>)
    requires |ts| > 1 && target != [] && ts[0] == target[0] && Child(v, ts[0]).Some? && Shielded(v, ts, target)
    ensures Shielded(Child(v, ts[0]).value, ts[1..], target[1..])
  {
    hide IsIndex, Child;
    if SharesParent(ts[1..], target[1..]) {
      var n := |ts| - 1;
      assert ts[..n] == [ts[0]] + ts[1..][..n - 1] && target[..n] == [target[0]] + target[1..][..n - 1];
      assert ts[..n][1..] == ts[1..][..n - 1];
    }
  }

  /** Places above a change stay arrays, or stay none, and no array gets shorter
      but the one from which the change removes. */
  lemma {:induction false} LengthAbove(v: Value, ts: seq<Units>, change: Change, parent: seq<Units>)
    requires |parent| < |ts| && parent == ts[..|parent|] && Mutate(v, ts, change).Some?
    ensures var before, after := LengthAt(v, parent), LengthAt(Mutate(v, ts, change).value, parent);
            (before.Some? <==> after.Some?)
            && (before.Some? ==>
                  before.value <= after.value
                  || (change.Remove? && |ts| == |parent| + 1 && IsIndex(ts[|parent|])
                      && IndexOf(ts[|parent|]) < before.value == after.value + 1))
    decreases |ts|
  {
    hide IsIndex, IndexOf;
    if parent != [] {
      var child := Child(v, ts[0]).value;
      assert parent[0] == ts[0] && parent[1..] == ts[1..][..|parent| - 1];
      LengthAbove(child, ts[1..], change, parent[1..]);
      PutHits(v, ts[0], Mutate(child, ts[1..], change).value);
    }
  }

  /** A change that misses the target takes no other path's shield away. */
  lemma ShieldKept(v: Value, at: seq<Units>, change: Change, ts: seq<Units>, target: seq<Units>)
    requires at != [] && Mutate(v, at, change).Some? && !Covers(at, target) && !Covers(target, at)
    requires (change.Replace? || Shielded(v, at, target)) && Shielded(v, ts, target)
    ensures Shielded(Mutate(v, at, change).value, ts, target)
  {
    hide Mutate, Lookup, IsIndex, IndexOf;
    if SharesParent(ts, target) && IsIndex(target[|ts| - 1]) {
      var parent := ts[..|ts| - 1];
      assert forall i | 0 <= i < |parent| :: parent[i] == target[..|parent|][i] == target[i];
      if Covers(parent, at) {
        assert parent == at[..|parent|];
        assert |at| == |parent| + 1 ==> at[..|at| - 1] == parent == target[..|at| - 1];
        DashIsNoIndex();
        LengthAbove(v, at, change, parent);
      } else {
        assert SharesParent(at, parent) ==> at[..|at| - 1] == parent[..|at| - 1] == target[..|at| - 1];
        assert SharesParent(at, parent) ==> parent[|at| - 1] == target[|at| - 1];
        ChangeMisses(v, at, change, parent);
      }
    }
  }

  lemma CoversTail(a: seq<Units>, b: seq<Units>)
    requires a != [] && b != [] && a[0] == b[0]
    ensures Covers(a[1..], b[1..]) <==> Covers(a, b)
  {
    assert forall i | 0 < i < |a| :: a[i] == a[1..][i - 1];
    assert forall i | 0 < i < |b| :: b[i] == b[1..][i - 1];
    assert forall i | 0 <= i < |a| - 1 :: a[1..][i] == a[i + 1];
    assert forall i | 0 <= i < |b| - 1 :: b[1..][i] == b[i + 1];
  }

  lemma MissesMeanDifferent(ts: seq<Units>, target: seq<Units>)
    requires ts != [] && !Covers(ts, target) && !Covers(target, ts)
    ensures target != [] && (ts[0] == target[0] ==>
              |ts| > 1 && |target| > 1 && !Covers(ts[1..], target[1..]) && !Covers(target[1..], ts[1..]))
  {
    if target != [] && ts[0] == target[0] {
      CoversTail(ts, target);
      CoversTail(target, ts);
    }
  }

  // ---- What a change does to its parent ----

  /** The object after the change of one member. */
  ghost predicate MemberChanged(m: map<Units, Value>, after: map<Units, Value>, t: Units, change: Change) {
    (forall name | name != t :: (name in after <==> name in m) && (name in m ==> after[name] == m[name]))
    && (match change
        case Add(x) => t in after && after[t] == x
        case Remove => t in m && t !in after
        case Replace(x) => t in m && t in after && after[t] == x)
  }

  /** The array after the change at one position; what follows moves by one. */
  predicate ItemChanged(items: seq<Value>, after: seq<Value>, i: nat, change: Change) {
    i <= |items| && i <= |after| && after[..i] == items[..i]
    && (match change
        case Add(x) => i < |after| && after[i] == x && after[i + 1..] == items[i..]
        case Remove => i < |items| && after[i..] == items[i + 1..]
        case Replace(x) => i < |items| && i < |after| && after[i] == x && after[i + 1..] == items[i + 1..])
  }

  ghost predicate ParentChanged(v: Value, after: Value, t: Units, change: Change) {
    match v
    case Obj(m) => after.Obj? && MemberChanged(m, after.members, t, change)
    case Arr(items) =>
      after.Arr?
      && (if t == DASH then change.Add? && ItemChanged(items, after.items, |items|, change)
          else IsIndex(t) && ItemChanged(items, after.items, IndexOf(t), change))
    case _ => false
  }

  /** A change that succeeds changes the parent of its place just there. */
  lemma {:induction false} ChangeTakes(v: Value, ts: seq<Units>, change: Change)
    requires ts != [] && Mutate(v, ts, change).Some?
    ensures var parent := ts[..|ts| - 1]; var u := Mutate(v, ts, change).value;
            Lookup(v, parent).Some? && Lookup(u, parent).Some?
            && ParentChanged(Lookup(v, parent).value, Lookup(u, parent).value, ts[|ts| - 1], change)
    decreases |ts|
  {
    hide IsIndex, IndexOf, ParentChanged;
    var parent := ts[..|ts| - 1];
    if |ts| == 1 {
      EditTakes(v, ts[0], change);
    } else {
      var child := Child(v, ts[0]).value;
      ChangeTakes(child, ts[1..], change);
      PutHits(v, ts[0], Mutate(child, ts[1..], change).value);
      assert parent[0] == ts[0] && parent[1..] == ts[1..][..|ts| - 2];
    }
  }

  /** The parent can take the change at this token. */
  predicate TakesChange(v: Value, t: Units, change: Change) {
    match v
    case Obj(m) => change.Add? || t in m
    case Arr(items) =>
      (t == DASH && change.Add?) || (IsIndex(t) && (IndexOf(t) < |items| || (change.Add? && IndexOf(t) == |items|)))
    case _ => false
  }

  /** A change succeeds exactly if its parent is there and can take it. */
  lemma {:induction false} ChangeSucceeds(v: Value, ts: seq<Units>, change: Change)
    requires ts != []
    ensures var parent := Lookup(v, ts[..|ts| - 1]);
            Mutate(v, ts, change).Some? <==> parent.Some? && TakesChange(parent.value, ts[|ts| - 1], change)
    decreases |ts|
  {
    hide IsIndex, IndexOf;
    var parent := ts[..|ts| - 1];
    if |ts| == 1 {
      DashIsNoIndex();
    } else {
      assert parent[0] == ts[0] && parent[1..] == ts[1..][..|ts| - 2];
      var child := Child(v, ts[0]);
      if child.Some? { ChangeSucceeds(child.value, ts[1..], change); }
    }
  }

  lemma EditTakes(v: Value, t: Units, change: Change)
    requires Edit(v, t, change).Some?
    ensures ParentChanged(v, Edit(v, t, change).value, t, change)
  {
    hide IndexOf, IsIndex;
    DashIsNoIndex();
  }

  /** Nothing can be changed below a string. */
  lemma {:induction false} NothingBelowText(v: Value, ts: seq<Units>, change: Change, target: seq<Units>, text: Units)
    requires ts != [] && Lookup(v, target) == Some(Str(text)) && Covers(target, ts) && |target| < |ts|
    ensures Mutate(v, ts, change).None?
    decreases |ts|
  {
    if target != [] {
      assert ts[0] == target[0];
      assert forall i | 0 <= i < |target| - 1 :: target[1..][i] == ts[1..][i];
      NothingBelowText(Child(v, ts[0]).value, ts[1..], change, target[1..], text);
    }
  }

  // ---- Whole patches ----

  lemma {:induction false} EscapePlain(t: Units)
    requires forall i | 0 <= i < |t| :: t[i] != TILDE && t[i] != SLASH
    ensures EscapeToken(t) == t
  {
    if t != [] {
      EscapePlain(t[1..]);
      assert t == [t[0]] + t[1..];
    }
  }

  lemma PathOfTwo(a: Units, b: Units)
    requires forall i | 0 <= i < |a| :: a[i] != TILDE && a[i] != SLASH
    requires forall i | 0 <= i < |b| :: b[i] != TILDE && b[i] != SLASH
    ensures PointerTokens([SLASH] + a + ([SLASH] + b)) == Some([a, b])
  {
    hide PointerTokens;
    EscapePlain(a);
    EscapePlain(b);
    assert EscapeTokens([a, b]) == [a, b];
    assert [a, b][1..] == [b] && [b][1..] == [];
    assert Rooted([b]) == [SLASH] + b;
    PointerExact([SLASH] + a + ([SLASH] + b), [a, b]);
  }

  lemma UidTokensRead()
    ensures PointerTokens(UidPath()) == Some(UidTokens())
  {
    hide PointerTokens;
    PathOfTwo(Ascii("metadata"), Ascii("uid"));
  }

  lemma VersionTokensRead()
    ensures PointerTokens(VersionPath()) == Some(VersionTokens())
  {
    hide PointerTokens;
    PathOfTwo(Ascii("metadata"), Ascii("resourceVersion"));
  }

  /** The protected places lie in no array. */
  lemma ProtectedNames()
    ensures forall i | 0 <= i < 2 :: !IsIndex(UidTokens()[i]) && !IsIndex(VersionTokens()[i])
  {
    assert Ascii("metadata")[0] == 0x6D && Ascii("uid")[0] == 0x75 && Ascii("resourceVersion")[0] == 0x72;
  }

  /** A permitted operation that succeeds is a test, or changes the place its path names. */
  lemma AppliedIs(v: Value, operation: Value, writeSet: seq<Units>) returns (ts: seq<Units>, change: Change)
    requires IsAllowed(operation, writeSet) && Apply(v, operation).Some?
    ensures IsMutation(operation) ==> (Shifts(operation) <==> !change.Replace?)
    ensures IsMutation(operation) ==>
              ts != [] && Mutate(v, ts, change) == Apply(v, operation)
              && exists path :: Member(operation, Path()) == Some(Str(path)) && PointerTokens(path) == Some(ts)
                                && path in writeSet && !OverwritesProtectedMetadata(path)
    ensures !IsMutation(operation) ==> Apply(v, operation) == Some(v)
  {
    hide PointerTokens, Mutate, Lookup, OverwritesProtectedMetadata, ValidPointer;
    ts, change := TokensOf(operation).value, Remove;
    AllowedPath(operation, writeSet);
    var x := Member(operation, Val());
    if IsMutation(operation) {
      if IsOp(operation, "add") {
        change := Add(x.value);
      } else if !IsOp(operation, "remove") {
        change := Replace(x.value);
      }
    }
  }

  /** Text at a named place that the path does not overwrite survives one operation. */
  lemma TextSurvives(v: Value, operation: Value, writeSet: seq<Units>, target: seq<Units>, text: Units)
    requires IsAllowed(operation, writeSet) && Apply(v, operation).Some?
    requires target == UidTokens() || target == VersionTokens()
    requires Lookup(v, target) == Some(Str(text))
    ensures Lookup(Apply(v, operation).value, target) == Some(Str(text))
  {
    hide IsAllowed, Apply, Lookup, Mutate, PointerTokens, IsMutation, Member;
    var ts, change := AppliedIs(v, operation, writeSet);
    if IsMutation(operation) {
      assert !Covers(ts, target);
      ProtectedNames();
      if Covers(target, ts) {
        NothingBelowText(v, ts, change, target, text);
      } else {
        ChangeMisses(v, ts, change, target);
      }
    }
  }

  ghost predicate AllAllowed(operations: seq<Value>, writeSet: seq<Units>) {
    forall i | 0 <= i < |operations| :: IsAllowed(operations[i], writeSet)
  }

  lemma {:induction false} TextSurvivesAll(
    v: Value, operations: seq<Value>, writeSet: seq<Units>, target: seq<Units>, text: Units)
    requires AllAllowed(operations, writeSet) && ApplyAll(v, operations).Some?
    requires target == UidTokens() || target == VersionTokens()
    requires Lookup(v, target) == Some(Str(text))
    ensures Lookup(ApplyAll(v, operations).value, target) == Some(Str(text))
    decreases |operations|
  {
    hide IsAllowed, Apply, Lookup, UidTokens, VersionTokens;
    if operations != [] {
      TextSurvives(v, operations[0], writeSet, target, text);
      TextSurvivesAll(Apply(v, operations[0]).value, operations[1..], writeSet, target, text);
    }
  }

  lemma TestPassed(v: Value, operation: Value, path: Units, target: seq<Units>, committed: Units)
    requires IsTestOf(operation, path, committed) && PointerTokens(path) == Some(target)
    requires Apply(v, operation).Some?
    ensures Apply(v, operation) == Some(v) && Lookup(v, target) == Some(Str(committed))
  {
    hide PointerTokens, Lookup;
  }

  lemma {:induction false} ApplySplit(v: Value, operations: seq<Value>)
    requires |operations| >= 2 && ApplyAll(v, operations).Some?
    requires Apply(v, operations[0]) == Some(v) && Apply(v, operations[1]) == Some(v)
    ensures ApplyAll(v, operations) == ApplyAll(v, operations[2..])
  {
    hide Apply;
    assert operations[1..][0] == operations[1] && operations[1..][1..] == operations[2..];
  }

  lemma FirstSucceeds(v: Value, operations: seq<Value>)
    requires operations != [] && ApplyAll(v, operations).Some?
    ensures Apply(v, operations[0]).Some? && ApplyAll(Apply(v, operations[0]).value, operations[1..]).Some?
  {
    hide Apply;
  }

  /** The tests of an accepted patch passed, and what follows them is allowed. */
  lemma AcceptedTail(v: Value, operations: seq<Value>, uid: Units, version: Units, writeSet: seq<Units>)
    requires Accepted(operations, uid, version, writeSet) && ApplyAll(v, operations).Some?
    ensures |operations| >= 2 && AllAllowed(operations[2..], writeSet)
    ensures ApplyAll(v, operations) == ApplyAll(v, operations[2..])
    ensures Lookup(v, UidTokens()) == Some(Str(uid)) && Lookup(v, VersionTokens()) == Some(Str(version))
  {
    hide IsAllowed, Apply, ApplyAll, IsTestOf, Lookup, PointerTokens, UidPath, VersionPath, UidTokens, VersionTokens;
    hide IsCanonicalSet, ValidPointer;
    UidTokensRead();
    VersionTokensRead();
    FirstSucceeds(v, operations);
    TestPassed(v, operations[0], UidPath(), UidTokens(), uid);
    FirstSucceeds(v, operations[1..]);
    TestPassed(v, operations[1], VersionPath(), VersionTokens(), version);
    ApplySplit(v, operations);
  }

  /** Whenever an accepted patch applies to an object, the result has exactly the
      committed uid and resourceVersion, as the object had. */
  lemma IdentityKept(v: Value, operations: seq<Value>, uid: Units, version: Units, writeSet: seq<Units>)
    requires Accepted(operations, uid, version, writeSet) && ApplyAll(v, operations).Some?
    ensures var u := ApplyAll(v, operations).value;
            Lookup(u, UidTokens()) == Lookup(v, UidTokens()) == Some(Str(uid))
            && Lookup(u, VersionTokens()) == Lookup(v, VersionTokens()) == Some(Str(version))
  {
    hide Accepted, ApplyAll, AllAllowed, Lookup, UidTokens, VersionTokens;
    AcceptedTail(v, operations, uid, version, writeSet);
    TextSurvivesAll(v, operations[2..], writeSet, UidTokens(), uid);
    TextSurvivesAll(v, operations[2..], writeSet, VersionTokens(), version);
  }

  /** Neither above, at nor below anything in the write set. */
  ghost predicate Outside(target: seq<Units>, writeSet: seq<Units>) {
    forall p | p in writeSet :: PointerTokens(p).Some? ==>
      !Covers(PointerTokens(p).value, target) && !Covers(target, PointerTokens(p).value)
  }

  /** No operation adds or removes in an array at or before the position in
      which the target, or what it lies in, is counted there. */
  ghost predicate Unshifted(v: Value, target: seq<Units>, operations: seq<Value>) {
    forall i | 0 <= i < |operations| && Shifts(operations[i]) :: UnshiftedBy(v, target, operations[i])
  }

  predicate UnshiftedBy(v: Value, target: seq<Units>, operation: Value) {
    TokensOf(operation).Some? ==> Shielded(v, TokensOf(operation).value, target)
  }

  lemma {:induction false} OutsideSurvives(v: Value, operations: seq<Value>, writeSet: seq<Units>, target: seq<Units>)
    requires AllAllowed(operations, writeSet) && ApplyAll(v, operations).Some?
    requires Outside(target, writeSet) && Unshifted(v, target, operations)
    ensures Lookup(ApplyAll(v, operations).value, target) == Lookup(v, target)
    decreases |operations|
  {
    hide IsAllowed, Apply, Lookup, Mutate, PointerTokens, IsMutation, Member, Covers, Shielded, Shifts;
    hide OverwritesProtectedMetadata;
    if operations != [] {
      var ts, change := AppliedIs(v, operations[0], writeSet);
      if IsMutation(operations[0]) {
        assert Shifts(operations[0]) ==> UnshiftedBy(v, target, operations[0]);
        ChangeMisses(v, ts, change, target);
        forall i | 1 <= i < |operations| && Shifts(operations[i])
          ensures UnshiftedBy(Mutate(v, ts, change).value, target, operations[i])
        {
          assert UnshiftedBy(v, target, operations[i]);
          if TokensOf(operations[i]).Some? { ShieldKept(v, ts, change, TokensOf(operations[i]).value, target); }
        }
      }
      OutsideSurvives(Apply(v, operations[0]).value, operations[1..], writeSet, target);
    }
  }

  /** An accepted patch touches nothing outside the claimed write set: every
      other place keeps its value, or its absence, unless an operation adds or
      removes in an array at or before the position in which it is counted. */
  lemma WriteSetBounds(
    v: Value, operations: seq<Value>, uid: Units, version: Units, writeSet: seq<Units>, target: seq<Units>)
    requires Accepted(operations, uid, version, writeSet) && ApplyAll(v, operations).Some?
    requires Outside(target, writeSet) && Unshifted(v, target, operations)
    ensures Lookup(ApplyAll(v, operations).value, target) == Lookup(v, target)
  {
    hide Accepted, ApplyAll, AllAllowed, Lookup, Outside, UnshiftedBy;
    AcceptedTail(v, operations, uid, version, writeSet);
    OutsideSurvives(v, operations[2..], writeSet, target);
  }

  // ---- Accepted patches exist and apply ----

  function Operation(name: string, path: Units, value: Value): Value
    requires forall i | 0 <= i < |name| :: name[i] as int < 0x80
  {
    Obj(map[Op() := Str(Ascii(name)), Path() := Str(path), Val() := value])
  }

  function SpecPath(): Units { [SLASH] + Ascii("spec") }

  /** Replaces the specification of an object with this identity and version. */
  function ReplaceSpec(uid: Units, version: Units, spec: Value): seq<Value> {
    [Operation("test", UidPath(), Str(uid)), Operation("test", VersionPath(), Str(version)),
     Operation("replace", SpecPath(), spec)]
  }

  function ObjectWith(uid: Units, version: Units, spec: Value): Value {
    Obj(map[Ascii("metadata") := Obj(map[Ascii("uid") := Str(uid), Ascii("resourceVersion") := Str(version)]),
            Ascii("spec") := spec])
  }

  lemma OperationParts(name: string, path: Units, value: Value)
    requires forall i | 0 <= i < |name| :: name[i] as int < 0x80
    ensures var operation := Operation(name, path, value);
            Member(operation, Op()) == Some(Str(Ascii(name))) && Member(operation, Path()) == Some(Str(path))
            && Member(operation, Val()) == Some(value)
            && operation.Obj? && operation.members.Keys == {Op(), Path(), Val()}
            && operation.members[Path()] == Str(path)
  {
    assert |Op()| == 2 && |Path()| == 4 && |Val()| == 5;
  }

  lemma SpecTokens()
    ensures ValidPointer(SpecPath()) && PointerTokens(SpecPath()) == Some([Ascii("spec")])
    ensures !OverwritesProtectedMetadata(SpecPath())
  {
    var spec := Ascii("spec");
    EscapePlain(spec);
    assert EscapeTokens([spec]) == [spec];
    var none: seq<Units> := [];
    RootedCons(spec, none);
    assert [spec] + none == [spec] && spec + Rooted(none) == spec;
    PointerExact(SpecPath(), [spec]);
    assert |spec| != |Ascii("metadata")|;
  }

  lemma SpecIsCanonicalSet()
    ensures IsCanonicalSet([SpecPath()])
  {
    assert PathSet([SpecPath()]) == {SpecPath()};
    var sorted := SortedKeys(ByByte, {SpecPath()});
    assert |sorted| == 1 && sorted[0] in sorted;
  }

  /** For every identity, version and specification there is an accepted patch
      that applies to the object and sets the specification. */
  lemma SpecReplaced(uid: Units, version: Units, was: Value, spec: Value)
    ensures Accepted(ReplaceSpec(uid, version, spec), uid, version, [SpecPath()])
    ensures ApplyAll(ObjectWith(uid, version, was), ReplaceSpec(uid, version, spec))
            == Some(ObjectWith(uid, version, spec))
  {
    hide IsCanonicalSet, PointerTokens, OverwritesProtectedMetadata, ValidPointer, Member, Operation;
    hide Op, Path, Val, UidPath, VersionPath, SpecPath, UidTokens, VersionTokens, Lookup, Mutate, ObjectWith;
    var operations, v := ReplaceSpec(uid, version, spec), ObjectWith(uid, version, was);
    OperationParts("test", UidPath(), Str(uid));
    OperationParts("test", VersionPath(), Str(version));
    OperationParts("replace", SpecPath(), spec);
    SpecTokens();
    SpecIsCanonicalSet();
    UidTokensRead();
    VersionTokensRead();
    ObjectParts(uid, version, was, spec);
    NamesDiffer();
    assert IsPermitted(operations[2]);
    assert Mutates(operations[2], SpecPath());
    assert Apply(v, operations[0]) == Some(v);
    assert Apply(v, operations[1]) == Some(v);
    assert Apply(v, operations[2]) == Some(ObjectWith(uid, version, spec));
    ApplyThree(v, operations, ObjectWith(uid, version, spec));
  }

  lemma ApplyThree(v: Value, operations: seq<Value>, w: Value)
    requires |operations| == 3 && Apply(v, operations[0]) == Apply(v, operations[1]) == Some(v)
    requires Apply(v, operations[2]) == Some(w)
    ensures ApplyAll(v, operations) == Some(w)
  {
    hide Apply;
    var second, third := operations[1..], operations[1..][1..];
    assert second[0] == operations[1] && third[0] == operations[2] && third[1..] == [];
    assert ApplyAll(w, third[1..]) == Some(w);
    assert ApplyAll(v, second) == ApplyAll(v, third);
  }

  lemma NamesDiffer()
    ensures Ascii("test") != Ascii("replace") && Ascii("add") != Ascii("replace") && Ascii("remove") != Ascii("replace")
    ensures Ascii("add") != Ascii("test") && Ascii("remove") != Ascii("test")
  {
    assert |Ascii("test")| == 4 && |Ascii("replace")| == 7 && |Ascii("add")| == 3 && |Ascii("remove")| == 6;
  }

  lemma LookupTwo(v: Value, a: Units, b: Units)
    requires v.Obj? && a in v.members && v.members[a].Obj? && b in v.members[a].members
    ensures Lookup(v, [a, b]) == Some(v.members[a].members[b])
  {
    assert [a, b][1..] == [b];
    assert Lookup(v.members[a], [b]) == Lookup(v.members[a].members[b], [b][1..]);
  }

  lemma ObjectParts(uid: Units, version: Units, was: Value, spec: Value)
    ensures var v := ObjectWith(uid, version, was);
            Lookup(v, UidTokens()) == Some(Str(uid)) && Lookup(v, VersionTokens()) == Some(Str(version))
            && UidTokens() != [] && VersionTokens() != []
            && Mutate(v, [Ascii("spec")], Replace(spec)) == Some(ObjectWith(uid, version, spec))
  {
    var v, metadata := ObjectWith(uid, version, was), Ascii("metadata");
    assert |metadata| == 8 && |Ascii("spec")| == 4 && |Ascii("uid")| == 3 && |Ascii("resourceVersion")| == 15;
    var inner := v.members[metadata];
    LookupTwo(v, metadata, Ascii("uid"));
    LookupTwo(v, metadata, Ascii("resourceVersion"));
    assert inner.members[Ascii("uid")] == Str(uid) && inner.members[Ascii("resourceVersion")] == Str(version);
    assert v.members[Ascii("spec") := spec] == ObjectWith(uid, version, spec).members;
  }
}

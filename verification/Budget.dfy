/** The resource budget of a JSON value, as each language checks it. */
module Budget {
  import opened Unicode
  import opened Json

  // ---- What the budget bounds ----

  /** Every node lies within `d` levels, the value itself being one of them. */
  ghost predicate FitsDepth(v: Value, d: int) {
    d >= 1
    && match v
       case Arr(items) => forall i | 0 <= i < |items| :: FitsDepth(items[i], d - 1)
       case Obj(m) => forall k | k in m :: FitsDepth(m[k], d - 1)
       case _ => true
  }

  /** The number of nodes of the value, itself included. */
  ghost function Count(v: Value): (n: nat)
    ensures n >= 1
    decreases v, 2
  {
    match v
    case Arr(items) => 1 + CountItems(v, 0)
    case Obj(m) => 1 + CountMembers(v, m.Keys)
    case _ => 1
  }

  ghost function CountItems(v: Value, i: nat): nat
    requires v.Arr? && i <= |v.items|
    decreases v, 1, |v.items| - i
  {
    if i == |v.items| then 0
    else Count(v.items[i]) + CountItems(v, i + 1)
  }

  ghost function CountMembers(v: Value, ks: set<Units>): nat
    requires v.Obj? && ks <= v.members.Keys
    decreases v, 1, ks
  {
    if ks == {} then 0
    else
      var k :| k in ks;
      Count(v.members[k]) + CountMembers(v, ks - {k})
  }

  ghost predicate WithinBudget(v: Value) { FitsDepth(v, MAX_DEPTH) && Count(v) <= MAX_NODES }

  /** Members may be counted in any order. */
  lemma {:induction false} CountPick(v: Value, ks: set<Units>, k: Units)
    requires v.Obj? && ks <= v.members.Keys && k in ks
    ensures CountMembers(v, ks) == Count(v.members[k]) + CountMembers(v, ks - {k})
    decreases ks
  {
    var j :| j in ks && CountMembers(v, ks) == Count(v.members[j]) + CountMembers(v, ks - {j});
    if j != k {
      CountPick(v, ks - {j}, k);
      CountPick(v, ks - {k}, j);
      assert ks - {j} - {k} == ks - {k} - {j};
    }
  }

  // ---- TypeScript: the explicit stack ----

  datatype Entry = Entry(value: Value, depth: nat)

  ghost function StackCount(pending: seq<Entry>): nat {
    if pending == [] then 0
    else Count(pending[|pending| - 1].value) + StackCount(pending[..|pending| - 1])
  }

  ghost predicate StackFits(pending: seq<Entry>) {
    forall i | 0 <= i < |pending| :: FitsDepth(pending[i].value, MAX_DEPTH + 1 - pending[i].depth)
  }

  lemma StackPush(pending: seq<Entry>, e: Entry)
    ensures StackCount(pending + [e]) == Count(e.value) + StackCount(pending)
    ensures StackFits(pending + [e]) <==> StackFits(pending) && FitsDepth(e.value, MAX_DEPTH + 1 - e.depth)
  {
    var p := pending + [e];
    assert p[..|p| - 1] == pending;
    assert p[|pending|] == e;
    assert forall i | 0 <= i < |pending| :: p[i] == pending[i];
  }

  /** `enforceValueBudget`: pops and pushes until the stack is empty or a limit
      is passed. Children may be pushed in any order. */
  method EnforceValueBudget(root: Value) returns (ok: bool)
    ensures ok <==> WithinBudget(root)
  {
    var pending := [Entry(root, 1)];
    var nodes := 0;
    assert pending == [] + [Entry(root, 1)];
    StackPush([], Entry(root, 1));
    while |pending| > 0
      invariant nodes <= MAX_NODES
      invariant nodes + StackCount(pending) == Count(root)
      invariant StackFits(pending) <==> FitsDepth(root, MAX_DEPTH)
      decreases StackCount(pending)
    {
      var current := pending[|pending| - 1];
      ghost var before := pending;
      pending := pending[..|pending| - 1];
      assert before == pending + [current];
      StackPush(pending, current);
      nodes := nodes + 1;
      if nodes > MAX_NODES {
        return false;
      }
      if current.depth > MAX_DEPTH {
        assert !FitsDepth(current.value, MAX_DEPTH + 1 - current.depth);
        return false;
      }
      match current.value {
        case Arr(_) => pending := PushItems(pending, current.value, current.depth + 1);
        case Obj(_) => pending := PushMembers(pending, current.value, current.depth + 1);
        case _ =>
      }
    }
    return true;
  }

  method PushItems(pending: seq<Entry>, v: Value, depth: nat) returns (r: seq<Entry>)
    requires v.Arr?
    ensures StackCount(r) == StackCount(pending) + CountItems(v, 0)
    ensures StackFits(r) <==>
      StackFits(pending) && forall i | 0 <= i < |v.items| :: FitsDepth(v.items[i], MAX_DEPTH + 1 - depth)
  {
    r := pending;
    var i := 0;
    while i < |v.items|
      invariant i <= |v.items|
      invariant StackCount(r) + CountItems(v, i) == StackCount(pending) + CountItems(v, 0)
      invariant StackFits(r) <==>
        StackFits(pending) && forall j | 0 <= j < i :: FitsDepth(v.items[j], MAX_DEPTH + 1 - depth)
    {
      StackPush(r, Entry(v.items[i], depth));
      r := r + [Entry(v.items[i], depth)];
      i := i + 1;
    }
  }

  method PushMembers(pending: seq<Entry>, v: Value, depth: nat) returns (r: seq<Entry>)
    requires v.Obj?
    ensures StackCount(r) == StackCount(pending) + CountMembers(v, v.members.Keys)
    ensures StackFits(r) <==>
      StackFits(pending) && forall k | k in v.members :: FitsDepth(v.members[k], MAX_DEPTH + 1 - depth)
  {
    r := pending;
    var ks := v.members.Keys;
    while ks != {}
      invariant ks <= v.members.Keys
      invariant StackCount(r) + CountMembers(v, ks) == StackCount(pending) + CountMembers(v, v.members.Keys)
      invariant StackFits(r) <==>
        StackFits(pending) && forall k | k in v.members && k !in ks :: FitsDepth(v.members[k], MAX_DEPTH + 1 - depth)
      decreases ks
    {
      var k :| k in ks;
      CountPick(v, ks, k);
      StackPush(r, Entry(v.members[k], depth));
      r := r + [Entry(v.members[k], depth)];
      ks := ks - {k};
    }
  }

  // ---- Rust: the recursion with a shared counter ----

  /** `validate_value_budget`: the counter is threaded through the children and
      checked at every node. */
  method ValidateValueBudget(v: Value, depth: nat, nodes: nat) returns (ok: bool, count: nat)
    requires nodes <= MAX_NODES
    ensures ok <==> FitsDepth(v, MAX_DEPTH + 1 - depth) && nodes + Count(v) <= MAX_NODES
    ensures ok ==> count == nodes + Count(v)
    decreases v
  {
    count := nodes;
    if depth > MAX_DEPTH {
      return false, count;
    }
    count := count + 1;
    if count > MAX_NODES {
      return false, count;
    }
    match v {
      case Arr(items) =>
        var i := 0;
        while i < |items|
          invariant i <= |items| && count <= MAX_NODES
          invariant count + CountItems(v, i) == nodes + Count(v)
          invariant forall j | 0 <= j < i :: FitsDepth(items[j], MAX_DEPTH - depth)
        {
          ok, count := ValidateValueBudget(items[i], depth + 1, count);
          if !ok { return; }
          i := i + 1;
        }
      case Obj(m) =>
        var ks := m.Keys;
        while ks != {}
          invariant ks <= m.Keys && count <= MAX_NODES
          invariant count + CountMembers(v, ks) == nodes + Count(v)
          invariant forall k | k in m && k !in ks :: FitsDepth(m[k], MAX_DEPTH - depth)
          decreases ks
        {
          var k :| k in ks;
          CountPick(v, ks, k);
          ok, count := ValidateValueBudget(m[k], depth + 1, count);
          if !ok { return; }
          ks := ks - {k};
        }
      case _ =>
    }
    return true, count;
  }
}

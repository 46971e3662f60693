/** The bounded inspection of a decoded JSON document, with an explicit stack. */
module SchemaInspection {
  import opened Text
  import opened CanonicalJson

  datatype Limits = Limits(maxDepth: nat, maxNodes: nat, maxString: nat, maxMembers: nat)

  datatype Verdict = Accepted | TooComplex | ExternalReference

  // ---------------------------------------------------------------- what is promised

  /** All values in the tree, the root included. */
  ghost function Nodes(v: Value): nat
    decreases v, 1, 0
  {
    match v
    case Array(values) => 1 + NodesUpTo(v, |values|)
    case Object(members) => 1 + NodesOver(v, members.Keys)
    case _ => 1
  }

  ghost function NodesUpTo(v: Value, n: nat): nat
    requires v.Array? && n <= |v.values|
    decreases v, 0, n
  {
    if n == 0 then 0 else NodesUpTo(v, n - 1) + Nodes(v.values[n - 1])
  }

  ghost function NodesOver(v: Value, ks: set<Name>): nat
    requires v.Object? && ks <= v.members.Keys
    decreases v, 0, |ks|
  {
    if ks == {} then 0
    else
      var k :| k in ks;
      Nodes(v.members[k]) + NodesOver(v, ks - {k})
  }

  /** Depth, members per object and string lengths are within limits. */
  ghost predicate Sized(v: Value, depth: nat, limits: Limits)
    decreases v
  {
    && depth <= limits.maxDepth
    && match v
       case String(text) => |text.text| <= limits.maxString
       case Array(values) => forall i :: 0 <= i < |values| ==> Sized(values[i], depth + 1, limits)
       case Object(members) =>
         && |members| <= limits.maxMembers
         && forall k :: k in members ==> Sized(members[k], depth + 1, limits)
       case _ => true
  }

  predicate IsReference(key: Name) {
    key.text == "$ref" || key.text == "$dynamicRef"
  }

  predicate IsLocal(v: Value) {
    v.String? && (v.text.text == "#" || "#/" <= v.text.text)
  }

  /** Every reference keyword in the tree holds a local reference. */
  ghost predicate Local(v: Value)
    decreases v
  {
    match v
    case Array(values) => forall i :: 0 <= i < |values| ==> Local(values[i])
    case Object(members) => forall k :: k in members ==> MemberIsLocal(k, members[k]) && Local(members[k])
    case _ => true
  }

  predicate MemberIsLocal(key: Name, v: Value) {
    IsReference(key) ==> IsLocal(v)
  }

  // ---------------------------------------------------------------- the order of members is irrelevant

  lemma {:induction false} NodesTake(v: Value, ks: set<Name>, k: Name)
    requires v.Object? && ks <= v.members.Keys && k in ks
    ensures NodesOver(v, ks) == Nodes(v.members[k]) + NodesOver(v, ks - {k})
    decreases |ks|
  {
    hide Nodes;
    var j :| j in ks && NodesOver(v, ks) == Nodes(v.members[j]) + NodesOver(v, ks - {j});
    if j != k {
      NodesTake(v, ks - {j}, k);
      NodesTake(v, ks - {k}, j);
      assert ks - {j} - {k} == ks - {k} - {j};
    }
  }

  // ---------------------------------------------------------------- the stack

  datatype Item = Item(value: Value, depth: nat)

  ghost function Pending(stack: seq<Item>): nat {
    if stack == [] then 0 else Pending(stack[..|stack| - 1]) + Nodes(stack[|stack| - 1].value)
  }

  ghost predicate AllSized(stack: seq<Item>, limits: Limits) {
    forall i :: 0 <= i < |stack| ==> Sized(stack[i].value, stack[i].depth, limits)
  }

  ghost predicate AllLocal(stack: seq<Item>) {
    forall i :: 0 <= i < |stack| ==> Local(stack[i].value)
  }

  /** Pushing an item adds exactly its own obligations. */
  lemma Push(stack: seq<Item>, item: Item, limits: Limits)
    ensures Pending(stack + [item]) == Pending(stack) + Nodes(item.value)
    ensures AllSized(stack + [item], limits) <==> AllSized(stack, limits) && Sized(item.value, item.depth, limits)
    ensures AllLocal(stack + [item]) <==> AllLocal(stack) && Local(item.value)
  {
    hide Nodes, Sized, Local;
    var all := stack + [item];
    assert all[..|stack|] == stack;
    assert forall i :: 0 <= i < |stack| ==> all[i] == stack[i];
    assert all[|stack|] == item;
  }

  /** Pushes the members of an object in whatever order they come. */
  method PushMembers(v: Value, depth: nat, below: seq<Item>, limits: Limits, schema: bool)
    returns (stack: seq<Item>, external: bool)
    requires v.Object?
    ensures external ==> schema && exists k :: k in v.members && !MemberIsLocal(k, v.members[k])
    ensures !external && schema ==> forall k :: k in v.members ==> MemberIsLocal(k, v.members[k])
    ensures !external ==> Pending(stack) == Pending(below) + NodesOver(v, v.members.Keys)
    ensures !external ==> (AllSized(stack, limits) <==>
              AllSized(below, limits) && forall k :: k in v.members ==> Sized(v.members[k], depth, limits))
    ensures !external ==> (AllLocal(stack) <==> AllLocal(below) && forall k :: k in v.members ==> Local(v.members[k]))
  {
    stack := below;
    var pending := v.members.Keys;
    while pending != {}
      invariant pending <= v.members.Keys
      invariant schema ==> forall k :: k in v.members && k !in pending ==> MemberIsLocal(k, v.members[k])
      invariant Pending(stack) + NodesOver(v, pending) == Pending(below) + NodesOver(v, v.members.Keys)
      invariant AllSized(stack, limits) <==>
                AllSized(below, limits) && forall k :: k in v.members && k !in pending ==> Sized(v.members[k], depth, limits)
      invariant AllLocal(stack) <==>
                AllLocal(below) && forall k :: k in v.members && k !in pending ==> Local(v.members[k])
    {
      hide Nodes, Sized, Local, AllSized, AllLocal, Pending, NodesOver;
      var key :| key in pending;
      var child := v.members[key];
      if schema && (key.text == "$ref" || key.text == "$dynamicRef") {
        if !child.String? || (child.text.text != "#" && !("#/" <= child.text.text)) {
          return stack, true;
        }
      }
      NodesTake(v, pending, key);
      Push(stack, Item(child, depth), limits);
      stack := stack + [Item(child, depth)];
      pending := pending - {key};
    }
    return stack, false;
  }

  method PushItems(v: Value, depth: nat, below: seq<Item>, limits: Limits) returns (stack: seq<Item>)
    requires v.Array?
    ensures Pending(stack) == Pending(below) + NodesUpTo(v, |v.values|)
    ensures AllSized(stack, limits) <==>
            AllSized(below, limits) && forall i :: 0 <= i < |v.values| ==> Sized(v.values[i], depth, limits)
    ensures AllLocal(stack) <==> AllLocal(below) && forall i :: 0 <= i < |v.values| ==> Local(v.values[i])
  {
    stack := below;
    for n := 0 to |v.values|
      invariant Pending(stack) == Pending(below) + NodesUpTo(v, n)
      invariant AllSized(stack, limits) <==>
                AllSized(below, limits) && forall i :: 0 <= i < n ==> Sized(v.values[i], depth, limits)
      invariant AllLocal(stack) <==> AllLocal(below) && forall i :: 0 <= i < n ==> Local(v.values[i])
    {
      hide Nodes, Sized, Local, AllSized, AllLocal, Pending;
      Push(stack, Item(v.values[n], depth), limits);
      stack := stack + [Item(v.values[n], depth)];
    }
  }

  /** Replaces an item by its children, or says why not. */
  method Visit(item: Item, below: seq<Item>, limits: Limits, schema: bool) returns (stack: seq<Item>, verdict: Verdict)
    ensures verdict.Accepted? ==>
              && Pending(stack) + 1 == Pending(below) + Nodes(item.value)
              && (AllSized(stack, limits) <==> AllSized(below, limits) && Sized(item.value, item.depth, limits))
              && (schema ==> (AllLocal(stack) <==> AllLocal(below) && Local(item.value)))
    ensures verdict.TooComplex? ==> !Sized(item.value, item.depth, limits)
    ensures verdict.ExternalReference? ==> schema && !Local(item.value)
  {
    hide AllSized, AllLocal, Pending, IsReference, IsLocal;
    if item.depth > limits.maxDepth {
      return below, TooComplex;
    }
    match item.value {
      case Object(members) =>
        if |members| > limits.maxMembers {
          return below, TooComplex;
        }
        var external;
        stack, external := PushMembers(item.value, item.depth + 1, below, limits, schema);
        verdict := if external then ExternalReference else Accepted;
      case Array(values) =>
        stack := PushItems(item.value, item.depth + 1, below, limits);
        verdict := Accepted;
      case String(text) =>
        return below, if |text.text| > limits.maxString then TooComplex else Accepted;
      case _ =>
        return below, Accepted;
    }
  }

  /** The worklist accepts exactly the documents the recursive predicates describe, whatever
      order it visits members in, and each refusal has its reason. */
  method Inspect(root: Value, limits: Limits, schema: bool) returns (verdict: Verdict)
    ensures verdict.Accepted? <==> Nodes(root) <= limits.maxNodes && Sized(root, 1, limits) && (schema ==> Local(root))
    ensures verdict.TooComplex? ==> Nodes(root) > limits.maxNodes || !Sized(root, 1, limits)
    ensures verdict.ExternalReference? ==> schema && !Local(root)
  {
    var stack := [Item(root, 1)];
    var nodes := 0;
    assert stack == [] + [Item(root, 1)];
    Push([], Item(root, 1), limits);
    while |stack| > 0
      invariant nodes <= limits.maxNodes
      invariant nodes + Pending(stack) == Nodes(root)
      invariant AllSized(stack, limits) <==> Sized(root, 1, limits)
      invariant schema ==> (AllLocal(stack) <==> Local(root))
      decreases Pending(stack)
    {
      hide Nodes, Sized, Local, AllSized, AllLocal, Pending;
      var current := stack[|stack| - 1];
      assert stack == stack[..|stack| - 1] + [current];
      stack := stack[..|stack| - 1];
      Push(stack, current, limits);
      nodes := nodes + 1;
      if nodes > limits.maxNodes {
        AtLeastOne(current.value);
        return TooComplex;
      }
      stack, verdict := Visit(current, stack, limits, schema);
      if !verdict.Accepted? {
        return;
      }
    }
    return Accepted;
  }

  lemma AtLeastOne(v: Value)
    ensures Nodes(v) >= 1
  {
  }
}

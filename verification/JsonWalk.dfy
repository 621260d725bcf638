/** Traversals of decoded JSON. The harnesses never recurse on documents they do
    not trust: they keep an explicit stack. Each stack loop below is proved equal
    to the structural recursion it stands for. */
module JsonWalk {
  import opened Collections

  /** A number keeps only whether it is finite; an object keeps its fields in
      insertion order (duplicate keys are refused while decoding). */
  datatype Json =
    | Null
    | Boolean(value: bool)
    | Number(finite: bool)
    | Text(text: string)
    | Array(items: seq<Json>)
    | Object(fields: seq<Field>)

  datatype Field = Field(key: string, value: Json)

  function Values(fields: seq<Field>): (values: seq<Json>)
    ensures |values| == |fields|
    ensures forall i :: 0 <= i < |fields| ==> values[i] == fields[i].value
  {
    seq(|fields|, i requires 0 <= i < |fields| => fields[i].value)
  }

  lemma ValuesTail(fields: seq<Field>)
    requires |fields| > 0
    ensures Values(fields) == [fields[0].value] + Values(fields[1..])
  {
  }

  function Children(j: Json): seq<Json> {
    match j
    case Array(items) => items
    case Object(fields) => Values(fields)
    case _ => []
  }

  // ----- Structural meanings -----

  function Nodes(j: Json): (n: nat)
    ensures n >= 1
    decreases j, 1
  {
    match j
    case Array(items) => 1 + NodesAll(items)
    case Object(fields) => 1 + NodesFields(fields)
    case _ => 1
  }

  function NodesAll(js: seq<Json>): nat
    decreases js, 0
  {
    if js == [] then 0 else Nodes(js[0]) + NodesAll(js[1..])
  }

  function NodesFields(fields: seq<Field>): nat
    decreases fields, 0
  {
    if fields == [] then 0 else Nodes(fields[0].value) + NodesFields(fields[1..])
  }

  /** Every node lies at depth at most `room`, the root at depth 1. */
  predicate FitsDepth(j: Json, room: int)
    decreases j, 1
  {
    1 <= room &&
    match j
    case Array(items) => FitsDepthAll(items, room - 1)
    case Object(fields) => FitsDepthFields(fields, room - 1)
    case _ => true
  }

  predicate FitsDepthAll(js: seq<Json>, room: int)
    decreases js, 0
  {
    js == [] || (FitsDepth(js[0], room) && FitsDepthAll(js[1..], room))
  }

  predicate FitsDepthFields(fields: seq<Field>, room: int)
    decreases fields, 0
  {
    fields == [] || (FitsDepth(fields[0].value, room) && FitsDepthFields(fields[1..], room))
  }

  /** Every node that is neither an array nor an object satisfies `leafOk`. */
  predicate LeavesOk(j: Json, leafOk: Json -> bool)
    decreases j, 1
  {
    match j
    case Array(items) => LeavesOkAll(items, leafOk)
    case Object(fields) => LeavesOkFields(fields, leafOk)
    case _ => leafOk(j)
  }

  predicate LeavesOkAll(js: seq<Json>, leafOk: Json -> bool)
    decreases js, 0
  {
    js == [] || (LeavesOk(js[0], leafOk) && LeavesOkAll(js[1..], leafOk))
  }

  predicate LeavesOkFields(fields: seq<Field>, leafOk: Json -> bool)
    decreases fields, 0
  {
    fields == [] || (LeavesOk(fields[0].value, leafOk) && LeavesOkFields(fields[1..], leafOk))
  }

  /** The objects of a document, parents before children, left to right. */
  function Preorder(j: Json): seq<Json>
    decreases j, 1
  {
    match j
    case Array(items) => PreorderAll(items)
    case Object(fields) => [j] + PreorderFields(fields)
    case _ => []
  }

  function PreorderAll(js: seq<Json>): seq<Json>
    decreases js, 0
  {
    if js == [] then [] else Preorder(js[0]) + PreorderAll(js[1..])
  }

  function PreorderFields(fields: seq<Field>): seq<Json>
    decreases fields, 0
  {
    if fields == [] then [] else Preorder(fields[0].value) + PreorderFields(fields[1..])
  }

  // ----- The meanings of a node in terms of its children -----

  lemma {:induction false} FieldsAreValues(fields: seq<Field>, room: int, leafOk: Json -> bool)
    ensures NodesFields(fields) == NodesAll(Values(fields))
    ensures FitsDepthFields(fields, room) == FitsDepthAll(Values(fields), room)
    ensures LeavesOkFields(fields, leafOk) == LeavesOkAll(Values(fields), leafOk)
    ensures PreorderFields(fields) == PreorderAll(Values(fields))
  {
    if fields != [] {
      FieldsAreValues(fields[1..], room, leafOk);
      ValuesTail(fields);
      assert Values(fields)[1..] == Values(fields[1..]);
    }
  }

  lemma ByChildren(j: Json, room: int, leafOk: Json -> bool)
    ensures Nodes(j) == 1 + NodesAll(Children(j))
    ensures FitsDepth(j, room) <==> 1 <= room && FitsDepthAll(Children(j), room - 1)
    ensures LeavesOk(j, leafOk) <==>
            (j.Array? || j.Object? || leafOk(j)) && LeavesOkAll(Children(j), leafOk)
    ensures Preorder(j) == (if j.Object? then [j] else []) + PreorderAll(Children(j))
  {
    if j.Object? {
      FieldsAreValues(j.fields, room - 1, leafOk);
    }
  }

  // ----- Bounds checking -----

  /** A stack entry of the bounds check: a node and the depth it was found at. */
  datatype Pending = Pending(node: Json, depth: nat)

  datatype Verdict = Accepted | TooManyNodes | TooDeep | BadLeaf

  ghost function StackNodes(stack: seq<Pending>): nat {
    if stack == [] then 0 else Nodes(stack[|stack| - 1].node) + StackNodes(stack[..|stack| - 1])
  }

  ghost predicate StackFits(stack: seq<Pending>, maxDepth: nat) {
    stack == [] || (FitsDepth(stack[|stack| - 1].node, maxDepth + 1 - stack[|stack| - 1].depth)
                    && StackFits(stack[..|stack| - 1], maxDepth))
  }

  ghost predicate StackLeavesOk(stack: seq<Pending>, leafOk: Json -> bool) {
    stack == [] || (LeavesOk(stack[|stack| - 1].node, leafOk) && StackLeavesOk(stack[..|stack| - 1], leafOk))
  }

  function AtDepth(js: seq<Json>, depth: nat): (entries: seq<Pending>)
    ensures |entries| == |js|
    ensures forall i :: 0 <= i < |js| ==> entries[i] == Pending(js[i], depth)
  {
    seq(|js|, i requires 0 <= i < |js| => Pending(js[i], depth))
  }

  lemma {:induction false} AllAppend(js: seq<Json>, last: Json, room: int, leafOk: Json -> bool)
    ensures NodesAll(js + [last]) == NodesAll(js) + Nodes(last)
    ensures FitsDepthAll(js + [last], room) <==> FitsDepthAll(js, room) && FitsDepth(last, room)
    ensures LeavesOkAll(js + [last], leafOk) <==> LeavesOkAll(js, leafOk) && LeavesOk(last, leafOk)
  {
    if js != [] {
      AllAppend(js[1..], last, room, leafOk);
      assert (js + [last])[1..] == js[1..] + [last];
    }
  }

  /** Extending the stack by siblings adds exactly their recursive meanings. */
  lemma {:induction false} PushAll(stack: seq<Pending>, js: seq<Json>, depth: nat, maxDepth: nat, leafOk: Json -> bool)
    ensures StackNodes(stack + AtDepth(js, depth)) == StackNodes(stack) + NodesAll(js)
    ensures StackFits(stack + AtDepth(js, depth), maxDepth) <==>
            StackFits(stack, maxDepth) && FitsDepthAll(js, maxDepth + 1 - depth)
    ensures StackLeavesOk(stack + AtDepth(js, depth), leafOk) <==>
            StackLeavesOk(stack, leafOk) && LeavesOkAll(js, leafOk)
  {
    var pushed := stack + AtDepth(js, depth);
    if js == [] {
      assert pushed == stack;
    } else {
      var init, last := js[..|js| - 1], js[|js| - 1];
      PushAll(stack, init, depth, maxDepth, leafOk);
      AllAppend(init, last, maxDepth + 1 - depth, leafOk);
      LastSplit(js);
      var below := stack + AtDepth(init, depth);
      assert pushed == below + [Pending(last, depth)];
      assert pushed[..|pushed| - 1] == below;
    }
  }

  /** One round of the bounds check: the popped node is accounted for and its
      children stand in for it. */
  lemma PopAndPush(stack: seq<Pending>, rest: seq<Pending>, top: Pending, maxDepth: nat, leafOk: Json -> bool)
    requires stack == rest + [top]
    ensures var pushed := rest + AtDepth(Children(top.node), top.depth + 1);
            && StackNodes(stack) == 1 + StackNodes(pushed)
            && (StackFits(stack, maxDepth) <==> top.depth <= maxDepth && StackFits(pushed, maxDepth))
            && (StackLeavesOk(stack, leafOk) <==>
                (top.node.Array? || top.node.Object? || leafOk(top.node)) && StackLeavesOk(pushed, leafOk))
  {
    assert stack[..|stack| - 1] == rest;
    PushAll(rest, Children(top.node), top.depth + 1, maxDepth, leafOk);
    ByChildren(top.node, maxDepth + 1 - top.depth, leafOk);
  }

  /** `_validate_json_bounds`: accepts exactly the documents within both limits
      whose leaves pass; each refusal names a limit that is really broken. */
  method ValidateJsonBounds(value: Json, maxNodes: nat, maxDepth: nat, leafOk: Json -> bool) returns (verdict: Verdict)
    ensures verdict == Accepted <==>
            Nodes(value) <= maxNodes && FitsDepth(value, maxDepth) && LeavesOk(value, leafOk)
    ensures verdict == TooManyNodes ==> Nodes(value) > maxNodes
    ensures verdict == TooDeep ==> !FitsDepth(value, maxDepth)
    ensures verdict == BadLeaf ==> !LeavesOk(value, leafOk)
  {
    var stack := [Pending(value, 1)];
    var nodes := 0;
    assert stack[..0] == [];
    while stack != []
      invariant nodes <= maxNodes
      invariant nodes + StackNodes(stack) == Nodes(value)
      invariant StackFits(stack, maxDepth) <==> FitsDepth(value, maxDepth)
      invariant StackLeavesOk(stack, leafOk) <==> LeavesOk(value, leafOk)
      decreases StackNodes(stack)
    {
      var top, rest := stack[|stack| - 1], stack[..|stack| - 1];
      PopAndPush(stack, rest, top, maxDepth, leafOk);
      nodes := nodes + 1;
      if nodes > maxNodes {
        return TooManyNodes;
      }
      if top.depth > maxDepth {
        return TooDeep;
      }
      if !top.node.Array? && !top.node.Object? && !leafOk(top.node) {
        return BadLeaf;
      }
      stack := rest + AtDepth(Children(top.node), top.depth + 1);
    }
    return Accepted;
  }

  // ----- Object enumeration -----

  function Reversed(js: seq<Json>): seq<Json> {
    if js == [] then [] else Reversed(js[1..]) + [js[0]]
  }

  /** What a stack still has to emit: its top, the last element, comes first. */
  ghost function StackImage(stack: seq<Json>, emit: Json -> seq<Json>): seq<Json> {
    if stack == [] then [] else emit(stack[|stack| - 1]) + StackImage(stack[..|stack| - 1], emit)
  }

  ghost function Weight(stack: seq<Json>, size: Json -> int): int {
    if stack == [] then 0 else size(stack[|stack| - 1]) + Weight(stack[..|stack| - 1], size)
  }

  lemma PushOne(stack: seq<Json>, top: Json, emit: Json -> seq<Json>, size: Json -> int)
    ensures StackImage(stack + [top], emit) == emit(top) + StackImage(stack, emit)
    ensures Weight(stack + [top], size) == size(top) + Weight(stack, size)
  {
    assert (stack + [top])[..|stack|] == stack;
  }

  /** Children pushed in reverse are emitted in order, before what lay below. */
  lemma {:induction false} PushReversed(stack: seq<Json>, js: seq<Json>, emit: Json -> seq<Json>, size: Json -> int)
    ensures StackImage(stack + Reversed(js), emit) == Image(js, emit) + StackImage(stack, emit)
    ensures Weight(stack + Reversed(js), size) == Weight(stack, size) + SumBy(js, size)
  {
    if js == [] {
      assert stack + Reversed(js) == stack;
    } else {
      PushReversed(stack, js[1..], emit, size);
      PushOne(stack + Reversed(js[1..]), js[0], emit, size);
      assert stack + Reversed(js) == (stack + Reversed(js[1..])) + [js[0]];
      var rest, below := Image(js[1..], emit), StackImage(stack, emit);
      Regroup(emit(js[0]), rest, below, rest + below, emit(js[0]) + (rest + below));
    }
  }

  function Size(j: Json): int { Nodes(j) }

  lemma {:induction false} PreorderIsImage(js: seq<Json>)
    ensures Image(js, Preorder) == PreorderAll(js)
  {
    if js != [] {
      PreorderIsImage(js[1..]);
    }
  }

  lemma {:induction false} NodesIsSum(js: seq<Json>)
    ensures SumBy(js, Size) == NodesAll(js) >= 0
  {
    if js != [] {
      NodesIsSum(js[1..]);
    }
  }

  lemma {:induction false} WeightIsNatural(stack: seq<Json>)
    ensures Weight(stack, Size) >= 0
  {
    if stack != [] {
      WeightIsNatural(stack[..|stack| - 1]);
    }
  }

  lemma OwnThenChildren(item: Json)
    ensures Preorder(item) == (if item.Object? then [item] else []) + PreorderAll(Children(item))
    ensures Nodes(item) == 1 + NodesAll(Children(item))
  {
    ByChildren(item, 0, Anything);
  }

  /** The stack after a node is replaced by its children, reversed. */
  lemma EmitStep(rest: seq<Json>, item: Json, own: seq<Json>, children: seq<Json>, emit: Json -> seq<Json>,
                 size: Json -> int)
    requires emit(item) == own + Image(children, emit) && size(item) == 1 + SumBy(children, size)
    ensures StackImage(rest + [item], emit) == own + StackImage(rest + Reversed(children), emit)
    ensures Weight(rest + [item], size) == 1 + Weight(rest + Reversed(children), size)
  {
    PushOne(rest, item, emit, size);
    PushReversed(rest, children, emit, size);
    assert (own + Image(children, emit)) + StackImage(rest, emit) ==
           own + (Image(children, emit) + StackImage(rest, emit));
  }

  lemma StackOfOne(value: Json)
    ensures [] + StackImage([value], Preorder) == Preorder(value)
  {
    PushOne([], value, Preorder, Size);
    assert [] + [value] == [value];
  }

  /** One round: what is emitted and what is pending together stay the whole. */
  lemma WalkStep(before: seq<Json>, rest: seq<Json>, item: Json, result: seq<Json>, whole: seq<Json>)
    requires before != [] && item == before[|before| - 1] && rest == before[..|before| - 1]
    requires result + StackImage(before, Preorder) == whole
    ensures var own := if item.Object? then result + [item] else result;
            var next := if item.Object? || item.Array? then rest + Reversed(Children(item)) else rest;
            && own + StackImage(next, Preorder) == whole
            && 0 <= Weight(next, Size) < Weight(before, Size)
  {
    var children := Children(item);
    var own := if item.Object? then [item] else [];
    var next := rest + Reversed(children);
    OwnThenChildren(item);
    PreorderIsImage(children);
    NodesIsSum(children);
    LastSplit(before);
    EmitStep(rest, item, own, children, Preorder, Size);
    WeightIsNatural(next);
    Regroup(result, own, StackImage(next, Preorder), StackImage(before, Preorder), whole);
    assert !item.Object? ==> result + own == result;
    assert !item.Object? && !item.Array? ==> next == rest;
  }

  predicate Anything(j: Json) { true }

  /** `_walk_json`: pushing children reversed makes the loop emit recursive pre-order. */
  method WalkJson(value: Json) returns (result: seq<Json>)
    ensures result == Preorder(value)
  {
    result := [];
    var stack := [value];
    ghost var whole := Preorder(value);
    StackOfOne(value);
    while stack != []
      invariant result + StackImage(stack, Preorder) == whole
      decreases Weight(stack, Size)
    {
      ghost var before := stack;
      var item := stack[|stack| - 1];
      stack := stack[..|stack| - 1];
      WalkStep(before, stack, item, result, whole);
      if item.Object? {
        result := result + [item];
      }
      if item.Object? || item.Array? {
        stack := stack + Reversed(Children(item));
      }
    }
  }

  // ----- Nested authority claims -----

  predicate HasSuffix(s: string, suffix: string) {
    |suffix| <= |s| && s[|s| - |suffix|..] == suffix
  }

  /** `lower` is Python's `str.lower`. */
  predicate NamesAuthority(key: string, lower: string -> string) {
    var normalized := lower(key);
    || normalized in ["pass", "qualification", "execution", "reuse"]
    || HasSuffix(normalized, "_authority")
    || HasSuffix(normalized, "_authority_claimed")
    || HasSuffix(normalized, "_claimed")
  }

  predicate Claims(field: Field, lower: string -> string) {
    NamesAuthority(field.key, lower) && field.value != Boolean(false)
  }

  /** `field` belongs to some object of the document, at any depth. */
  ghost predicate HasField(j: Json, field: Field)
    decreases j, 1
  {
    match j
    case Array(items) => exists i :: 0 <= i < |items| && HasField(items[i], field)
    case Object(fields) => field in fields || exists i :: 0 <= i < |fields| && HasField(fields[i].value, field)
    case _ => false
  }

  ghost predicate AnyHasField(js: seq<Json>, field: Field) {
    exists i :: 0 <= i < |js| && HasField(js[i], field)
  }

  lemma HasFieldByChildren(j: Json, field: Field)
    ensures HasField(j, field) <==> (j.Object? && field in j.fields) || AnyHasField(Children(j), field)
  {
    if j.Object? {
      forall i | 0 <= i < |j.fields|
        ensures HasField(j.fields[i].value, field) == HasField(Children(j)[i], field)
      {
      }
    }
  }

  /** The weight after a node is replaced by its children. */
  lemma {:induction false} PlainPush(stack: seq<Json>, js: seq<Json>, size: Json -> int)
    ensures Weight(stack + js, size) == Weight(stack, size) + SumBy(js, size)
    decreases |js|
  {
    if js == [] {
      assert stack + js == stack;
    } else {
      PlainPush(stack + [js[0]], js[1..], size);
      PushOne(stack, js[0], Preorder, size);
      assert stack + js == (stack + [js[0]]) + js[1..];
    }
  }

  lemma PlainStep(rest: seq<Json>, item: Json)
    ensures 0 <= Weight(rest + Children(item), Size) < Weight(rest + [item], Size)
  {
    OwnThenChildren(item);
    PushOne(rest, item, Preorder, Size);
    PlainPush(rest, Children(item), Size);
    NodesIsSum(Children(item));
    WeightIsNatural(rest);
  }

  /** The first field that claims an authority, if any. */
  method FirstClaim(fields: seq<Field>, lower: string -> string) returns (found: bool)
    ensures found <==> exists i :: 0 <= i < |fields| && Claims(fields[i], lower)
  {
    for i := 0 to |fields|
      invariant forall k :: 0 <= k < i ==> !Claims(fields[k], lower)
    {
      if Claims(fields[i], lower) {
        return true;
      }
    }
    return false;
  }

  /** `_reject_nested_authority_claims`: refuses exactly when some authority-named
      key of some object anywhere holds a value other than `false`. */
  method RejectNestedAuthorityClaims(value: Json, lower: string -> string) returns (refused: bool)
    ensures refused <==> exists field :: HasField(value, field) && Claims(field, lower)
  {
    var pending := [value];
    assert pending[..0] == [];
    while pending != []
      invariant forall field :: HasField(value, field) && Claims(field, lower) ==> AnyHasField(pending, field)
      invariant forall field :: AnyHasField(pending, field) ==> HasField(value, field)
      decreases Weight(pending, Size)
    {
      var before := pending;
      var current := pending[|pending| - 1];
      pending := pending[..|pending| - 1];
      assert before == pending + [current];
      var children := Children(current);
      forall field
        ensures AnyHasField(before, field) <==>
                (current.Object? && field in current.fields) || AnyHasField(pending + children, field)
      {
        HasFieldByChildren(current, field);
        SplitTop(pending, current, field);
        SplitConcat(pending, children, field);
      }
      if current.Object? {
        var claimed := FirstClaim(current.fields, lower);
        if claimed {
          var i :| 0 <= i < |current.fields| && Claims(current.fields[i], lower);
          assert AnyHasField(before, current.fields[i]);
          return true;
        }
      }
      PlainStep(pending, current);
      pending := pending + children;
    }
    return false;
  }

  lemma SplitTop(rest: seq<Json>, top: Json, field: Field)
    ensures AnyHasField(rest + [top], field) <==> AnyHasField(rest, field) || HasField(top, field)
  {
    var all := rest + [top];
    assert all[|rest|] == top;
    assert forall i :: 0 <= i < |rest| ==> all[i] == rest[i];
  }

  lemma SplitConcat(a: seq<Json>, b: seq<Json>, field: Field)
    ensures AnyHasField(a + b, field) <==> AnyHasField(a, field) || AnyHasField(b, field)
  {
    var all := a + b;
    assert forall i :: 0 <= i < |a| ==> all[i] == a[i];
    if i :| 0 <= i < |b| && HasField(b[i], field) {
      assert all[|a| + i] == b[i];
    }
  }
}

/** JSON values as both validators see them, and what the validators are to accept. */
module JsonValues {
  import opened Wrappers

  /** `Real` carries whether the float is finite, and its value then; `Alien` is any other Python object.  A
      dictionary is its items in insertion order; `Other` is a non-string key and the text that
      JSON makes of it. */
  datatype Json =
    | Null
    | Boolean(b: bool)
    | Integer(n: int)
    | Real(finite: bool, r: real)
    | Text(s: string)
    | List(items: seq<Json>)
    | Object(members: seq<Member>)
    | Alien

  datatype Key = Name(s: string) | Other(text: string)

  datatype Member = Member(key: Key, value: Json)

  function Children(v: Json): (cs: seq<Json>)
    ensures forall i | 0 <= i < |cs| :: cs[i] < v
  {
    match v
    case List(items) => items
    case Object(members) => seq(|members|, i requires 0 <= i < |members| => members[i].value)
    case _ => []
  }

  /** All values in a tree: the value itself and everything below it. */
  function Nodes(v: Json): (n: nat)
    ensures n >= 1
    decreases v, 0
  {
    1 + NodesIn(Children(v), v)
  }

  function NodesIn(vs: seq<Json>, bound: Json): nat
    requires forall i | 0 <= i < |vs| :: vs[i] < bound
    decreases bound, 0, |vs|
  {
    if vs == [] then 0 else Nodes(vs[0]) + NodesIn(vs[1..], bound)
  }

  // ----- object keys ---------------------------------------------------------------------

  function Label(k: Key): string {
    match k
    case Name(s) => s
    case Other(text) => text
  }

  predicate DistinctKeys(members: seq<Member>) {
    forall i, j | 0 <= i < j < |members| :: Label(members[i].key) != Label(members[j].key)
  }

  /** No object has two keys with the same text, such as the number 1 and the string "1". */
  predicate Unambiguous(v: Json)
    decreases v
  {
    && (v.Object? ==> DistinctKeys(v.members))
    && var cs := Children(v); forall i | 0 <= i < |cs| :: Unambiguous(cs[i])
  }

  predicate NamedKeys(v: Json)
    decreases v
  {
    && (v.Object? ==> forall i | 0 <= i < |v.members| :: v.members[i].key.Name?)
    && var cs := Children(v); forall i | 0 <= i < |cs| :: NamedKeys(cs[i])
  }

  // ----- limits on control data ----------------------------------------------------------

  function Pow2(n: nat): (p: nat)
    ensures p >= 1
  {
    if n == 0 then 1 else 2 * Pow2(n - 1)
  }

  /** `int.bit_length`: how often the magnitude can be halved before it is zero. */
  function BitLength(n: int): nat
    decreases if n < 0 then -n else n
  {
    var a := if n < 0 then -n else n;
    if a == 0 then 0 else 1 + BitLength(a / 2)
  }

  lemma {:induction false} BitLengthBounds(n: int, bits: nat)
    ensures BitLength(n) <= bits <==> -(Pow2(bits) as int) < n < Pow2(bits)
    decreases if n < 0 then -n else n, bits
  {
    var a := if n < 0 then -n else n;
    if a != 0 && bits != 0 {
      BitLengthBounds(a / 2, bits - 1);
    }
  }

  predicate SafeHere(v: Json, depth: nat, nesting: nat, bits: nat) {
    && (v.Real? ==> v.finite)
    && (v.Integer? ==> BitLength(v.n) <= bits)
    && (v.List? || v.Object? ==> depth < nesting)
  }

  /** The recursive meaning of `_is_safe_json_value`. */
  predicate Safe(v: Json, depth: nat, nesting: nat, bits: nat)
    decreases v
  {
    SafeHere(v, depth, nesting, bits)
    && var cs := Children(v); forall i | 0 <= i < |cs| :: Safe(cs[i], depth + 1, nesting, bits)
  }

  // ----- limits on payloads --------------------------------------------------------------

  datatype Limits = Limits(nesting: nat, items: nat, length: nat)

  /** What one value may look like where it stands; the item total is checked separately. */
  predicate Acceptable(v: Json, depth: nat, limits: Limits) {
    match v
    case Null => true
    case Boolean(_) => true
    case Integer(_) => true
    case Real(finite, _) => finite
    case Text(s) => |s| <= limits.length
    case List(_) => depth < limits.nesting
    case Object(members) =>
      depth < limits.nesting
      && forall i | 0 <= i < |members| :: members[i].key.Name? && |members[i].key.s| <= limits.length
    case Alien => false
  }

  predicate Portable(v: Json, depth: nat, limits: Limits)
    decreases v
  {
    Acceptable(v, depth, limits)
    && var cs := Children(v); forall i | 0 <= i < |cs| :: Portable(cs[i], depth + 1, limits)
  }

  /** The number of list items and object members in the whole tree. */
  function TotalItems(v: Json): nat {
    Nodes(v) - 1
  }

  // ----- what the limits mean ------------------------------------------------------------

  /** How many lists and objects lie inside each other. */
  function Depth(v: Json): nat
    decreases v, 0
  {
    match v
    case List(_) => 1 + DeepestOf(Children(v), v)
    case Object(_) => 1 + DeepestOf(Children(v), v)
    case _ => 0
  }

  function DeepestOf(vs: seq<Json>, bound: Json): nat
    requires forall i | 0 <= i < |vs| :: vs[i] < bound
    decreases bound, 0, |vs|
  {
    if vs == [] then 0
    else if Depth(vs[0]) <= DeepestOf(vs[1..], bound) then DeepestOf(vs[1..], bound) else Depth(vs[0])
  }

  lemma {:induction false} DeepestBounds(vs: seq<Json>, bound: Json, limit: nat)
    requires forall i | 0 <= i < |vs| :: vs[i] < bound
    ensures DeepestOf(vs, bound) <= limit <==> forall i | 0 <= i < |vs| :: Depth(vs[i]) <= limit
    decreases |vs|
  {
    if vs != [] {
      DeepestBounds(vs[1..], bound, limit);
      assert forall i | 1 <= i < |vs| :: vs[i] == vs[1..][i - 1];
      if DeepestOf(vs, bound) <= limit {
        forall i | 0 <= i < |vs| ensures Depth(vs[i]) <= limit { if i > 0 { assert vs[i] == vs[1..][i - 1]; } }
      }
    }
  }

  /** A property of every value in a tree. */
  predicate Everywhere(v: Json, ok: Json -> bool)
    decreases v
  {
    ok(v) && var cs := Children(v); forall i | 0 <= i < |cs| :: Everywhere(cs[i], ok)
  }

  /** No object anywhere in the tree repeats a key text. */
  function KeysDiffer(): Json -> bool {
    (v: Json) => v.Object? ==> DistinctKeys(v.members)
  }

  lemma {:induction false} UnambiguousMeans(v: Json)
    ensures Unambiguous(v) <==> Everywhere(v, KeysDiffer())
    decreases v
  {
    var cs := Children(v);
    forall i | 0 <= i < |cs| ensures Unambiguous(cs[i]) <==> Everywhere(cs[i], KeysDiffer()) { UnambiguousMeans(cs[i]); }
  }

  /** A number that control data may hold: finite, or an integer of at most so many bits. */
  function Bounded(bits: nat): Json -> bool {
    (v: Json) => (v.Real? ==> v.finite) && (v.Integer? ==> -(Pow2(bits) as int) < v.n < Pow2(bits))
  }

  /** Control data is safe exactly when its nesting is within the limit and every number in it is
      finite and within the bit limit. */
  lemma {:induction false} SafeMeans(v: Json, depth: nat, nesting: nat, bits: nat)
    ensures Safe(v, depth, nesting, bits) <==>
            (Depth(v) == 0 || depth + Depth(v) <= nesting) && Everywhere(v, Bounded(bits))
    decreases v
  {
    var cs := Children(v);
    forall i | 0 <= i < |cs|
      ensures Safe(cs[i], depth + 1, nesting, bits) <==>
              (Depth(cs[i]) == 0 || depth + 1 + Depth(cs[i]) <= nesting) && Everywhere(cs[i], Bounded(bits))
    {
      SafeMeans(cs[i], depth + 1, nesting, bits);
    }
    if v.Integer? { BitLengthBounds(v.n, bits); }
    if v.List? || v.Object? {
      if depth < nesting {
        DeepestBounds(cs, v, nesting - depth - 1);
        assert depth + Depth(v) <= nesting <==> forall i | 0 <= i < |cs| :: depth + 1 + Depth(cs[i]) <= nesting;
      }
    }
  }

  /** What a payload may hold apart from nesting: no alien, finite numbers, short strings and
      short string keys. */
  function Carried(limits: Limits): Json -> bool {
    (v: Json) => !v.Alien? && (v.Real? ==> v.finite) && (v.Text? ==> |v.s| <= limits.length)
         && (v.Object? ==> forall i | 0 <= i < |v.members| :: v.members[i].key.Name? && |v.members[i].key.s| <= limits.length)
  }

  lemma {:induction false} PortableMeans(v: Json, depth: nat, limits: Limits)
    ensures Portable(v, depth, limits) <==>
            (Depth(v) == 0 || depth + Depth(v) <= limits.nesting) && Everywhere(v, Carried(limits))
    decreases v
  {
    var cs := Children(v);
    forall i | 0 <= i < |cs|
      ensures Portable(cs[i], depth + 1, limits) <==>
              (Depth(cs[i]) == 0 || depth + 1 + Depth(cs[i]) <= limits.nesting) && Everywhere(cs[i], Carried(limits))
    {
      PortableMeans(cs[i], depth + 1, limits);
    }
    if v.List? || v.Object? {
      if depth < limits.nesting {
        DeepestBounds(cs, v, limits.nesting - depth - 1);
        assert depth + Depth(v) <= limits.nesting <==> forall i | 0 <= i < |cs| :: depth + 1 + Depth(cs[i]) <= limits.nesting;
      }
    }
  }

  // ----- stacks of pending values --------------------------------------------------------

  type Stack = seq<(Json, nat)>

  function Push(stack: Stack, vs: seq<Json>, depth: nat): (r: Stack)
    ensures |r| == |stack| + |vs|
  {
    stack + seq(|vs|, i requires 0 <= i < |vs| => (vs[i], depth))
  }

  /** `pop` the last value, then `extend` by its children one level deeper. */
  function Expand(stack: Stack): Stack
    requires stack != []
  {
    var (v, d) := stack[|stack| - 1];
    Push(stack[..|stack| - 1], Children(v), d + 1)
  }

  function Weight(stack: Stack): nat {
    if stack == [] then 0 else Nodes(stack[|stack| - 1].0) + Weight(stack[..|stack| - 1])
  }

  ghost predicate StackSafe(stack: Stack, nesting: nat, bits: nat) {
    forall i | 0 <= i < |stack| :: Safe(stack[i].0, stack[i].1, nesting, bits)
  }

  ghost predicate StackPortable(stack: Stack, limits: Limits) {
    forall i | 0 <= i < |stack| :: Portable(stack[i].0, stack[i].1, limits)
  }

  lemma {:induction false} PushWeight(stack: Stack, vs: seq<Json>, bound: Json, depth: nat)
    requires forall i | 0 <= i < |vs| :: vs[i] < bound
    ensures Weight(Push(stack, vs, depth)) == Weight(stack) + NodesIn(vs, bound)
    decreases |vs|
  {
    if vs == [] {
      assert Push(stack, vs, depth) == stack;
    } else {
      assert Push(stack, vs, depth) == Push(stack + [(vs[0], depth)], vs[1..], depth);
      PushWeight(stack + [(vs[0], depth)], vs[1..], bound, depth);
      assert (stack + [(vs[0], depth)])[..|stack|] == stack;
    }
  }

  lemma {:induction false} WeightBound(stack: Stack)
    ensures |stack| <= Weight(stack)
  {
    if stack != [] { WeightBound(stack[..|stack| - 1]); }
  }

  lemma NodesOfChildren(v: Json)
    ensures Nodes(v) == 1 + NodesIn(Children(v), v)
  {
  }

  lemma PushChildrenWeight(stack: Stack, v: Json, depth: nat)
    ensures Weight(Push(stack, Children(v), depth)) == Weight(stack) + Nodes(v) - 1
  {
    PushWeight(stack, Children(v), v, depth);
    NodesOfChildren(v);
  }

  lemma ExpandIsPush(stack: Stack)
    requires stack != []
    ensures Expand(stack) == Push(stack[..|stack| - 1], Children(stack[|stack| - 1].0), stack[|stack| - 1].1 + 1)
  {
  }

  lemma WeightOfTop(stack: Stack)
    requires stack != []
    ensures Weight(stack) == Nodes(stack[|stack| - 1].0) + Weight(stack[..|stack| - 1])
  {
  }

  /** Replacing the top value by its children takes exactly one node off the stack. */
  lemma PopWeight(stack: Stack)
    requires stack != []
    ensures Weight(Expand(stack)) == Weight(stack) - 1
  {
    var expanded := Expand(stack);
    assert Weight(expanded) == Weight(stack) - 1 by {
      ExpandIsPush(stack);
      PushChildrenWeight(stack[..|stack| - 1], stack[|stack| - 1].0, stack[|stack| - 1].1 + 1);
      WeightOfTop(stack);
    }
  }

  lemma PopSafe(stack: Stack, nesting: nat, bits: nat)
    requires stack != []
    ensures var (v, d) := stack[|stack| - 1];
            StackSafe(stack, nesting, bits) <==>
              SafeHere(v, d, nesting, bits) && StackSafe(Expand(stack), nesting, bits)
  {
    var top := |stack| - 1;
    var (v, d) := stack[top];
    var cs := Children(v);
    var pushed := Push(stack[..top], cs, d + 1);
    if StackSafe(stack, nesting, bits) {
      assert Safe(stack[top].0, d, nesting, bits);
      forall i | 0 <= i < |pushed| ensures Safe(pushed[i].0, pushed[i].1, nesting, bits) {
        if i < top { assert pushed[i] == stack[i]; } else { assert pushed[i] == (cs[i - top], d + 1); }
      }
    }
    if SafeHere(v, d, nesting, bits) && StackSafe(pushed, nesting, bits) {
      forall i | 0 <= i < |cs| ensures Safe(cs[i], d + 1, nesting, bits) { assert pushed[top + i] == (cs[i], d + 1); }
      forall i | 0 <= i < |stack| ensures Safe(stack[i].0, stack[i].1, nesting, bits) {
        if i < top { assert pushed[i] == stack[i]; }
      }
    }
  }

  lemma PopPortable(stack: Stack, limits: Limits)
    requires stack != []
    ensures var (v, d) := stack[|stack| - 1];
            StackPortable(stack, limits) <==>
              Acceptable(v, d, limits) && StackPortable(Expand(stack), limits)
  {
    var top := |stack| - 1;
    var (v, d) := stack[top];
    var cs := Children(v);
    var pushed := Push(stack[..top], cs, d + 1);
    if StackPortable(stack, limits) {
      assert Portable(stack[top].0, d, limits);
      forall i | 0 <= i < |pushed| ensures Portable(pushed[i].0, pushed[i].1, limits) {
        if i < top { assert pushed[i] == stack[i]; } else { assert pushed[i] == (cs[i - top], d + 1); }
      }
    }
    if Acceptable(v, d, limits) && StackPortable(pushed, limits) {
      forall i | 0 <= i < |cs| ensures Portable(cs[i], d + 1, limits) { assert pushed[top + i] == (cs[i], d + 1); }
      forall i | 0 <= i < |stack| ensures Portable(stack[i].0, stack[i].1, limits) {
        if i < top { assert pushed[i] == stack[i]; }
      }
    }
  }
}

/** The two validators with their explicit stacks, and the duplicate-key check. */
module JsonLimits {
  import opened Wrappers
  import opened JsonValues

  /** `_is_safe_json_value`: one stack, popped from its end, until a value offends. */
  method IsSafeJsonValue(value: Json, nesting: nat, bits: nat) returns (safe: bool)
    ensures safe <==> Safe(value, 0, nesting, bits)
  {
    var pending: Stack := [(value, 0)];
    while pending != []
      invariant StackSafe(pending, nesting, bits) <==> Safe(value, 0, nesting, bits)
      decreases Weight(pending)
    {
      PopSafe(pending, nesting, bits);
      PopWeight(pending);
      var (item, depth) := pending[|pending| - 1];
      if item.Real? && !item.finite { return false; }
      if item.Integer? && BitLength(item.n) > bits { return false; }
      if (item.List? || item.Object?) && depth >= nesting { return false; }
      pending := Expand(pending);
    }
    return true;
  }

  /** The key checks on one object. */
  method KeysFit(members: seq<Member>, length: nat) returns (fit: bool)
    ensures fit <==> forall i | 0 <= i < |members| :: members[i].key.Name? && |members[i].key.s| <= length
  {
    for i := 0 to |members|
      invariant forall j | 0 <= j < i :: members[j].key.Name? && |members[j].key.s| <= length
    {
      if !members[i].key.Name? || |members[i].key.s| > length { return false; }
    }
    return true;
  }

  /** The checks on one popped item, but for the running total. */
  method ItemFits(item: Json, depth: nat, limits: Limits) returns (fits: bool)
    ensures fits <==> Acceptable(item, depth, limits)
  {
    if item.Real? { return item.finite; }
    if item.Text? { return |item.s| <= limits.length; }
    if item.List? { return depth < limits.nesting; }
    if item.Object? {
      if depth >= limits.nesting { return false; }
      fits := KeysFit(item.members, limits.length);
      return;
    }
    return !item.Alien?;
  }

  /** What the loop has established: the answer now hangs on the stack and on the entries
      still to be counted below it. */
  ghost predicate Reduced(value: Json, pending: Stack, counted: nat, limits: Limits) {
    && (StackPortable(pending, limits) <==> Portable(value, 0, limits))
    && counted + Weight(pending) - |pending| == TotalItems(value) && counted <= TotalItems(value)
  }

  lemma ReduceOnce(value: Json, pending: Stack, counted: nat, limits: Limits)
    requires pending != [] && Reduced(value, pending, counted, limits)
    ensures var (item, depth) := pending[|pending| - 1];
            && (!Acceptable(item, depth, limits) ==> !Portable(value, 0, limits))
            && (Acceptable(item, depth, limits) ==>
                  Reduced(value, Expand(pending), counted + |Children(item)|, limits))
    ensures Weight(Expand(pending)) < Weight(pending)
  {
    PopPortable(pending, limits);
    PopWeight(pending);
    WeightBound(Expand(pending));
  }

  lemma StartReduced(value: Json, limits: Limits)
    ensures Reduced(value, [(value, 0)], 0, limits)
  {
    var pending: Stack := [(value, 0)];
    assert pending[..0] == [];
    assert pending[0] == (value, 0);
  }

  /** `validate_json_value`: accepts exactly the values whose every part is acceptable where it
      stands and whose lists and objects hold at most `limits.items` entries in total. */
  method ValidateJsonValue(value: Json, limits: Limits) returns (accepted: bool)
    ensures accepted <==> Portable(value, 0, limits) && TotalItems(value) <= limits.items
  {
    var pending: Stack := [(value, 0)];
    var collectionItems: nat := 0;
    StartReduced(value, limits);
    while pending != []
      invariant Reduced(value, pending, collectionItems, limits)
      invariant collectionItems <= limits.items
      decreases Weight(pending)
    {
      ReduceOnce(value, pending, collectionItems, limits);
      var (item, depth) := pending[|pending| - 1];
      var fits := ItemFits(item, depth, limits);
      if !fits { return false; }
      collectionItems := collectionItems + |Children(item)|;
      pending := Expand(pending);
      if collectionItems > limits.items { return false; }
    }
    return true;
  }

  /** `_unique_json_object`: a dictionary of all members exactly when no name repeats. */
  method UniqueJsonObject(pairs: seq<(string, Json)>) returns (r: Option<map<string, Json>>)
    ensures r.Some? <==> forall i, j | 0 <= i < j < |pairs| :: pairs[i].0 != pairs[j].0
    ensures r.Some? ==> |r.value| == |pairs|
    ensures r.Some? ==> forall i | 0 <= i < |pairs| :: pairs[i].0 in r.value && r.value[pairs[i].0] == pairs[i].1
  {
    var result: map<string, Json> := map[];
    for i := 0 to |pairs|
      invariant |result| == i
      invariant forall j, k | 0 <= j < k < i :: pairs[j].0 != pairs[k].0
      invariant forall j | 0 <= j < i :: pairs[j].0 in result && result[pairs[j].0] == pairs[j].1
      invariant forall k | k in result :: exists j :: 0 <= j < i && pairs[j].0 == k
    {
      if pairs[i].0 in result { return None; }
      result := result[pairs[i].0 := pairs[i].1];
    }
    return Some(result);
  }

  /** What the hook makes of a parsed text: objects are built from the inside out, and the first
      repeated name refuses the whole text. */
  method LoadStrictly(parsed: Json) returns (accepted: bool)
    requires NamedKeys(parsed)
    ensures accepted <==> Unambiguous(parsed)
    decreases parsed
  {
    var children := Children(parsed);
    for i := 0 to |children|
      invariant forall k | 0 <= k < i :: Unambiguous(children[k])
    {
      var inner := LoadStrictly(children[i]);
      if !inner { return false; }
    }
    if !parsed.Object? { return true; }
    var members := parsed.members;
    var pairs := seq(|members|, i requires 0 <= i < |members| => (Label(members[i].key), members[i].value));
    var built := UniqueJsonObject(pairs);
    assert forall i | 0 <= i < |members| :: pairs[i].0 == Label(members[i].key);
    return built.Some?;
  }
}

// What the JSON encoder accepts.
module Encoding {
  import opened Wrappers
  import opened PyText
  import opened Seqs
  import Sorting

  // A JSON value. The items of an object carry keys, those of a list do not.
  datatype Value =
    | Null
    | Bool(b: bool)
    | Int(n: int)
    | Float(x: real)
    | Text(s: PyString)
    | List(items: Items)
    | Object(items: Items)

  datatype Items = Done | Item(key: PyString, value: Value, rest: Items)

  // What is written for a value.
  datatype Token = Scalar(v: Value) | Key(s: PyString) | Open(keyed: bool) | Close

  // ---- The encoder ----

  // Integers must fit in 64 bits, signed or not.
  predicate FitsIn64Bits(n: int) {
    -0x8000_0000_0000_0000 <= n <= 0xFFFF_FFFF_FFFF_FFFF
  }

  // From minus two to the 63rd up to two to the 64th.
  lemma IntegersThatFit(n: int)
    ensures FitsIn64Bits(n) <==> -9223372036854775808 <= n < 18446744073709551616
  {
  }

  function Write(ok: bool, t: Token): Option<seq<Token>> {
    if ok then Some([t]) else None
  }

  // An item of a container once it has been encoded; in a list it has no key.
  datatype Member = Member(key: PyString, tokens: seq<Token>)

  function MemberKey(m: Member): Sorting.Key {
    Sorting.Key(0, 0, if WellFormed(m.key) then Chars(m.key) else "")
  }

  // Keys sort by code points.
  function InOrder(ms: seq<Member>, keyed: bool): seq<Member> {
    if keyed then Sorting.StableSort(ms, MemberKey) else ms
  }

  function Spelled(ms: seq<Member>, keyed: bool): seq<Token> {
    if ms == [] then []
    else (if keyed then [Key(ms[0].key)] else []) + (ms[0].tokens + Spelled(ms[1..], keyed))
  }

  function Wrapped(ms: Option<seq<Member>>, keyed: bool, depth: nat): Option<seq<Token>> {
    if depth == 0 || ms.None? then None
    else Some([Open(keyed)] + Spelled(InOrder(ms.value, keyed), keyed) + [Close])
  }

  // depth is how many more containers may be opened.
  function Encode(v: Value, depth: nat): Option<seq<Token>>
    decreases v
  {
    match v
    case Int(n) => Write(FitsIn64Bits(n), Scalar(v))
    case Text(s) => Write(WellFormed(s), Scalar(v))
    case List(items) => Wrapped(EncodeItems(items, false, depth), false, depth)
    case Object(items) => Wrapped(EncodeItems(items, true, depth), true, depth)
    case _ => Some([Scalar(v)])
  }

  function EncodeItems(items: Items, keyed: bool, depth: nat): Option<seq<Member>>
    decreases items
  {
    match items
    case Done => Some([])
    case Item(key, value, rest) =>
      if depth == 0 || (keyed && !WellFormed(key)) then None
      else
        var tokens, more := Encode(value, depth - 1), EncodeItems(rest, keyed, depth);
        if tokens.None? || more.None? then None
        else Some([Member(if keyed then key else [], tokens.value)] + more.value)
  }

  // ---- When it succeeds ----

  // The integers and strings of a value, keys included.
  function Leaves(v: Value): set<Value>
    decreases v
  {
    match v
    case List(items) => LeavesOf(items, false)
    case Object(items) => LeavesOf(items, true)
    case _ => {v}
  }

  function LeavesOf(items: Items, keyed: bool): set<Value>
    decreases items
  {
    match items
    case Done => {}
    case Item(key, value, rest) =>
      (if keyed then {Text(key)} else {}) + Leaves(value) + LeavesOf(rest, keyed)
  }

  // How deep containers are nested.
  function Nesting(v: Value): nat
    decreases v
  {
    match v
    case List(items) => 1 + NestingOf(items)
    case Object(items) => 1 + NestingOf(items)
    case _ => 0
  }

  function NestingOf(items: Items): nat
    decreases items
  {
    match items
    case Done => 0
    case Item(_, value, rest) => if Nesting(value) > NestingOf(rest) then Nesting(value) else NestingOf(rest)
  }

  predicate IsWritable(leaf: Value) {
    (leaf.Int? ==> FitsIn64Bits(leaf.n)) && (leaf.Text? ==> WellFormed(leaf.s))
  }

  predicate Encodable(v: Value, depth: nat) {
    (forall leaf <- Leaves(v) :: IsWritable(leaf)) && Nesting(v) <= depth
  }

  predicate EncodableItems(items: Items, keyed: bool, depth: nat) {
    (forall leaf <- LeavesOf(items, keyed) :: IsWritable(leaf)) && NestingOf(items) <= depth
  }

  // A value is encoded exactly when all its integers fit in 64 bits, none of its
  // strings and keys has a lone surrogate, and it is not nested too deeply.
  lemma {:induction false} EncodesIff(v: Value, depth: nat)
    ensures Encode(v, depth).Some? <==> Encodable(v, depth)
    decreases v
  {
    match v
    case List(items) =>
      if depth > 0 {
        ItemsEncodeIff(items, false, depth);
      }
    case Object(items) =>
      if depth > 0 {
        ItemsEncodeIff(items, true, depth);
      }
    case _ =>
      assert Leaves(v) == {v} && v in Leaves(v);
  }

  lemma {:induction false} ItemsEncodeIff(items: Items, keyed: bool, depth: nat)
    requires depth > 0
    ensures EncodeItems(items, keyed, depth).Some? <==> EncodableItems(items, keyed, depth - 1)
    decreases items
  {
    match items
    case Done =>
    case Item(key, value, rest) =>
      EncodesIff(value, depth - 1);
      ItemsEncodeIff(rest, keyed, depth);
      assert LeavesOf(items, keyed) == (if keyed then {Text(key)} else {}) + Leaves(value) + LeavesOf(rest, keyed);
  }

  // ---- Reading values ----

  // What an object maps a key to.
  function Lookup(v: Value, key: PyString): Option<Value> {
    if v.Object? then Find(v.items, key) else None
  }

  function Find(items: Items, key: PyString): Option<Value> {
    match items
    case Done => None
    case Item(k, value, rest) => if k == key then Some(value) else Find(rest, key)
  }

  lemma {:induction false} FoundIsInside(items: Items, key: PyString)
    ensures var v := Find(items, key); v.Some? ==> Leaves(v.value) <= LeavesOf(items, true)
  {
    match items
    case Done =>
    case Item(_, _, rest) => FoundIsInside(rest, key);
  }
}

// The queue managers a server knows, each name once.
module Inventories {
  import opened Wrappers
  import opened PyText

  datatype QmEntry = QmEntry(name: PyString, environment: string)

  predicate DistinctNames(entries: seq<QmEntry>) {
    forall i, j | 0 <= i < j < |entries| :: entries[i].name != entries[j].name
  }

  type Inventory = entries: seq<QmEntry> | DistinctNames(entries)

  // The first entry of that name, or behind the end.
  function IndexOf(entries: seq<QmEntry>, name: PyString): (i: nat)
    ensures i <= |entries|
    ensures i < |entries| ==> entries[i].name == name
    ensures forall j | 0 <= j < i :: entries[j].name != name
  {
    if entries == [] || entries[0].name == name then 0 else 1 + IndexOf(entries[1..], name)
  }

  function Lookup(inventory: Inventory, name: PyString): Option<QmEntry> {
    var i := IndexOf(inventory, name);
    if i < |inventory| then Some(inventory[i]) else None
  }

  predicate HasProd(inventory: Inventory, name: PyString) {
    exists e <- inventory :: e.name == name && e.environment == "prod"
  }

  // A name that comes again keeps its place and takes the later entry.
  function Enter(inventory: Inventory, e: QmEntry): Inventory {
    var i := IndexOf(inventory, e.name);
    if i < |inventory| then inventory[i := e] else inventory + [e]
  }

  // The dictionary made from a list of entries.
  function Registered(entries: seq<QmEntry>): Inventory {
    if entries == [] then [] else Enter(Registered(entries[..|entries| - 1]), entries[|entries| - 1])
  }

  function LastNamed(entries: seq<QmEntry>, name: PyString): Option<QmEntry> {
    if entries == [] then None
    else if entries[|entries| - 1].name == name then Some(entries[|entries| - 1])
    else LastNamed(entries[..|entries| - 1], name)
  }

  // An entry is held exactly when its name leads to it.
  lemma HeldIffFound(inventory: Inventory, e: QmEntry)
    ensures e in inventory <==> Lookup(inventory, e.name) == Some(e)
  {
    if e in inventory {
      var i :| 0 <= i < |inventory| && inventory[i] == e;
      assert IndexOf(inventory, e.name) == i;
    }
  }

  lemma EnteredIsFound(inventory: Inventory, e: QmEntry, name: PyString)
    ensures Lookup(Enter(inventory, e), name) == if e.name == name then Some(e) else Lookup(inventory, name)
  {
    var i, at := IndexOf(inventory, e.name), IndexOf(inventory, name);
    var entered := Enter(inventory, e);
    if e.name == name {
      assert entered[i] == e;
      HeldIffFound(entered, e);
    } else if at < |inventory| {
      assert entered[at] == inventory[at];
      HeldIffFound(entered, inventory[at]);
    } else {
      assert forall j | 0 <= j < |entered| :: entered[j] == e || entered[j] == inventory[j];
    }
  }

  // Each name once, where it is first seen.
  function FirstSeen(entries: seq<QmEntry>): seq<PyString> {
    if entries == [] then []
    else
      var before, name := FirstSeen(entries[..|entries| - 1]), entries[|entries| - 1].name;
      if name in before then before else before + [name]
  }

  function NamesOf(inventory: seq<QmEntry>): seq<PyString> {
    seq(|inventory|, i requires 0 <= i < |inventory| => inventory[i].name)
  }

  lemma EnteredNames(inventory: Inventory, e: QmEntry)
    ensures NamesOf(Enter(inventory, e))
         == if e.name in NamesOf(inventory) then NamesOf(inventory) else NamesOf(inventory) + [e.name]
  {
    var i, names := IndexOf(inventory, e.name), NamesOf(inventory);
    assert i < |inventory| ==> names[i] == e.name;
    if e.name in names {
      var j :| 0 <= j < |names| && names[j] == e.name;
      assert inventory[j].name == e.name;
    }
  }

  // The names stand in the order in which they are first seen.
  lemma {:induction false} NamesStandAsFirstSeen(entries: seq<QmEntry>)
    ensures NamesOf(Registered(entries)) == FirstSeen(entries)
  {
    if entries != [] {
      var front, last := entries[..|entries| - 1], entries[|entries| - 1];
      NamesStandAsFirstSeen(front);
      EnteredNames(Registered(front), last);
    }
  }

  // Of several entries with one name the last is looked up.
  lemma {:induction false} LooksUpTheLast(entries: seq<QmEntry>, name: PyString)
    ensures Lookup(Registered(entries), name) == LastNamed(entries, name)
  {
    if entries != [] {
      var front, last := entries[..|entries| - 1], entries[|entries| - 1];
      LooksUpTheLast(front, name);
      EnteredIsFound(Registered(front), last, name);
    }
  }
}

/**
 The context registry of internal/context/registry.go against its reference: a list of
 contexts in insertion order with distinct IDs, no longer than the capacity, and a selection.
 The source keeps the list as an order of IDs beside a map.
 */
module Registry {
  import opened Prelude

  datatype Context = Context(id: string, target: string)

  type List = seq<Context>

  // ---------------------------------------------------------------- the reference

  predicate Has(list: List, id: string) { exists i | 0 <= i < |list| :: list[i].id == id }

  predicate Distinct(list: List) { forall i, j | 0 <= i < j < |list| :: list[i].id != list[j].id }

  /** An update keeps its place, a new context goes to the end. */
  function Put(list: List, c: Context): List {
    if list == [] then [c] else if list[0].id == c.id then [c] + list[1..] else [list[0]] + Put(list[1..], c)
  }

  function Drop(list: List, id: string): List {
    if list == [] then [] else if list[0].id == id then list[1..] else [list[0]] + Drop(list[1..], id)
  }

  /** The registry as its users see it; selected is "" if nothing is. */
  datatype Reg = Reg(list: List, selected: string, capacity: nat, generation: nat, active: bool)

  /** The selection is a member exactly if there are members. */
  ghost predicate Wellformed(r: Reg) {
    && Distinct(r.list) && |r.list| <= r.capacity
    && (if r.list == [] then r.selected == "" else Has(r.list, r.selected))
  }

  predicate Full(r: Reg, id: string) { !Has(r.list, id) && |r.list| >= r.capacity }

  function Upserted(r: Reg, c: Context): Reg {
    if Full(r, c.id) then r else r.(list := Put(r.list, c), selected := if r.selected == "" then c.id else r.selected)
  }

  function Removed(r: Reg, id: string): Reg {
    if !Has(r.list, id) then r
    else
      var list := Drop(r.list, id);
      r.(list := list, selected := if r.selected != id then r.selected else if list == [] then "" else list[0].id)
  }

  function Chosen(r: Reg, id: string): Reg { if Has(r.list, id) then r.(selected := id) else r }

  function Cleared(r: Reg): Reg { r.(list := [], selected := "") }

  function Begun(r: Reg, generation: nat): Reg {
    if r.active && r.generation == generation then r else Cleared(r).(generation := generation, active := true)
  }

  predicate Matches(r: Reg, generation: nat) { r.active && r.generation == generation }

  function Ended(r: Reg, generation: nat): Reg {
    if Matches(r, generation) then Cleared(r).(active := false) else r
  }

  datatype Op =
    | Upsert(context: Context)
    | Remove(id: string)
    | Select(id: string)
    | Clear
    | Begin(generation: nat)
    | End(generation: nat)
    | ForGeneration(generation: nat, op: Op)

  function Apply(r: Reg, op: Op): Reg {
    match op
    case Upsert(c) => Upserted(r, c)
    case Remove(id) => Removed(r, id)
    case Select(id) => Chosen(r, id)
    case Clear => Cleared(r)
    case Begin(g) => Begun(r, g)
    case End(g) => Ended(r, g)
    case ForGeneration(g, inner) => if Matches(r, g) then Apply(r, inner) else r
  }

  lemma {:induction false} PutKeeps(list: List, c: Context)
    requires Distinct(list)
    ensures Distinct(Put(list, c)) && |Put(list, c)| == |list| + (if Has(list, c.id) then 0 else 1)
    ensures forall id :: Has(Put(list, c), id) <==> Has(list, id) || id == c.id
  {
    if list != [] && list[0].id != c.id {
      var rest := Put(list[1..], c);
      PutKeeps(list[1..], c);
      HasFirst(list);
      HasFirst([list[0]] + rest);
      assert ([list[0]] + rest)[1..] == rest;
      assert !Has(list[1..], list[0].id);
      assert !Has(rest, list[0].id);
    } else if list != [] {
      HasFirst(list);
      HasFirst(Put(list, c));
      assert Put(list, c)[1..] == list[1..];
    } else {
      HasFirst([c]);
    }
  }

  lemma HasFirst(list: List)
    requires list != []
    ensures forall id :: Has(list, id) <==> list[0].id == id || Has(list[1..], id)
  {
    forall id ensures Has(list, id) <==> list[0].id == id || Has(list[1..], id) {
      if i :| 0 <= i < |list| && list[i].id == id {
        assert i > 0 ==> list[1..][i - 1].id == id;
      }
      if i :| 0 <= i < |list[1..]| && list[1..][i].id == id {
        assert list[i + 1].id == id;
      }
    }
  }

  lemma {:induction false} DropKeeps(list: List, id: string)
    requires Distinct(list)
    ensures Distinct(Drop(list, id)) && |Drop(list, id)| == |list| - (if Has(list, id) then 1 else 0)
    ensures forall x :: Has(Drop(list, id), x) <==> Has(list, x) && x != id
  {
    if list != [] {
      HasFirst(list);
      assert !Has(list[1..], list[0].id);
      if list[0].id != id {
        var rest := Drop(list[1..], id);
        DropKeeps(list[1..], id);
        HasFirst([list[0]] + rest);
        assert ([list[0]] + rest)[1..] == rest;
        assert !Has(rest, list[0].id);
      }
    }
  }

  /** Every operation keeps the reference well formed. */
  lemma {:induction false} ApplyKeeps(r: Reg, op: Op)
    requires Wellformed(r)
    ensures Wellformed(Apply(r, op)) && Apply(r, op).capacity == r.capacity
    decreases op
  {
    match op
    case Upsert(c) => PutKeeps(r.list, c);
    case Remove(id) => DropKeeps(r.list, id);
    case ForGeneration(g, inner) =>
      if Matches(r, g) {
        ApplyKeeps(r, inner);
      }
    case _ =>
  }

  /** What a delayed operation of a generation that is over does: nothing. */
  lemma StaleChangesNothing(r: Reg, op: Op)
    requires op.ForGeneration? || op.End?
    ensures !Matches(r, op.generation) ==> Apply(r, op) == r
  {
  }

  /** A new context leaves the selection alone exactly if something with a non-empty ID is selected, or nothing changes. */
  lemma SelectionStays(r: Reg, c: Context)
    requires Wellformed(r) && r.list != []
    ensures Upserted(r, c).selected == r.selected <==> r.selected != "" || c.id == "" || Full(r, c.id)
  {
  }

  lemma {:induction false} PutAt(list: List, c: Context, i: nat)
    requires Distinct(list) && i < |list| && list[i].id == c.id
    ensures Put(list, c) == list[i := c]
  {
    if i > 0 {
      PutAt(list[1..], c, i - 1);
    }
  }

  lemma {:induction false} PutNew(list: List, c: Context)
    requires !Has(list, c.id)
    ensures Put(list, c) == list + [c]
  {
    if list != [] {
      HasFirst(list);
      PutNew(list[1..], c);
    }
  }

  lemma {:induction false} DropAt(list: List, id: string, i: nat)
    requires Distinct(list) && i < |list| && list[i].id == id
    ensures Drop(list, id) == list[..i] + list[i + 1..]
  {
    if i > 0 {
      DropAt(list[1..], id, i - 1);
      assert list[1..][..i - 1] == list[1..i] && list[1..][i..] == list[i + 1..];
    }
  }

  // ---------------------------------------------------------------- each operation, spelled out

  /** An update takes the context's place; a new context goes to the end if there is room, and else nothing happens. */
  lemma UpsertExact(r: Reg, c: Context)
    requires Distinct(r.list)
    ensures var r' := Apply(r, Upsert(c));
            && (forall i | 0 <= i < |r.list| :: r.list[i].id == c.id ==> r'.list == r.list[i := c])
            && ((forall i | 0 <= i < |r.list| :: r.list[i].id != c.id) ==>
                  if |r.list| < r.capacity then r'.list == r.list + [c] else r' == r)
            && (r' != r ==> r'.selected == if r.selected == "" then c.id else r.selected)
            && r' == r.(list := r'.list, selected := r'.selected)
  {
    forall i | 0 <= i < |r.list| && r.list[i].id == c.id ensures Put(r.list, c) == r.list[i := c] {
      PutAt(r.list, c, i);
    }
    if !Has(r.list, c.id) {
      PutNew(r.list, c);
    }
  }

  /** A removal closes the gap, and moves the selection to the first context left, if it was removed. */
  lemma RemoveExact(r: Reg, id: string, i: nat)
    requires Distinct(r.list) && i < |r.list| && r.list[i].id == id
    ensures var left := r.list[..i] + r.list[i + 1..];
            Apply(r, Op.Remove(id))
            == Reg(left, if r.selected != id then r.selected else if left == [] then "" else left[0].id,
                   r.capacity, r.generation, r.active)
  {
    DropAt(r.list, id, i);
  }

  /** What is not there is neither removed nor selected; what is there can be selected. */
  lemma MemberExact(r: Reg, id: string)
    ensures var member := exists i | 0 <= i < |r.list| :: r.list[i].id == id;
            && (!member ==> Apply(r, Op.Remove(id)) == r && Apply(r, Op.Select(id)) == r)
            && (member ==> Apply(r, Op.Select(id)) == Reg(r.list, id, r.capacity, r.generation, r.active))
  {
  }

  /**
   Clear empties. A generation that begins does so too, unless it is the active one; the active
   one that ends does, and is active no more. Behind a generation, an operation is done exactly
   if it is the active one.
   */
  lemma GenerationsExact(r: Reg, g: nat, op: Op)
    ensures var same := r.active && r.generation == g;
            && Apply(r, Op.Clear) == Reg([], "", r.capacity, r.generation, r.active)
            && Apply(r, Begin(g)) == (if same then r else Reg([], "", r.capacity, g, true))
            && Apply(r, End(g)) == (if same then Reg([], "", r.capacity, g, false) else r)
            && Apply(r, ForGeneration(g, op)) == (if same then Apply(r, op) else r)
  {
  }

  // ---------------------------------------------------------------- the class

  predicate NoRepeats(order: seq<string>) { forall i, j | 0 <= i < j < |order| :: order[i] != order[j] }

  /** The order lists every item once, under its own ID. */
  ghost predicate Ordered(order: seq<string>, items: map<string, Context>) {
    && (forall x | x in order :: x in items) && NoRepeats(order)
    && (forall id | id in items :: items[id].id == id && id in order)
  }

  function Listing(order: seq<string>, items: map<string, Context>): (list: List)
    requires forall x | x in order :: x in items
    ensures |list| == |order| && forall i | 0 <= i < |list| :: list[i] == items[order[i]]
  {
    seq(|order|, i requires 0 <= i < |order| => items[order[i]])
  }

  lemma ListingHas(order: seq<string>, items: map<string, Context>)
    requires Ordered(order, items)
    ensures Distinct(Listing(order, items)) && forall id :: Has(Listing(order, items), id) <==> id in items
  {
    var list := Listing(order, items);
    forall i | 0 <= i < |order| ensures list[i].id == order[i] {
      assert order[i] in items;
    }
    forall id | id in items ensures Has(list, id) {
      assert id in order;
      var i :| 0 <= i < |order| && order[i] == id;
      assert list[i].id == id;
    }
  }

  lemma {:induction false} DistinctSize(s: seq<string>)
    requires NoRepeats(s)
    ensures |set x | x in s| == |s|
  {
    if s != [] {
      var n := |s| - 1;
      DistinctSize(s[..n]);
      assert (set x | x in s) == (set x | x in s[..n]) + {s[n]};
    }
  }

  lemma ListingSize(order: seq<string>, items: map<string, Context>)
    requires Ordered(order, items)
    ensures |items| == |order|
  {
    DistinctSize(order);
    assert items.Keys == set x | x in order;
  }

  lemma AddNew(order: seq<string>, items: map<string, Context>, c: Context)
    requires Ordered(order, items) && c.id !in items
    ensures Ordered(order + [c.id], items[c.id := c])
    ensures Listing(order + [c.id], items[c.id := c]) == Put(Listing(order, items), c)
  {
    ListingHas(order, items);
    PutNew(Listing(order, items), c);
    assert Listing(order + [c.id], items[c.id := c]) == Listing(order, items) + [c];
  }

  lemma Update(order: seq<string>, items: map<string, Context>, c: Context)
    requires Ordered(order, items) && c.id in items
    ensures Ordered(order, items[c.id := c])
    ensures Listing(order, items[c.id := c]) == Put(Listing(order, items), c)
  {
    UpdateOrdered(order, items, c);
    assert c.id in order;
    var i :| 0 <= i < |order| && order[i] == c.id;
    ListingHas(order, items);
    assert Listing(order, items)[i].id == c.id;
    PutAt(Listing(order, items), c, i);
    UpdateListing(order, items, items[c.id := c], c, i);
  }

  lemma UpdateOrdered(order: seq<string>, items: map<string, Context>, c: Context)
    requires Ordered(order, items) && c.id in items
    ensures Ordered(order, items[c.id := c])
  {
    var items' := items[c.id := c];
    forall id | id in items' ensures items'[id].id == id && id in order {
      assert id in items;
    }
  }

  lemma UpdateListing(order: seq<string>, items: map<string, Context>, items': map<string, Context>, c: Context, i: nat)
    requires (forall x | x in order :: x in items && x in items') && NoRepeats(order) && i < |order|
    requires forall x | x in order :: items'[x] == if x == order[i] then c else items[x]
    ensures Listing(order, items') == Listing(order, items)[i := c]
  {
    forall j | 0 <= j < |order| ensures Listing(order, items')[j] == Listing(order, items)[i := c][j] {
      assert order[j] in order;
    }
  }

  lemma Erase(order: seq<string>, items: map<string, Context>, i: nat)
    requires Ordered(order, items) && i < |order|
    ensures Ordered(order[..i] + order[i + 1..], items - {order[i]})
    ensures Listing(order[..i] + order[i + 1..], items - {order[i]}) == Drop(Listing(order, items), order[i])
  {
    var order', items' := order[..i] + order[i + 1..], items - {order[i]};
    OneLess(order, i);
    ListingHas(order, items);
    var list := Listing(order, items);
    assert order[i] in items && list[i].id == order[i];
    DropAt(list, order[i], i);
    EraseListing(order, items, items', i);
  }

  /** The registry without its i-th context, in the source's terms. */
  lemma RemovedParts(order: seq<string>, items: map<string, Context>, r: Reg, i: nat)
    requires Ordered(order, items) && r.list == Listing(order, items) && Wellformed(r) && i < |order|
    ensures var order', items' := order[..i] + order[i + 1..], items - {order[i]};
            && Ordered(order', items')
            && Removed(r, order[i])
               == r.(list := Listing(order', items'),
                     selected := if r.selected != order[i] then r.selected else if order' == [] then "" else order'[0])
            && Wellformed(Removed(r, order[i]))
  {
    ApplyKeeps(r, Remove(order[i]));
    ListingHas(order, items);
    assert order[i] in order;
    Erase(order, items, i);
    FirstListed(order[..i] + order[i + 1..], items - {order[i]});
  }

  lemma FirstListed(order: seq<string>, items: map<string, Context>)
    requires Ordered(order, items)
    ensures order != [] ==> Listing(order, items)[0].id == order[0]
  {
    if order != [] {
      assert order[0] in order;
    }
  }

  lemma EraseListing(order: seq<string>, items: map<string, Context>, items': map<string, Context>, i: nat)
    requires i < |order| && (forall x | x in order :: x in items)
    requires forall x | x in order[..i] + order[i + 1..] :: x in items' && items'[x] == items[x]
    ensures var list := Listing(order, items); Listing(order[..i] + order[i + 1..], items') == list[..i] + list[i + 1..]
  {
    var order' := order[..i] + order[i + 1..];
    forall j | 0 <= j < |order'| ensures Listing(order', items')[j] == (Listing(order, items)[..i] + Listing(order, items)[i + 1..])[j] {
      assert order'[j] in order';
    }
  }

  lemma OneLess(order: seq<string>, i: nat)
    requires NoRepeats(order) && i < |order|
    ensures var rest := order[..i] + order[i + 1..]; NoRepeats(rest) && forall x :: x in rest <==> x in order && x != order[i]
  {
    var rest := order[..i] + order[i + 1..];
    forall x | x in order && x != order[i] ensures x in rest {
      var k :| 0 <= k < |order| && order[k] == x;
      assert rest[if k < i then k else k - 1] == x;
    }
  }

  /** The search of removeLocked. */
  method IndexOf(order: seq<string>, id: string) returns (i: nat)
    requires id in order
    ensures i < |order| && order[i] == id
  {
    i := 0;
    while order[i] != id
      invariant i < |order| && forall k | 0 <= k < i :: order[k] != id
      decreases |order| - i
    {
      i := i + 1;
    }
  }

  class Registry {
    var items: map<string, Context>
    var order: seq<string>
    var selected: string
    const capacity: nat
    var generation: nat
    var generationActive: bool

    ghost predicate Valid()
      reads this
    {
      Ordered(order, items) && Wellformed(View())
    }

    ghost function View(): Reg
      reads this
      requires Ordered(order, items)
    {
      Reg(Listing(order, items), selected, capacity, generation, generationActive)
    }

    constructor (capacity: nat)
      ensures Valid() && View() == Reg([], "", capacity, 0, false)
    {
      this.capacity := capacity;
      items, order, selected, generation, generationActive := map[], [], "", 0, false;
    }

    /** upsertLocked. */
    method TryUpsert(c: Context) returns (ok: bool)
      requires Valid()
      modifies this`items, this`order, this`selected
      ensures Valid() && View() == Apply(old(View()), Upsert(c)) && ok == !Full(old(View()), c.id)
    {
      ApplyKeeps(View(), Upsert(c));
      ListingHas(order, items);
      ListingSize(order, items);
      if c.id !in items {
        if |items| >= capacity { return false; }
        AddNew(order, items, c);
        order := order + [c.id];
      } else {
        Update(order, items, c);
      }
      items := items[c.id := c];
      if selected == "" {
        selected := c.id;
      }
      return true;
    }

    /** removeLocked. */
    method Remove(id: string) returns (removed: bool)
      requires Valid()
      modifies this`items, this`order, this`selected
      ensures Valid() && View() == Apply(old(View()), Op.Remove(id)) && removed == Has(old(View()).list, id)
    {
      ListingHas(order, items);
      if id !in items { return false; }
      var i := IndexOf(order, id);
      RemoveAt(i);
      return true;
    }

    method RemoveAt(i: nat)
      requires Valid() && i < |order|
      modifies this`items, this`order, this`selected
      ensures Valid() && View() == Apply(old(View()), Op.Remove(old(order[i])))
    {
      RemovedParts(order, items, View(), i);
      var id := order[i];
      var rest := order[..i] + order[i + 1..];
      if selected == id {
        selected := "";
        if |rest| > 0 {
          selected := rest[0];
        }
      }
      items, order := items - {id}, rest;
      assert Ordered(order, items) && View() == Removed(old(View()), id);
    }

    method Select(id: string) returns (ok: bool)
      requires Valid()
      modifies this`selected
      ensures Valid() && View() == Apply(old(View()), Op.Select(id)) && ok == Has(old(View()).list, id)
    {
      ApplyKeeps(View(), Op.Select(id));
      ListingHas(order, items);
      if id !in items { return false; }
      selected := id;
      return true;
    }

    method Selected() returns (c: Option<Context>)
      requires Valid()
      ensures c.Some? <==> View().list != []
      ensures c.Some? ==> c.value in View().list && c.value.id == selected
    {
      ListingHas(order, items);
      if selected !in items { return None; }
      assert Has(View().list, selected);
      return Some(items[selected]);
    }

    /** List: in insertion order. */
    method List() returns (out: seq<Context>)
      requires Valid()
      ensures out == View().list
    {
      out := [];
      for i := 0 to |order|
        invariant out == Listing(order, items)[..i]
      {
        if order[i] in items {
          out := out + [items[order[i]]];
        }
      }
    }

    method Clear() returns (removed: nat)
      requires Valid()
      modifies this`items, this`order, this`selected
      ensures Valid() && View() == Apply(old(View()), Op.Clear) && removed == |old(View()).list|
    {
      ListingSize(order, items);
      removed := |items|;
      items, order, selected := map[], [], "";
      assert Listing(order, items) == [];
    }

    method BeginGeneration(g: nat) returns (removed: nat)
      requires Valid()
      modifies this`items, this`order, this`selected, this`generation, this`generationActive
      ensures Valid() && View() == Apply(old(View()), Begin(g))
      ensures removed == if Matches(old(View()), g) then 0 else |old(View()).list|
    {
      if generationActive && generation == g { return 0; }
      removed := Clear();
      generation, generationActive := g, true;
    }

    method EndGeneration(g: nat) returns (removed: Option<nat>)
      requires Valid()
      modifies this`items, this`order, this`selected, this`generationActive
      ensures Valid() && View() == Apply(old(View()), End(g))
      ensures removed == if Matches(old(View()), g) then Some(|old(View()).list|) else None
    {
      if !generationActive || generation != g { return None; }
      var n := Clear();
      generationActive := false;
      assert View() == Cleared(old(View())).(active := false);
      return Some(n);
    }

    method UpsertForGeneration(g: nat, c: Context) returns (ok: Option<bool>)
      requires Valid()
      modifies this`items, this`order, this`selected
      ensures Valid() && View() == Apply(old(View()), ForGeneration(g, Upsert(c)))
      ensures ok == if Matches(old(View()), g) then Some(!Full(old(View()), c.id)) else None
    {
      if !generationActive || generation != g { return None; }
      var r := TryUpsert(c);
      return Some(r);
    }

    method SelectForGeneration(g: nat, id: string) returns (ok: Option<bool>)
      requires Valid()
      modifies this`selected
      ensures Valid() && View() == Apply(old(View()), ForGeneration(g, Op.Select(id)))
      ensures ok == if Matches(old(View()), g) then Some(Has(old(View()).list, id)) else None
    {
      if !generationActive || generation != g { return None; }
      var r := Select(id);
      return Some(r);
    }

    /**
     The loop of installOwner: what was listed and selected is carried over to the generation
     of a new upstream owner.
     */
    method Reseed(g: nat)
      requires Valid()
      modifies this
      ensures Valid() && View() == old(View()).(generation := g, active := true)
    {
      ghost var was := View();
      var seeded := List();
      var selection := Selected();
      var _ := BeginGeneration(g);
      CarryOver(g, seeded, was);
      if selection.Some? {
        var _ := SelectForGeneration(g, selection.value.id);
      }
      Reselected(was, g);
    }

    method CarryOver(g: nat, seeded: seq<Context>, ghost was: Reg)
      requires Valid() && Wellformed(was) && seeded == was.list && Carried(was, View(), g, 0)
      modifies this`items, this`order, this`selected
      ensures Valid() && Carried(was, View(), g, |was.list|)
    {
      for i := 0 to |seeded|
        invariant Valid() && Carried(was, View(), g, i)
      {
        CarriedMore(was, View(), g, i);
        var _ := UpsertForGeneration(g, seeded[i]);
      }
    }
  }

  const MAX_CONTEXTS := 4096

  /** NewRegistryWithCapacity: null for a capacity outside its range. */
  method NewRegistryWithCapacity(capacity: int) returns (r: Registry?)
    ensures r != null <==> 1 <= capacity <= MAX_CONTEXTS
    ensures r != null ==> fresh(r) && r.Valid() && r.View() == Reg([], "", capacity, 0, false)
  {
    if capacity < 1 || capacity > MAX_CONTEXTS { return null; }
    r := new Registry(capacity);
  }

  /** The first i contexts are in: into a cleared registry, or over themselves. */
  ghost predicate Carried(was: Reg, now: Reg, g: nat, i: nat) {
    && Wellformed(now) && now.capacity == was.capacity && Matches(now, g)
    && (now.list == was.list || (i <= |was.list| && now.list == was.list[..i]))
  }

  lemma CarriedMore(was: Reg, now: Reg, g: nat, i: nat)
    requires Wellformed(was) && i < |was.list| && Carried(was, now, g, i)
    ensures Carried(was, Apply(now, ForGeneration(g, Upsert(was.list[i]))), g, i + 1)
  {
    var c := was.list[i];
    ApplyKeeps(now, Upsert(c));
    if now.list == was.list {
      assert Has(now.list, c.id);
      PutAt(now.list, c, i);
      assert now.list[i := c] == now.list;
    } else {
      assert !Has(now.list, c.id);
      PutNew(now.list, c);
      assert was.list[..i] + [c] == was.list[..i + 1];
    }
  }

  /** Behind the loop, the old selection makes the registry what it was. */
  lemma Reselected(was: Reg, g: nat)
    requires Wellformed(was)
    ensures forall now | Carried(was, now, g, |was.list|) ::
              Apply(now, ForGeneration(g, Select(was.selected))) == was.(generation := g, active := true)
              || (was.list == [] && now == was.(generation := g, active := true))
  {
    assert was.list[..|was.list|] == was.list;
  }
}

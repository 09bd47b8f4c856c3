/**
 * The `Menu` application class: an ordered collection of `MenuItem` records
 * with lookup by id, append, replace-in-place update and removal.
 */
module Menus {
  import opened Js
  import opened Items

  /** The errors the collection throws. */
  datatype MenuError =
    | ItemsNotArray        // the constructor's argument is not an array
    | DataNotObject        // `new MenuItem(data)` cannot destructure `null` or `undefined`
    | IndexIdMissing       // getItemIndex was given no id
    | IndexIdNotString     // getItemIndex was given a non-string id
    | NoDataProvided       // addItem was given falsy data
    | UpdateIdMissing      // updateItem was given a falsy id
    | UpdateIdNotString    // updateItem was given a non-string id
    | ItemNotFound         // updateItem found no record with that id
    | RemoveIdMissing      // removeItem was given a falsy id

  /** The constructor's argument: omitted (defaults to `[]`), an array, or anything else. */
  datatype Seed = Omitted | Array(elems: seq<Data>) | NotArray

  /** The outcome of an operation together with the collection it leaves behind. */
  datatype Change<+T> = Change(result: Result<T, MenuError>, items: seq<MenuItem>)

  /** `findIndex(item => item._id === id)`: the first position holding `id`, or -1. */
  function IndexOf(items: seq<MenuItem>, id: string): (r: int)
    ensures -1 <= r < |items|
    ensures r == -1 <==> forall k :: 0 <= k < |items| ==> items[k].id != id
    ensures r != -1 ==> items[r].id == id && forall k :: 0 <= k < r ==> items[k].id != id
  {
    if items == [] then -1
    else if items[0].id == id then 0
    else
      var r := IndexOf(items[1..], id);
      if r == -1 then -1 else r + 1
  }

  /** `splice(i, 1, item)`: the collection with position `i` replaced by `item`. */
  lemma SpliceReplaces(items: seq<MenuItem>, i: nat, item: MenuItem)
    requires i < |items|
    ensures items[..i] + [item] + items[i + 1..] == items[i := item]
  {
  }

  /** `splice(i, 1)`: the collection without position `i`, the others in their order. */
  function RemoveAt(items: seq<MenuItem>, i: nat): (r: seq<MenuItem>)
    requires i < |items|
    ensures |r| == |items| - 1
    ensures forall k :: 0 <= k < i ==> r[k] == items[k]
    ensures forall k :: i <= k < |r| ==> r[k] == items[k + 1]
    ensures multiset(items) == multiset(r) + multiset{items[i]}
  {
    assert items == items[..i] + [items[i]] + items[i + 1..];
    items[..i] + items[i + 1..]
  }

  /** Every record in the collection went through the constructor. */
  ghost predicate AllConstructed(items: seq<MenuItem>)
  {
    forall k :: 0 <= k < |items| ==> Constructed(items[k])
  }

  /** Whether the seed can be turned into records: it is omitted, or an array of objects. */
  predicate SeedAccepted(seed: Seed)
  {
    match seed
    case Omitted => true
    case Array(elems) => forall k :: 0 <= k < |elems| ==> elems[k].Obj?
    case NotArray => false
  }

  /** The record built for the `k`-th seed element, after `calls` earlier random draws. */
  function SeedItem(elems: seq<Data>, k: nat, draw: nat -> Hex, calls: nat): MenuItem
    requires k < |elems| && elems[k].Obj?
  {
    Build(elems[k].props, IdAt(draw, calls + IdDigits * k))
  }

  /** The records built for the first `n` seed elements, in order, after `calls` earlier random draws. */
  function SeedItems(elems: seq<Data>, n: nat, draw: nat -> Hex, calls: nat): (r: seq<MenuItem>)
    requires n <= |elems| && forall k :: 0 <= k < n ==> elems[k].Obj?
    ensures |r| == n && AllConstructed(r)
  {
    if n == 0 then [] else SeedItems(elems, n - 1, draw, calls) + [SeedItem(elems, n - 1, draw, calls)]
  }

  /** The `k`-th of the records built for a seed is the one built for its `k`-th element. */
  lemma {:induction false} SeedItemsAt(elems: seq<Data>, n: nat, draw: nat -> Hex, calls: nat)
    requires n <= |elems| && forall k :: 0 <= k < n ==> elems[k].Obj?
    ensures forall k :: 0 <= k < n ==> SeedItems(elems, n, draw, calls)[k] == SeedItem(elems, k, draw, calls)
  {
    if n > 0 {
      SeedItemsAt(elems, n - 1, draw, calls);
    }
  }

  // ----- The operations as functions of the collection -----

  /** `getItemIndex(id)`. */
  function FindIndex(items: seq<MenuItem>, id: Value): (r: Result<int, MenuError>)
    ensures id == Undefined ==> r == Err(IndexIdMissing)
    ensures (id.Null? || id.List?) ==> r == Err(IndexIdNotString)
    ensures r.Ok? ==> id.Str? && -1 <= r.value < |items|
    ensures r.Ok? && r.value == -1 ==> forall k :: 0 <= k < |items| ==> items[k].id != id.s
    ensures r.Ok? && r.value != -1 ==> items[r.value].id == id.s && forall k :: 0 <= k < r.value ==> items[k].id != id.s
  {
    match id
    case Undefined => Err(IndexIdMissing)
    case Str(s) => Ok(IndexOf(items, s))
    case _ => Err(IndexIdNotString)
  }

  /** `getItem(id)`: the stored record, or `None` for `null` when there is none. */
  function Lookup(items: seq<MenuItem>, id: Value): (r: Result<Option<MenuItem>, MenuError>)
    ensures r.Err? <==> !id.Str?
    ensures r == Ok(None) <==> id.Str? && forall k :: 0 <= k < |items| ==> items[k].id != id.s
    ensures r.Ok? && r.value.Some? ==> r.value.value in items && r.value.value.id == id.s
    ensures r.Ok? && r.value.Some? ==> r.value.value == items[IndexOf(items, id.s)]
  {
    match FindIndex(items, id)
    case Err(e) => Err(e)
    case Ok(i) => if i == -1 then Ok(None) else Ok(Some(items[i]))
  }

  /** `addItem(data)` where `uuidv4` returns `freshId`. */
  function Added(items: seq<MenuItem>, data: Data, freshId: string): (c: Change<MenuItem>)
    ensures c.result.Ok? <==> data.Obj?
    ensures c.result.Err? ==> c.items == items
    ensures c.result.Ok? ==> c.items == items + [c.result.value] && c.result.value.id == freshId
  {
    match data
    case Nullish => Change(Err(NoDataProvided), items)
    case Obj(props) =>
      var item := Build(props, freshId);
      Change(Ok(item), items + [item])
  }

  /** `updateItem(id, updates)` where `uuidv4` returns `freshId`. */
  function Updated(items: seq<MenuItem>, id: Value, updates: Data, freshId: string): (c: Change<MenuItem>)
    requires AllConstructed(items)
    ensures |c.items| == |items| && AllConstructed(c.items)
    ensures c.result.Err? ==> c.items == items
    ensures c.result.Ok? ==>
      && id.Str? && c.result.value.id == freshId && IndexOf(items, id.s) != -1
      && c.items[IndexOf(items, id.s)] == c.result.value
      && forall k :: 0 <= k < |items| && k != IndexOf(items, id.s) ==> c.items[k] == items[k]
  {
    if !Truthy(id) then Change(Err(UpdateIdMissing), items)
    else if !id.Str? then Change(Err(UpdateIdNotString), items)
    else
      var i := IndexOf(items, id.s);
      if i == -1 then Change(Err(ItemNotFound), items)
      else
        var item := Merge(items[i], updates, freshId);
        Change(Ok(item), items[i := item])
  }

  /** `removeItem(id)`: the remaining records, or `None` for `null` when there is no match. */
  function Removed(items: seq<MenuItem>, id: Value): (c: Change<Option<seq<MenuItem>>>)
    ensures c.result.Ok? && c.result.value.Some? ==> c.result.value.value == c.items && |c.items| == |items| - 1
    ensures !(c.result.Ok? && c.result.value.Some?) ==> c.items == items
    ensures c.result == Ok(None) <==> id.Str? && id.s != "" && forall k :: 0 <= k < |items| ==> items[k].id != id.s
  {
    if !Truthy(id) then Change(Err(RemoveIdMissing), items)
    else match FindIndex(items, id)
      case Err(e) => Change(Err(e), items)
      case Ok(i) =>
        if i == -1 then Change(Ok(None), items)
        else
          var rest := RemoveAt(items, i);
          Change(Ok(Some(rest)), rest)
  }

  // ----- What the operations promise -----

  /** getItemIndex and getItem fail exactly on a missing or non-string id. */
  lemma LookupErrors(items: seq<MenuItem>, id: Value)
    ensures FindIndex(items, id).Err? <==> !id.Str?
    ensures Lookup(items, id).Err? <==> !id.Str?
    ensures id == Undefined ==> FindIndex(items, id) == Err(IndexIdMissing) && Lookup(items, id) == Err(IndexIdMissing)
    ensures (id.Null? || id.List?) ==> FindIndex(items, id) == Err(IndexIdNotString) && Lookup(items, id) == Err(IndexIdNotString)
  {
  }

  /** getItem: `null` exactly when no record has the id, else a record holding that id. */
  lemma LookupFinds(items: seq<MenuItem>, id: string)
    ensures Lookup(items, Str(id)) == Ok(None) <==> forall k :: 0 <= k < |items| ==> items[k].id != id
    ensures Lookup(items, Str(id)).Ok?
    ensures Lookup(items, Str(id)).value.Some? ==>
      Lookup(items, Str(id)).value.value in items && Lookup(items, Str(id)).value.value.id == id
    ensures Lookup(items, Str(id)).value.Some? ==> Lookup(items, Str(id)).value.value == items[IndexOf(items, id)]
  {
  }

  /**
   * addItem: falsy data is refused and nothing changes; otherwise exactly one
   * record is appended, built from the data with contacts defaulting to `[]`,
   * and it is what the call returns.
   */
  lemma AddAppends(items: seq<MenuItem>, data: Data, freshId: string)
    ensures data.Nullish? ==> Added(items, data, freshId) == Change(Err(NoDataProvided), items)
    ensures data.Obj? ==>
      var c := Added(items, data, freshId);
      && c.result.Ok?
      && |c.items| == |items| + 1
      && c.items[..|items|] == items
      && c.items[|items|] == c.result.value
      && c.result.value.id == freshId
      && c.result.value.name == Get(data.props, "name")
      && c.result.value.address == Get(data.props, "address")
      && c.result.value.telephone == Get(data.props, "telephone")
      && c.result.value.email == Get(data.props, "email")
      && c.result.value.contacts == (if Get(data.props, "contacts") == Undefined then List([]) else Get(data.props, "contacts"))
  {
  }

  /**
   * An appended record is found at the end, unless an earlier record already
   * carries the same id: ids are random, so nothing rules that out.
   */
  lemma {:induction false} IndexOfAppend(items: seq<MenuItem>, item: MenuItem)
    ensures IndexOf(items + [item], item.id) == if IndexOf(items, item.id) == -1 then |items| else IndexOf(items, item.id)
  {
    if items != [] {
      assert (items + [item])[1..] == items[1..] + [item];
      IndexOfAppend(items[1..], item);
    }
  }

  /** updateItem fails on a falsy id, a non-string id and an unknown id, and then changes nothing. */
  lemma UpdateErrors(items: seq<MenuItem>, id: Value, updates: Data, freshId: string)
    requires AllConstructed(items)
    ensures !Truthy(id) ==> Updated(items, id, updates, freshId) == Change(Err(UpdateIdMissing), items)
    ensures id.List? ==> Updated(items, id, updates, freshId) == Change(Err(UpdateIdNotString), items)
    ensures Truthy(id) && id.Str? && (forall k :: 0 <= k < |items| ==> items[k].id != id.s) ==>
      Updated(items, id, updates, freshId) == Change(Err(ItemNotFound), items)
    ensures Updated(items, id, updates, freshId).result.Err? ==> Updated(items, id, updates, freshId).items == items
    ensures Updated(items, id, updates, freshId).result.Ok? <==>
      id.Str? && id.s != "" && exists k :: 0 <= k < |items| && items[k].id == id.s
  {
  }

  /**
   * A successful updateItem keeps the length, replaces only the first record
   * holding the id, with the updates merged over it and a freshly generated id;
   * the other records stay where they were.
   */
  lemma UpdateReplaces(items: seq<MenuItem>, id: string, updates: Data, freshId: string)
    requires AllConstructed(items)
    requires id != "" && IndexOf(items, id) != -1
    ensures
      var i := IndexOf(items, id);
      var c := Updated(items, Str(id), updates, freshId);
      && c.result == Ok(c.items[i])
      && |c.items| == |items|
      && (forall k :: 0 <= k < |items| && k != i ==> c.items[k] == items[k])
      && c.items[i] == Merge(items[i], updates, freshId)
      && c.items[i].id == freshId
      && AllConstructed(c.items)
  {
  }

  /** removeItem fails on a falsy or non-string id, answers `null` on a miss, and then changes nothing. */
  lemma RemoveErrors(items: seq<MenuItem>, id: Value)
    ensures !Truthy(id) ==> Removed(items, id) == Change(Err(RemoveIdMissing), items)
    ensures id.List? ==> Removed(items, id) == Change(Err(IndexIdNotString), items)
    ensures id.Str? && id.s != "" && (forall k :: 0 <= k < |items| ==> items[k].id != id.s) ==>
      Removed(items, id) == Change(Ok(None), items)
    ensures Removed(items, id).result.Err? || Removed(items, id).result == Ok(None) ==> Removed(items, id).items == items
  {
  }

  /**
   * A removeItem that hits removes exactly the first record holding the id,
   * keeps the others in order, and returns what remains.
   */
  lemma RemoveDeletes(items: seq<MenuItem>, id: string)
    requires id != "" && IndexOf(items, id) != -1
    ensures
      var i := IndexOf(items, id);
      var c := Removed(items, Str(id));
      && c.result == Ok(Some(c.items))
      && |c.items| == |items| - 1
      && (forall k :: 0 <= k < i ==> c.items[k] == items[k])
      && (forall k :: i <= k < |c.items| ==> c.items[k] == items[k + 1])
      && multiset(items) == multiset(c.items) + multiset{items[i]}
  {
  }

  // ----- Ids: what holds when they happen to be unique -----

  ghost predicate UniqueIds(items: seq<MenuItem>)
  {
    forall i, j :: 0 <= i < j < |items| ==> items[i].id != items[j].id
  }

  /** Appending a record whose id is new keeps ids unique, and it is then found last. */
  lemma AddKeepsUnique(items: seq<MenuItem>, item: MenuItem)
    requires UniqueIds(items) && IndexOf(items, item.id) == -1
    ensures UniqueIds(items + [item])
    ensures IndexOf(items + [item], item.id) == |items|
  {
    IndexOfAppend(items, item);
  }

  /** With unique ids, a removed record's id is no longer found. */
  lemma RemoveForgetsId(items: seq<MenuItem>, i: nat)
    requires UniqueIds(items) && i < |items|
    ensures UniqueIds(RemoveAt(items, i))
    ensures IndexOf(RemoveAt(items, i), items[i].id) == -1
  {
    var r := RemoveAt(items, i);
    forall a, b | 0 <= a < b < |r|
      ensures r[a].id != r[b].id
    {
      var a', b' := if a < i then a else a + 1, if b < i then b else b + 1;
      assert r[a] == items[a'] && r[b] == items[b'];
    }
    forall k | 0 <= k < |r|
      ensures r[k].id != items[i].id
    {
      if k >= i {
        assert r[k] == items[k + 1];
      }
    }
  }

  /** Without unique ids, removing one record can leave another with the same id to be found. */
  lemma RemoveWithDuplicateStillFinds(a: MenuItem, b: MenuItem)
    requires a.id == b.id
    ensures IndexOf([a, b], a.id) == 0
    ensures IndexOf(RemoveAt([a, b], 0), a.id) == 0
  {
  }

  /**
   * With unique ids and a generated id not already in use, an update keeps ids
   * unique, the replacement is found at the same position under its new id, and
   * the old id is no longer found.
   */
  lemma UpdateRenames(items: seq<MenuItem>, id: string, updates: Data, freshId: string)
    requires AllConstructed(items) && UniqueIds(items)
    requires id != "" && IndexOf(items, id) != -1 && IndexOf(items, freshId) == -1
    ensures
      var c := Updated(items, Str(id), updates, freshId);
      && UniqueIds(c.items)
      && IndexOf(c.items, freshId) == IndexOf(items, id)
      && IndexOf(c.items, id) == -1
  {
    var i := IndexOf(items, id);
    var c := Updated(items, Str(id), updates, freshId);
    assert c.items == items[i := Merge(items[i], updates, freshId)];
    assert forall k :: 0 <= k < |c.items| && k != i ==> c.items[k].id != id;
  }

  // ----- The collection object -----

  class Menu {
    /** The private `#items` array, in insertion order. */
    var items: seq<MenuItem>

    ghost predicate Valid()
      reads this
    {
      AllConstructed(items)
    }

    /** `new Menu()`: an empty collection. */
    constructor ()
      ensures Valid() && items == []
    {
      items := [];
    }

    /**
     * `new Menu(itemsDataArray)`: refuses a non-array, and otherwise builds one
     * record per element, in order, each with a freshly generated id; an element
     * that is `null` or `undefined` makes the `MenuItem` constructor throw.
     */
    static method Create(seed: Seed, rng: Rng) returns (r: Result<Menu, MenuError>)
      modifies rng
      ensures r.Ok? <==> SeedAccepted(seed)
      ensures seed.NotArray? ==> r == Err(ItemsNotArray) && rng.calls == old(rng.calls)
      ensures seed.Array? && r.Err? ==> r.error == DataNotObject
      ensures seed.Array? && r.Err? ==>
        exists i :: && 0 <= i < |seed.elems| && seed.elems[i].Nullish?
                    && (forall k :: 0 <= k < i ==> seed.elems[k].Obj?)
                    && rng.calls == old(rng.calls) + IdDigits * i
      ensures r.Ok? ==> fresh(r.value) && r.value.Valid()
      ensures seed.Omitted? ==> r.Ok? && r.value.items == [] && rng.calls == old(rng.calls)
      ensures seed.Array? && r.Ok? ==>
        && |r.value.items| == |seed.elems|
        && (forall k :: 0 <= k < |seed.elems| ==>
              r.value.items[k] == SeedItem(seed.elems, k, rng.draw, old(rng.calls)))
        && rng.calls == old(rng.calls) + IdDigits * |seed.elems|
    {
      if seed.NotArray? {
        return Err(ItemsNotArray);
      }
      var elems := if seed.Array? then seed.elems else [];
      var m := new Menu();
      for i := 0 to |elems|
        invariant forall k :: 0 <= k < i ==> elems[k].Obj?
        invariant m.items == SeedItems(elems, i, rng.draw, old(rng.calls))
        invariant rng.calls == old(rng.calls) + IdDigits * i
      {
        if elems[i].Nullish? {
          return Err(DataNotObject);
        }
        var id := rng.NextId();
        m.items := m.items + [Build(elems[i].props, id)];
      }
      SeedItemsAt(elems, |elems|, rng.draw, old(rng.calls));
      return Ok(m);
    }

    /** `getItemIndex(id)`: a linear scan for the first record holding the id. */
    method GetItemIndex(id: Value) returns (r: Result<int, MenuError>)
      ensures id == Undefined ==> r == Err(IndexIdMissing)
      ensures (id.Null? || id.List?) ==> r == Err(IndexIdNotString)
      ensures id.Str? ==> r.Ok? && -1 <= r.value < |items|
      ensures id.Str? && r.value == -1 ==> forall k :: 0 <= k < |items| ==> items[k].id != id.s
      ensures id.Str? && r.value != -1 ==> items[r.value].id == id.s && forall k :: 0 <= k < r.value ==> items[k].id != id.s
    {
      if id == Undefined {
        return Err(IndexIdMissing);
      }
      if !id.Str? {
        return Err(IndexIdNotString);
      }
      var i := 0;
      while i < |items| && items[i].id != id.s
        invariant 0 <= i <= |items|
        invariant forall k :: 0 <= k < i ==> items[k].id != id.s
      {
        i := i + 1;
      }
      r := Ok(if i == |items| then -1 else i);
    }

    /** `getItem(id)`: a copy of the first record holding the id, or `null`. */
    method GetItem(id: Value) returns (r: Result<Option<MenuItem>, MenuError>)
      ensures r == Lookup(items, id)
    {
      var index := GetItemIndex(id);
      match index
      case Err(e) => r := Err(e);
      case Ok(i) =>
        if i == -1 {
          r := Ok(None);
        } else {
          r := Ok(Some(items[i]));
        }
    }

    /** `getAllItems()`: a copy of the whole collection, in order. */
    method GetAllItems() returns (r: seq<MenuItem>)
      ensures r == items
    {
      r := items;
    }

    /** `addItem(itemData)`. */
    method AddItem(data: Data, rng: Rng) returns (r: Result<MenuItem, MenuError>)
      requires Valid()
      modifies this, rng
      ensures Valid()
      ensures r == Added(old(items), data, IdAt(rng.draw, old(rng.calls))).result
      ensures items == Added(old(items), data, IdAt(rng.draw, old(rng.calls))).items
      ensures rng.calls == old(rng.calls) + (if r.Ok? then IdDigits else 0)
    {
      if data.Nullish? {
        return Err(NoDataProvided);
      }
      var id := rng.NextId();
      var item := Build(data.props, id);
      items := items + [item];
      r := Ok(item);
    }

    /** `updateItem(id, updates)`. */
    method UpdateItem(id: Value, updates: Data, rng: Rng) returns (r: Result<MenuItem, MenuError>)
      requires Valid()
      modifies this, rng
      ensures Valid()
      ensures r == Updated(old(items), id, updates, IdAt(rng.draw, old(rng.calls))).result
      ensures items == Updated(old(items), id, updates, IdAt(rng.draw, old(rng.calls))).items
      ensures rng.calls == old(rng.calls) + (if r.Ok? then IdDigits else 0)
    {
      if !Truthy(id) {
        return Err(UpdateIdMissing);
      }
      if !id.Str? {
        return Err(UpdateIdNotString);
      }
      var index := GetItemIndex(id);
      var i := index.value;
      if i == -1 {
        return Err(ItemNotFound);
      }
      assert i == IndexOf(items, id.s);
      var newId := rng.NextId();
      var item := Merge(items[i], updates, newId);
      SpliceReplaces(items, i, item);
      items := items[..i] + [item] + items[i + 1..];
      r := Ok(item);
    }

    /** `removeItem(id)`. */
    method RemoveItem(id: Value) returns (r: Result<Option<seq<MenuItem>>, MenuError>)
      requires Valid()
      modifies this
      ensures Valid()
      ensures r == Removed(old(items), id).result
      ensures items == Removed(old(items), id).items
    {
      if !Truthy(id) {
        return Err(RemoveIdMissing);
      }
      var index := GetItemIndex(id);
      match index
      case Err(e) => r := Err(e);
      case Ok(i) =>
        if i == -1 {
          r := Ok(None);
        } else {
          items := items[..i] + items[i + 1..];
          r := Ok(Some(items));
        }
    }

    /** `removeAllItems()`. */
    method RemoveAllItems()
      modifies this
      ensures Valid() && items == []
    {
      items := [];
    }
  }

  /**
   * Seeding with records named A, B and C, removing B and adding D leaves A, C
   * and D in that order, for any random values that give A and B different ids.
   */
  method SeedRemoveAddScenario(rng: Rng)
    requires IdAt(rng.draw, rng.calls) != IdAt(rng.draw, rng.calls + IdDigits)
    modifies rng
  {
    var a, b, c := Str("A"), Str("B"), Str("C");
    var seed := [Obj(map["name" := a]), Obj(map["name" := b]), Obj(map["name" := c])];
    var created := Menu.Create(Array(seed), rng);
    var menu := created.value;
    var all := menu.GetAllItems();
    assert all[0] == SeedItem(seed, 0, rng.draw, old(rng.calls)) && all[1] == SeedItem(seed, 1, rng.draw, old(rng.calls));
    assert |all| == 3 && all[0].name == a && all[1].name == b && all[2].name == c;

    IdAtLength(rng.draw, old(rng.calls) + IdDigits);
    assert all[0].id != all[1].id && all[1].id != "";
    RemoveAddScenario(menu, rng);
    assert menu.items[0].name == a && menu.items[1].name == c && menu.items[2].name == Str("D");
  }

  /**
   * In a collection of records named A, B and C, where A and B have different
   * ids, removing B by its id and adding D leaves A, C and D in that order.
   */
  method RemoveAddScenario(menu: Menu, rng: Rng)
    requires menu.Valid() && |menu.items| == 3
    requires menu.items[0].name == Str("A") && menu.items[1].name == Str("B") && menu.items[2].name == Str("C")
    requires menu.items[0].id != menu.items[1].id && menu.items[1].id != ""
    modifies menu, rng
    ensures menu.Valid() && |menu.items| == 3
    ensures menu.items[0].name == Str("A") && menu.items[1].name == Str("C") && menu.items[2].name == Str("D")
  {
    var all := menu.GetAllItems();
    assert IndexOf(all, all[1].id) == 1;
    var removed := menu.RemoveItem(Str(all[1].id));
    assert menu.items == RemoveAt(all, 1);
    var rest := menu.GetAllItems();
    assert |rest| == 2 && rest[0].name == Str("A") && rest[1].name == Str("C");

    var added := menu.AddItem(Obj(map["name" := Str("D")]), rng);
    assert menu.items == rest + [added.value];
  }
}

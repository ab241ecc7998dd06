/** The open and closed sets of the grid searches of days 18 and 20. The
    open set is a priority queue of items ordered by f, kept beside the set
    of the values it holds; the queue is held here as the sequence of its
    items, in no particular order, and popping takes an item of least f. */
module Frontier {

  datatype Item<T> = Item(value: T, g: int, f: int)

  /** The values the items carry. */
  function Values<T>(items: seq<Item<T>>): set<T>
    decreases |items|
  {
    if items == [] then {} else Values(items[..|items| - 1]) + {items[|items| - 1].value}
  }

  /** No value is carried by two items. */
  predicate Distinct<T(==)>(items: seq<Item<T>>)
    decreases |items|
  {
    items == [] ||
    (Distinct(items[..|items| - 1]) && items[|items| - 1].value !in Values(items[..|items| - 1]))
  }

  /** A value is carried exactly when some item carries it. */
  lemma {:induction false} InValues<T>(items: seq<Item<T>>, v: T)
    ensures v in Values(items) <==> exists i :: 0 <= i < |items| && items[i].value == v
    decreases |items|
  {
    if items != [] {
      var front := items[..|items| - 1];
      InValues(front, v);
      assert forall i :: 0 <= i < |front| ==> front[i] == items[i];
      if v in Values(front) {
        var i :| 0 <= i < |front| && front[i].value == v;
        assert items[i].value == v;
      }
    }
  }

  /** Item k has the least f. */
  predicate Least<T>(items: seq<Item<T>>, k: int) {
    0 <= k < |items| && forall j :: 0 <= j < |items| ==> items[k].f <= items[j].f
  }

  /** A non-empty queue has an item of least f. */
  lemma {:induction false} LeastExists<T>(items: seq<Item<T>>) returns (k: int)
    requires items != []
    ensures Least(items, k)
    decreases |items|
  {
    if |items| == 1 {
      k := 0;
    } else {
      var front := items[..|items| - 1];
      var m := LeastExists(front);
      assert forall j :: 0 <= j < |front| ==> front[j] == items[j];
      k := if items[m].f <= items[|items| - 1].f then m else |items| - 1;
    }
  }

  /** Removing the item at k from a queue without repeated values removes
      exactly its value. */
  lemma {:induction false} RemoveAt<T>(items: seq<Item<T>>, k: int)
    requires Distinct(items) && 0 <= k < |items|
    ensures Distinct(items[..k] + items[k + 1..])
    ensures Values(items[..k] + items[k + 1..]) == Values(items) - {items[k].value}
    decreases |items|
  {
    var front, last := items[..|items| - 1], items[|items| - 1];
    if k == |items| - 1 {
      assert items[..k] + items[k + 1..] == front;
    } else {
      RemoveAt(front, k);
      var rest := front[..k] + front[k + 1..];
      assert items[..k] + items[k + 1..] == rest + [last];
      assert (rest + [last])[..|rest|] == rest;
      InValues(front, items[k].value);
      assert front[k] == items[k];
    }
  }

  /** Some item carries v at a g of at most bound. */
  ghost predicate Near<T>(items: seq<Item<T>>, v: T, bound: int) {
    exists it :: it in items && it.value == v && it.g <= bound
  }

  /** An item other than the one at k is still there once that one is
      removed. */
  lemma StillQueued<T>(items: seq<Item<T>>, k: int, it: Item<T>)
    requires 0 <= k < |items| && it in items && it != items[k]
    ensures it in items[..k] + items[k + 1..]
  {
    var t :| 0 <= t < |items| && items[t] == it;
    if t < k {
      assert (items[..k] + items[k + 1..])[t] == it;
    } else {
      assert (items[..k] + items[k + 1..])[t - 1] == it;
    }
  }

  /** Every item lies on level or the next one, with f equal to g. */
  ghost predicate OnLevels<T>(items: seq<Item<T>>, level: int) {
    forall it :: it in items ==> level <= it.g <= level + 1 && it.f == it.g
  }

  /** Popping the item of least f from a queue on level and the next, and
      adding items one further than it, leaves a queue on its g and the
      next. */
  lemma Relayer<T>(items: seq<Item<T>>, level: int, k: int, added: seq<Item<T>>)
    requires OnLevels(items, level) && Least(items, k)
    requires forall it :: it in added ==> it.g == items[k].g + 1 && it.f == it.g
    ensures OnLevels(items[..k] + items[k + 1..] + added, items[k].g)
  {
    assert items[k] in items;
    var rest := items[..k] + items[k + 1..];
    forall it | it in rest + added
      ensures items[k].g <= it.g <= items[k].g + 1 && it.f == it.g
    {
      if it in rest {
        var t :| 0 <= t < |rest| && rest[t] == it;
        var u := if t < k then t else t + 1;
        assert items[u] == it;
      }
    }
  }

  /** A value queued within bound, other than the one popped, stays queued
      within bound whatever is added. */
  lemma StillNear<T>(items: seq<Item<T>>, k: int, added: seq<Item<T>>, v: T, bound: int)
    requires 0 <= k < |items| && Near(items, v, bound) && v != items[k].value
    ensures Near(items[..k] + items[k + 1..] + added, v, bound)
  {
    var it :| it in items && it.value == v && it.g <= bound;
    StillQueued(items, k, it);
    assert it in items[..k] + items[k + 1..] + added;
  }

  /** A value of a queue on level and the next is queued within level + 1. */
  lemma NearNext<T>(items: seq<Item<T>>, level: int, v: T)
    requires OnLevels(items, level) && v in Values(items)
    ensures Near(items, v, level + 1)
  {
    InValues(items, v);
    var t :| 0 <= t < |items| && items[t].value == v;
    assert items[t] in items;
  }

  /** The item of least f in a queue on levels is within any bound some
      value is queued within. */
  lemma LeastWithin<T>(items: seq<Item<T>>, level: int, k: int, v: T, bound: int)
    requires OnLevels(items, level) && Least(items, k) && Near(items, v, bound)
    ensures items[k].g <= bound
  {
    var it :| it in items && it.value == v && it.g <= bound;
    var t :| 0 <= t < |items| && items[t] == it;
    assert items[k] in items;
  }

  class OpenSet<T(==)> {
    var items: seq<Item<T>>
    var valSet: set<T>

    /** valSet holds exactly the values of the queued items, each once. */
    ghost predicate Valid()
      reads this
    {
      valSet == Values(items) && Distinct(items)
    }

    /** NewOpenSet: nothing queued. */
    constructor ()
      ensures items == [] && valSet == {} && Valid()
    {
      items, valSet := [], {};
    }

    /** Empty: no item is queued, so no value is held either. */
    function Empty(): (r: bool)
      reads this
      ensures r <==> items == []
      ensures Valid() ==> (r <==> valSet == {})
    {
      |items| == 0
    }

    /** Has: whether some queued item carries v. */
    function Has(v: T): (r: bool)
      reads this
      ensures Valid() ==> (r <==> exists i :: 0 <= i < |items| && items[i].value == v)
    {
      InValues(items, v);
      v in valSet
    }

    /** Push: queue one more item and record its value. */
    method Push(value: T, g: int, f: int)
      modifies this
      ensures items == old(items) + [Item(value, g, f)] && valSet == old(valSet) + {value}
      ensures old(Valid()) && value !in old(valSet) ==> Valid()
    {
      ghost var before := items;
      items := items + [Item(value, g, f)];
      valSet := valSet + {value};
      assert items[..|before|] == before;
    }

    /** Pop: take out an item of least f and forget its value. */
    method Pop() returns (value: T, g: int, f: int, ghost k: int)
      requires items != []
      modifies this
      ensures Least(old(items), k) && old(items)[k] == Item(value, g, f)
      ensures items == old(items)[..k] + old(items)[k + 1..]
      ensures valSet == old(valSet) - {value}
      ensures old(Valid()) ==> Valid()
    {
      ghost var _ := LeastExists(items);
      var i :| 0 <= i < |items| && Least(items, i);
      k := i;
      value, g, f := items[i].value, items[i].g, items[i].f;
      if Valid() {
        RemoveAt(items, i);
      }
      items := items[..i] + items[i + 1..];
      valSet := valSet - {value};
    }
  }

  /** One neighbour of the inner loop: queued at g unless it is closed
      or already queued. */
  method Visit<T(==)>(neighbor: T, g: int, open: OpenSet<T>, closed: set<T>) returns (ghost pushed: bool)
    requires open.Valid() && closed !! open.valSet
    modifies open
    ensures open.Valid() && closed !! open.valSet
    ensures neighbor in closed || neighbor in open.valSet
    ensures open.valSet == old(open.valSet) + {neighbor} || open.valSet == old(open.valSet)
    ensures open.items == old(open.items) + if pushed then [Item(neighbor, g, g)] else []
  {
    if neighbor in closed || open.Has(neighbor) {
      return false;
    }
    open.Push(neighbor, g, g);
    return true;
  }

  /** The inner loop of the searches: every neighbour of cur is closed or
      queued afterwards, and the items queued are those neighbours, one
      step further than cur. */
  method PushAll<T(==)>(ns: seq<T>, g: int, open: OpenSet<T>, closed: set<T>) returns (ghost added: seq<Item<T>>)
    requires open.Valid() && closed !! open.valSet
    modifies open
    ensures open.Valid() && closed !! open.valSet
    ensures open.items == old(open.items) + added
    ensures forall it :: it in added ==> it.value in ns && it == Item(it.value, g, g)
    ensures old(open.valSet) <= open.valSet
    ensures forall q :: q in ns ==> q in closed + open.valSet
  {
    added := [];
    var j := 0;
    while j < |ns|
      invariant 0 <= j <= |ns|
      invariant open.Valid() && closed !! open.valSet
      invariant open.items == old(open.items) + added
      invariant forall it :: it in added ==> it.value in ns && it == Item(it.value, g, g)
      invariant old(open.valSet) <= open.valSet
      invariant forall q :: q in ns[..j] ==> q in closed + open.valSet
    {
      ghost var pushed := Visit(ns[j], g, open, closed);
      if pushed {
        added := added + [Item(ns[j], g, g)];
      }
      assert ns[..j + 1] == ns[..j] + [ns[j]];
      j := j + 1;
    }
    assert ns[..j] == ns;
  }
}

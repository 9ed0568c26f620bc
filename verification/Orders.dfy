/** Iteration orders: Go ranges over a map in an order of its own choosing. */
module Orders {

  /** `order` lists the elements of `s`, each once. */
  ghost predicate Enumerates<T>(order: seq<T>, s: set<T>) {
    && (forall i, j | 0 <= i < j < |order| :: order[i] != order[j])
    && (forall i | 0 <= i < |order| :: order[i] in s)
    && (forall x | x in s :: x in order)
  }

  /** A loop that takes some element out of `left` extends the order by it. */
  lemma EnumeratesNext<T>(order: seq<T>, all: set<T>, left: set<T>, x: T)
    requires left <= all && x in left && Enumerates(order, all - left)
    ensures Enumerates(order + [x], all - (left - {x}))
  {
  }

  lemma EnumeratesAll<T>(order: seq<T>, all: set<T>)
    requires Enumerates(order, all - {})
    ensures Enumerates(order, all)
  {
  }

  /** Every finite set has an order, and one that ends in any of its elements. */
  lemma {:induction false} SomeOrder<T>(s: set<T>) returns (order: seq<T>)
    ensures Enumerates(order, s)
  {
    order := [];
    if s != {} {
      var x :| x in s;
      var before := SomeOrder(s - {x});
      order := before + [x];
    }
  }

  lemma OrderEndingIn<T>(s: set<T>, x: T) returns (order: seq<T>)
    requires x in s
    ensures Enumerates(order, s) && order != [] && order[|order| - 1] == x
  {
    var before := SomeOrder(s - {x});
    order := before + [x];
  }

  /** An order lists as many elements as there are. */
  lemma {:induction false} EnumerationLength<T>(order: seq<T>, s: set<T>)
    requires Enumerates(order, s)
    ensures |order| == |s|
  {
    if order == [] {
      assert s == {};
    } else {
      var n := |order| - 1;
      EnumeratesPrefix(order, s);
      EnumerationLength(order[..n], s - {order[n]});
    }
  }

  lemma EnumeratesPrefix<T>(order: seq<T>, s: set<T>)
    requires Enumerates(order, s) && order != []
    ensures Enumerates(order[..|order| - 1], s - {order[|order| - 1]})
  {
  }
}

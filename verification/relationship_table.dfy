/**
 * What the statements `update_relationship_table` issues do to the
 * `wc_product_relationships` table, kept as a sequence of edges in storage
 * order:
 *   - `DELETE ... WHERE object_id = %d AND product_id = %d` (no type);
 *   - `REPLACE` of `(type, product_id, object_id, priority)`, taken to be
 *     keyed on `(type, product_id, object_id)`: the row with that key, if
 *     any, goes and the new row is appended;
 *   - `SELECT object_id ... WHERE product_id = %d AND type = %s`.
 * The list replace is the composition of these, proved here to leave the
 * list it was given, numbered by array key, and to be idempotent.
 */
module RelationshipTable {
  import opened PhpValues
  import opened Tables

  /** The elements of a list, as a set. */
  function Elems(s: seq<int>): set<int>
  {
    set x | x in s
  }

  /** No object id occurs twice. */
  predicate Distinct(s: seq<int>)
  {
    forall i, j :: 0 <= i < j < |s| ==> s[i] != s[j]
  }

  /**
   * Whether a row-removing statement for `productId` and the object ids
   * `ids` hits `e`; `kind` is `None` for a statement that does not look at
   * the relationship type.
   */
  predicate Hits(e: Edge, kind: Option<string>, productId: int, ids: set<int>)
  {
    (kind.None? || e.kind == kind.value) && e.productId == productId && e.objectId in ids
  }

  /** The table after deleting every row `Hits` selects; the rest keep their order. */
  function Drop(es: seq<Edge>, kind: Option<string>, productId: int, ids: set<int>): (r: seq<Edge>)
    ensures |r| <= |es|
  {
    if es == [] then []
    else (if Hits(es[0], kind, productId, ids) then [] else [es[0]]) + Drop(es[1..], kind, productId, ids)
  }

  /** The rows of relationship type `kind` owned by `productId`, in storage order. */
  function EdgesOf(es: seq<Edge>, kind: string, productId: int): (r: seq<Edge>)
    ensures |r| <= |es|
  {
    if es == [] then []
    else (if es[0].kind == kind && es[0].productId == productId then [es[0]] else [])
         + EdgesOf(es[1..], kind, productId)
  }

  /** The `object_id` column of some rows. */
  function Ids(es: seq<Edge>): (r: seq<int>)
    ensures |r| == |es| && forall i :: 0 <= i < |es| ==> r[i] == es[i].objectId
  {
    seq(|es|, i requires 0 <= i < |es| => es[i].objectId)
  }

  /** `SELECT object_id ... WHERE product_id = %d AND type = %s`. */
  function ObjectIds(es: seq<Edge>, kind: string, productId: int): seq<int>
  {
    Ids(EdgesOf(es, kind, productId))
  }

  /** `REPLACE` of one edge keyed on `(type, product_id, object_id)`. */
  function Replace(es: seq<Edge>, e: Edge): seq<Edge>
  {
    Drop(es, Some(e.kind), e.productId, {e.objectId}) + [e]
  }

  /**
   * The table after the first `n` iterations of the replace loop: element
   * `L[i]` of the new list becomes an edge whose priority is its array key `i`.
   */
  function ReplacePrefix(es: seq<Edge>, kind: string, productId: int, L: seq<int>, n: nat): seq<Edge>
    requires n <= |L|
  {
    if n == 0 then es
    else Replace(ReplacePrefix(es, kind, productId, L, n - 1), Edge(kind, productId, L[n - 1], n - 1))
  }

  /** The edges a list of distinct ids should become: element `i` with priority `i`. */
  function Enumerated(kind: string, productId: int, L: seq<int>): (r: seq<Edge>)
    ensures |r| == |L|
    ensures forall i :: 0 <= i < |L| ==> r[i] == Edge(kind, productId, L[i], i)
  {
    seq(|L|, i requires 0 <= i < |L| => Edge(kind, productId, L[i], i))
  }

  /** `array_diff( stored, given )`: the elements of `stored` not in `given`, in order. */
  function ArrayDiff(stored: seq<int>, given: seq<int>): (r: seq<int>)
    ensures forall x :: x in r <==> x in stored && x !in given
  {
    if stored == [] then []
    else (if stored[0] in given then [] else [stored[0]]) + ArrayDiff(stored[1..], given)
  }

  /** The object ids the replace deletes: stored for `(kind, productId)` but not in `L`. */
  function Missing(es: seq<Edge>, kind: string, productId: int, L: seq<int>): set<int>
  {
    Elems(ArrayDiff(ObjectIds(es, kind, productId), L))
  }

  /**
   * The table after `update_relationship_table` has replaced the list of
   * `(kind, productId)` by `L`: first the missing ids are deleted for the
   * product (whatever their type), then each element is replaced in order.
   */
  function ReplaceList(es: seq<Edge>, kind: string, productId: int, L: seq<int>): seq<Edge>
  {
    ReplacePrefix(Drop(es, None, productId, Missing(es, kind, productId, L)), kind, productId, L, |L|)
  }

  // ---------------------------------------------------------------------
  // Algebra of the row filters.

  /** A delete keeps exactly the rows it does not hit. */
  lemma {:induction false} DropMembers(es: seq<Edge>, kind: Option<string>, productId: int, ids: set<int>)
    ensures forall e :: e in Drop(es, kind, productId, ids) <==> e in es && !Hits(e, kind, productId, ids)
  {
    if es != [] {
      DropMembers(es[1..], kind, productId, ids);
      assert forall e :: e in es <==> e == es[0] || e in es[1..];
    }
  }

  /** A select returns exactly the stored rows of its relationship type and product. */
  lemma {:induction false} EdgesOfMembers(es: seq<Edge>, kind: string, productId: int)
    ensures forall e :: e in EdgesOf(es, kind, productId) <==> e in es && e.kind == kind && e.productId == productId
  {
    if es != [] {
      EdgesOfMembers(es[1..], kind, productId);
      assert forall e :: e in es <==> e == es[0] || e in es[1..];
    }
  }

  lemma {:induction false} DropConcat(a: seq<Edge>, b: seq<Edge>, kind: Option<string>, productId: int, ids: set<int>)
    ensures Drop(a + b, kind, productId, ids) == Drop(a, kind, productId, ids) + Drop(b, kind, productId, ids)
  {
    if a != [] {
      assert (a + b)[0] == a[0];
      assert (a + b)[1..] == a[1..] + b;
      DropConcat(a[1..], b, kind, productId, ids);
      var head := if Hits(a[0], kind, productId, ids) then [] else [a[0]];
      calc {
        Drop(a + b, kind, productId, ids);
        head + Drop(a[1..] + b, kind, productId, ids);
        head + (Drop(a[1..], kind, productId, ids) + Drop(b, kind, productId, ids));
        (head + Drop(a[1..], kind, productId, ids)) + Drop(b, kind, productId, ids);
      }
    } else {
      assert a + b == b;
    }
  }

  /** Deleting twice with the same key shape is deleting the union once. */
  lemma {:induction false} DropTwice(a: seq<Edge>, kind: Option<string>, productId: int, ids1: set<int>, ids2: set<int>)
    ensures Drop(Drop(a, kind, productId, ids1), kind, productId, ids2) == Drop(a, kind, productId, ids1 + ids2)
  {
    if a != [] {
      DropTwice(a[1..], kind, productId, ids1, ids2);
      var head := if Hits(a[0], kind, productId, ids1) then [] else [a[0]];
      DropConcat(head, Drop(a[1..], kind, productId, ids1), kind, productId, ids2);
    }
  }

  lemma {:induction false} DropNothing(a: seq<Edge>, kind: Option<string>, productId: int, ids: set<int>)
    requires forall e :: e in a ==> !Hits(e, kind, productId, ids)
    ensures Drop(a, kind, productId, ids) == a
  {
    if a != [] {
      assert a[0] in a;
      DropNothing(a[1..], kind, productId, ids);
    }
  }

  lemma {:induction false} DropEverything(a: seq<Edge>, kind: Option<string>, productId: int, ids: set<int>)
    requires forall e :: e in a ==> Hits(e, kind, productId, ids)
    ensures Drop(a, kind, productId, ids) == []
  {
    if a != [] {
      assert a[0] in a;
      DropEverything(a[1..], kind, productId, ids);
    }
  }

  lemma {:induction false} EdgesOfConcat(a: seq<Edge>, b: seq<Edge>, kind: string, productId: int)
    ensures EdgesOf(a + b, kind, productId) == EdgesOf(a, kind, productId) + EdgesOf(b, kind, productId)
  {
    if a != [] {
      assert (a + b)[0] == a[0];
      assert (a + b)[1..] == a[1..] + b;
      EdgesOfConcat(a[1..], b, kind, productId);
      var head := if a[0].kind == kind && a[0].productId == productId then [a[0]] else [];
      calc {
        EdgesOf(a + b, kind, productId);
        head + EdgesOf(a[1..] + b, kind, productId);
        head + (EdgesOf(a[1..], kind, productId) + EdgesOf(b, kind, productId));
        (head + EdgesOf(a[1..], kind, productId)) + EdgesOf(b, kind, productId);
      }
    } else {
      assert a + b == b;
    }
  }

  /** Selecting the rows of one list and deleting rows commute. */
  lemma {:induction false} EdgesOfDrop(a: seq<Edge>, kind: string, productId: int,
                                       dropKind: Option<string>, dropProduct: int, ids: set<int>)
    ensures EdgesOf(Drop(a, dropKind, dropProduct, ids), kind, productId)
         == Drop(EdgesOf(a, kind, productId), dropKind, dropProduct, ids)
  {
    if a != [] {
      EdgesOfDrop(a[1..], kind, productId, dropKind, dropProduct, ids);
      var kept := if Hits(a[0], dropKind, dropProduct, ids) then [] else [a[0]];
      var sel := if a[0].kind == kind && a[0].productId == productId then [a[0]] else [];
      EdgesOfConcat(kept, Drop(a[1..], dropKind, dropProduct, ids), kind, productId);
      DropConcat(sel, EdgesOf(a[1..], kind, productId), dropKind, dropProduct, ids);
    }
  }

  lemma {:induction false} EdgesOfEmpty(a: seq<Edge>, kind: string, productId: int)
    requires forall e :: e in a ==> !(e.kind == kind && e.productId == productId)
    ensures EdgesOf(a, kind, productId) == []
  {
    if a != [] {
      assert a[0] in a;
      EdgesOfEmpty(a[1..], kind, productId);
    }
  }

  lemma {:induction false} EdgesOfWhole(a: seq<Edge>, kind: string, productId: int)
    requires forall e :: e in a ==> e.kind == kind && e.productId == productId
    ensures EdgesOf(a, kind, productId) == a
  {
    if a != [] {
      assert a[0] in a;
      EdgesOfWhole(a[1..], kind, productId);
    }
  }

  // ---------------------------------------------------------------------
  // The replace loop.

  /**
   * Closed form of the replace loop: every row keyed by an element already
   * replaced is gone from the old table, and the replaced edges follow it.
   */
  lemma {:induction false} ReplacePrefixSplit(es: seq<Edge>, kind: string, productId: int, L: seq<int>, n: nat)
    requires n <= |L|
    ensures ReplacePrefix(es, kind, productId, L, n)
         == Drop(es, Some(kind), productId, Elems(L[..n])) + ReplacePrefix([], kind, productId, L, n)
  {
    if n == 0 {
      assert Elems(L[..0]) == {};
      DropNothing(es, Some(kind), productId, {});
      assert es + [] == es;
    } else {
      ReplacePrefixSplit(es, kind, productId, L, n - 1);
      ReplacePrefixStep(es, kind, productId, L, n);
    }
  }

  lemma ElemsSnoc(L: seq<int>, n: nat)
    requires 0 < n <= |L|
    ensures Elems(L[..n]) == Elems(L[..n - 1]) + {L[n - 1]}
  {
    assert L[..n] == L[..n - 1] + [L[n - 1]];
  }

  /** One iteration of the closed form of `ReplacePrefixSplit`. */
  lemma ReplacePrefixStep(es: seq<Edge>, kind: string, productId: int, L: seq<int>, n: nat)
    requires 0 < n <= |L|
    requires ReplacePrefix(es, kind, productId, L, n - 1)
          == Drop(es, Some(kind), productId, Elems(L[..n - 1])) + ReplacePrefix([], kind, productId, L, n - 1)
    ensures ReplacePrefix(es, kind, productId, L, n)
         == Drop(es, Some(kind), productId, Elems(L[..n])) + ReplacePrefix([], kind, productId, L, n)
  {
    var S := Elems(L[..n - 1]);
    var x := L[n - 1];
    var T := ReplacePrefix([], kind, productId, L, n - 1);
    var e := Edge(kind, productId, x, n - 1);
    var D := Drop(es, Some(kind), productId, S);
    DropConcat(D, T, Some(kind), productId, {x});
    DropTwice(es, Some(kind), productId, S, {x});
    ElemsSnoc(L, n);
    assert ReplacePrefix(es, kind, productId, L, n) == Drop(D + T, Some(kind), productId, {x}) + [e];
    assert ReplacePrefix([], kind, productId, L, n) == Drop(T, Some(kind), productId, {x}) + [e];
  }

  /**
   * Every edge the replace loop leaves for the list belongs to
   * `(kind, productId)`, and its priority is an array key holding its object id.
   */
  lemma {:induction false} ReplacedEdgesShape(kind: string, productId: int, L: seq<int>, n: nat)
    requires n <= |L|
    ensures forall e :: e in ReplacePrefix([], kind, productId, L, n) ==>
              e.kind == kind && e.productId == productId && 0 <= e.priority < n && L[e.priority] == e.objectId
  {
    if n > 0 {
      ReplacedEdgesShape(kind, productId, L, n - 1);
      DropMembers(ReplacePrefix([], kind, productId, L, n - 1), Some(kind), productId, {L[n - 1]});
    }
  }

  /** For a list without repeats, the loop leaves exactly element `i` with priority `i`. */
  lemma {:induction false} ReplacedEdgesExact(kind: string, productId: int, L: seq<int>, n: nat)
    requires n <= |L| && Distinct(L)
    ensures ReplacePrefix([], kind, productId, L, n) == Enumerated(kind, productId, L[..n])
  {
    if n > 0 {
      ReplacedEdgesExact(kind, productId, L, n - 1);
      var T := Enumerated(kind, productId, L[..n - 1]);
      forall e | e in T
        ensures !Hits(e, Some(kind), productId, {L[n - 1]})
      {
        var i :| 0 <= i < |T| && T[i] == e;
        assert e.objectId == L[i];
      }
      DropNothing(T, Some(kind), productId, {L[n - 1]});
      assert T + [Edge(kind, productId, L[n - 1], n - 1)] == Enumerated(kind, productId, L[..n]);
    }
  }

  // ---------------------------------------------------------------------
  // The whole list replace.

  /** A stored edge of `(kind, productId)` has its object id among the selected ids. */
  lemma StoredIdSelected(es: seq<Edge>, e: Edge)
    requires e in es
    ensures e.objectId in ObjectIds(es, e.kind, e.productId)
  {
    var sel := EdgesOf(es, e.kind, e.productId);
    EdgesOfMembers(es, e.kind, e.productId);
    assert e in sel;
    var i :| 0 <= i < |sel| && sel[i] == e;
    assert Ids(sel)[i] == e.objectId;
  }

  /**
   * After the replace the table is: the old rows minus the missing ids of
   * the product (any type) and minus the old rows of the new ids, then the
   * new list's edges.
   */
  lemma ReplaceListSplit(es: seq<Edge>, kind: string, productId: int, L: seq<int>)
    ensures ReplaceList(es, kind, productId, L)
         == Drop(Drop(es, None, productId, Missing(es, kind, productId, L)), Some(kind), productId, Elems(L))
            + ReplacePrefix([], kind, productId, L, |L|)
  {
    assert L[..|L|] == L;
    ReplacePrefixSplit(Drop(es, None, productId, Missing(es, kind, productId, L)), kind, productId, L, |L|);
  }

  /** The kept part of the old table holds no edge of `(kind, productId)` any more. */
  lemma {:induction false} NoOldEdgesRemain(es: seq<Edge>, kind: string, productId: int, L: seq<int>)
    ensures forall e :: e in Drop(Drop(es, None, productId, Missing(es, kind, productId, L)), Some(kind), productId, Elems(L))
              ==> !(e.kind == kind && e.productId == productId)
  {
    var M := Missing(es, kind, productId, L);
    DropMembers(es, None, productId, M);
    DropMembers(Drop(es, None, productId, M), Some(kind), productId, Elems(L));
    forall e | e in Drop(Drop(es, None, productId, M), Some(kind), productId, Elems(L))
      ensures !(e.kind == kind && e.productId == productId)
    {
      if e.kind == kind && e.productId == productId {
        StoredIdSelected(es, e);
      }
    }
  }

  /**
   * Reading the list back after a replace by a list without repeats gives
   * exactly that list, element `i` with priority `i` (0-based, the array key).
   */
  lemma ReplaceListReadBack(es: seq<Edge>, kind: string, productId: int, L: seq<int>)
    requires Distinct(L)
    ensures EdgesOf(ReplaceList(es, kind, productId, L), kind, productId) == Enumerated(kind, productId, L)
    ensures ObjectIds(ReplaceList(es, kind, productId, L), kind, productId) == L
  {
    var S := ReplaceList(es, kind, productId, L);
    ReplaceListOwnEdges(es, kind, productId, L);
    ReplacedEdgesExact(kind, productId, L, |L|);
    assert L[..|L|] == L;
    var E := Enumerated(kind, productId, L);
    assert EdgesOf(S, kind, productId) == E;
    assert Ids(E) == L;
  }

  /** The lists of every other product are left exactly as they were. */
  lemma ReplaceListOtherProducts(es: seq<Edge>, kind: string, productId: int, L: seq<int>,
                                 otherKind: string, otherProduct: int)
    requires otherProduct != productId
    ensures EdgesOf(ReplaceList(es, kind, productId, L), otherKind, otherProduct) == EdgesOf(es, otherKind, otherProduct)
  {
    var M := Missing(es, kind, productId, L);
    var D1 := Drop(es, None, productId, M);
    var D := Drop(D1, Some(kind), productId, Elems(L));
    var T := ReplacePrefix([], kind, productId, L, |L|);
    ReplaceListSplit(es, kind, productId, L);
    EdgesOfConcat(D, T, otherKind, otherProduct);
    ReplacedEdgesShape(kind, productId, L, |L|);
    EdgesOfEmpty(T, otherKind, otherProduct);
    EdgesOfDrop(D1, otherKind, otherProduct, Some(kind), productId, Elems(L));
    EdgesOfMembers(D1, otherKind, otherProduct);
    DropNothing(EdgesOf(D1, otherKind, otherProduct), Some(kind), productId, Elems(L));
    EdgesOfDrop(es, otherKind, otherProduct, None, productId, M);
    EdgesOfMembers(es, otherKind, otherProduct);
    DropNothing(EdgesOf(es, otherKind, otherProduct), None, productId, M);
  }

  /**
   * The same product's lists of other relationship types lose every edge
   * whose object id was missing from the new list: the delete does not
   * filter on type.
   */
  lemma ReplaceListOtherKinds(es: seq<Edge>, kind: string, productId: int, L: seq<int>, otherKind: string)
    requires otherKind != kind
    ensures EdgesOf(ReplaceList(es, kind, productId, L), otherKind, productId)
         == Drop(EdgesOf(es, otherKind, productId), None, productId, Missing(es, kind, productId, L))
  {
    var M := Missing(es, kind, productId, L);
    var D1 := Drop(es, None, productId, M);
    var D := Drop(D1, Some(kind), productId, Elems(L));
    var T := ReplacePrefix([], kind, productId, L, |L|);
    ReplaceListSplit(es, kind, productId, L);
    EdgesOfConcat(D, T, otherKind, productId);
    ReplacedEdgesShape(kind, productId, L, |L|);
    EdgesOfEmpty(T, otherKind, productId);
    EdgesOfDrop(D1, otherKind, productId, Some(kind), productId, Elems(L));
    EdgesOfMembers(D1, otherKind, productId);
    DropNothing(EdgesOf(D1, otherKind, productId), Some(kind), productId, Elems(L));
    EdgesOfDrop(es, otherKind, productId, None, productId, M);
  }

  /** After a replace, the edges of `(kind, productId)` are exactly the ones the loop wrote. */
  lemma ReplaceListOwnEdges(es: seq<Edge>, kind: string, productId: int, L: seq<int>)
    ensures EdgesOf(ReplaceList(es, kind, productId, L), kind, productId) == ReplacePrefix([], kind, productId, L, |L|)
  {
    var D := Drop(Drop(es, None, productId, Missing(es, kind, productId, L)), Some(kind), productId, Elems(L));
    var T := ReplacePrefix([], kind, productId, L, |L|);
    ReplaceListSplit(es, kind, productId, L);
    EdgesOfConcat(D, T, kind, productId);
    NoOldEdgesRemain(es, kind, productId, L);
    EdgesOfEmpty(D, kind, productId);
    ReplacedEdgesShape(kind, productId, L, |L|);
    EdgesOfWhole(T, kind, productId);
  }

  /** A second replace by the same list finds no stored id missing from it. */
  lemma ReplaceListNothingMissing(es: seq<Edge>, kind: string, productId: int, L: seq<int>)
    ensures Missing(ReplaceList(es, kind, productId, L), kind, productId, L) == {}
  {
    var S1 := ReplaceList(es, kind, productId, L);
    var T := ReplacePrefix([], kind, productId, L, |L|);
    ReplaceListOwnEdges(es, kind, productId, L);
    ReplacedEdgesShape(kind, productId, L, |L|);

  }

  /** When nothing is missing, the replace is just the replace loop. */
  lemma ReplaceListNothingToDelete(es: seq<Edge>, kind: string, productId: int, L: seq<int>)
    requires Missing(es, kind, productId, L) == {}
    ensures ReplaceList(es, kind, productId, L) == ReplacePrefix(es, kind, productId, L, |L|)
  {
    DropNothing(es, None, productId, {});
  }

  /** The replace loop leaves a table that already ends in its output unchanged. */
  lemma ReplacePrefixStable(D: seq<Edge>, kind: string, productId: int, L: seq<int>)
    requires forall e :: e in D ==> !Hits(e, Some(kind), productId, Elems(L))
    ensures ReplacePrefix(D + ReplacePrefix([], kind, productId, L, |L|), kind, productId, L, |L|)
         == D + ReplacePrefix([], kind, productId, L, |L|)
  {
    var T := ReplacePrefix([], kind, productId, L, |L|);
    var ids := Elems(L);
    assert ReplacePrefix(D + T, kind, productId, L, |L|) == Drop(D + T, Some(kind), productId, ids) + T by {
      ReplacePrefixSplit(D + T, kind, productId, L, |L|);
      assert L[..|L|] == L;
    }
    assert Drop(D, Some(kind), productId, ids) == D by {
      DropNothing(D, Some(kind), productId, ids);
    }
    DropReplaced(kind, productId, L);
    DropConcat(D, T, Some(kind), productId, ids);
  }

  /** Deleting the listed ids removes every edge the replace loop wrote. */
  lemma DropReplaced(kind: string, productId: int, L: seq<int>)
    ensures Drop(ReplacePrefix([], kind, productId, L, |L|), Some(kind), productId, Elems(L)) == []
  {
    ReplacedEdgesShape(kind, productId, L, |L|);
    DropEverything(ReplacePrefix([], kind, productId, L, |L|), Some(kind), productId, Elems(L));
  }

  /** Replacing a list by the same list a second time changes nothing. */
  lemma ReplaceListIdempotent(es: seq<Edge>, kind: string, productId: int, L: seq<int>)
    ensures ReplaceList(ReplaceList(es, kind, productId, L), kind, productId, L) == ReplaceList(es, kind, productId, L)
  {
    var D := Drop(Drop(es, None, productId, Missing(es, kind, productId, L)), Some(kind), productId, Elems(L));
    var S1 := ReplaceList(es, kind, productId, L);
    ReplaceListSplit(es, kind, productId, L);
    ReplaceListNothingMissing(es, kind, productId, L);
    ReplaceListNothingToDelete(S1, kind, productId, L);
    DropMembers(Drop(es, None, productId, Missing(es, kind, productId, L)), Some(kind), productId, Elems(L));
    ReplacePrefixStable(D, kind, productId, L);
  }

  /**
   * Emptying a product's upsell list also deletes its cross-sell edge to
   * the same object.
   */
  lemma ReplaceListDeletesAcrossTypes()
    ensures ReplaceList([Edge("crosssell", 7, 9, 0), Edge("upsell", 7, 9, 0)], "upsell", 7, []) == []
  {
    var es := [Edge("crosssell", 7, 9, 0), Edge("upsell", 7, 9, 0)];
    assert EdgesOf(es, "upsell", 7) == [Edge("upsell", 7, 9, 0)] by {
      assert es[1..][1..] == [];
    }
    assert ObjectIds(es, "upsell", 7) == [9];
    assert ArrayDiff([9], []) == [9];
    assert Missing(es, "upsell", 7, []) == {9};
    DropEverything(es, None, 7, {9});
  }

  // ---------------------------------------------------------------------
  // The migration's inserts.

  /** The edges a migrated list becomes: element `i` with the 1-based priority `i + 1`. */
  function Prioritised(kind: string, productId: int, L: seq<int>): (r: seq<Edge>)
    ensures |r| == |L|
    ensures forall i :: 0 <= i < |L| ==> r[i] == Edge(kind, productId, L[i], i + 1)
  {
    seq(|L|, i requires 0 <= i < |L| => Edge(kind, productId, L[i], i + 1))
  }

  /**
   * `INSERT` of one edge: the table keeps one row per
   * `(type, product_id, object_id)`, so a row with a key already stored is
   * rejected and the table is left as it was.
   */
  function InsertEdge(es: seq<Edge>, e: Edge): seq<Edge>
  {
    if e.objectId in ObjectIds(es, e.kind, e.productId) then es else es + [e]
  }

  /** A run of `INSERT` statements, in order. */
  function InsertEdges(es: seq<Edge>, added: seq<Edge>): seq<Edge>
  {
    if added == [] then es
    else InsertEdge(InsertEdges(es, added[..|added| - 1]), added[|added| - 1])
  }

  lemma IdsConcat(a: seq<Edge>, b: seq<Edge>)
    ensures Ids(a + b) == Ids(a) + Ids(b)
  {
  }

  /** Numbering a longer list extends the numbering of its prefix by one edge. */
  lemma PrioritisedSnoc(kind: string, productId: int, L: seq<int>, x: int)
    ensures Prioritised(kind, productId, L + [x])
         == Prioritised(kind, productId, L) + [Edge(kind, productId, x, |L| + 1)]
  {
  }

  /** The numbered list reads back, in order, as the list it numbers. */
  lemma PrioritisedReadBack(es: seq<Edge>, kind: string, productId: int, L: seq<int>)
    ensures ObjectIds(es + Prioritised(kind, productId, L), kind, productId) == ObjectIds(es, kind, productId) + L
  {
    var P := Prioritised(kind, productId, L);
    EdgesOfConcat(es, P, kind, productId);
    EdgesOfWhole(P, kind, productId);
    IdsConcat(EdgesOf(es, kind, productId), P);
  }

  lemma InsertEdgesSnoc(es: seq<Edge>, added: seq<Edge>, e: Edge)
    ensures InsertEdges(es, added + [e]) == InsertEdge(InsertEdges(es, added), e)
  {
    assert (added + [e])[..|added|] == added;
  }

  /**
   * Inserting a numbered list of distinct ids none of which is stored yet
   * for the same type and product rejects nothing: the edges are appended.
   */
  lemma {:induction false} InsertPrioritisedFresh(es: seq<Edge>, kind: string, productId: int, L: seq<int>)
    requires Distinct(L)
    requires forall x :: x in L ==> x !in ObjectIds(es, kind, productId)
    ensures InsertEdges(es, Prioritised(kind, productId, L)) == es + Prioritised(kind, productId, L)
  {
    if L != [] {
      var n := |L| - 1;
      var front := Prioritised(kind, productId, L[..n]);
      var last := Edge(kind, productId, L[n], n + 1);
      assert L[..n] + [L[n]] == L;
      PrioritisedSnoc(kind, productId, L[..n], L[n]);
      InsertEdgesSnoc(es, front, last);
      InsertPrioritisedFresh(es, kind, productId, L[..n]);
      PrioritisedReadBack(es, kind, productId, L[..n]);
      assert L[n] !in ObjectIds(es, kind, productId) + L[..n] by {
        assert L[n] in L;
      }
    }
  }

  /** Inserting never changes or removes a stored edge, and adds only edges of the run. */
  lemma {:induction false} InsertEdgesExtends(es: seq<Edge>, added: seq<Edge>)
    ensures es <= InsertEdges(es, added)
    ensures forall e :: e in InsertEdges(es, added) ==> e in es || e in added
  {
    if added != [] {
      var n := |added| - 1;
      InsertEdgesExtends(es, added[..n]);
      assert forall e :: e in added[..n] ==> e in added;
    }
  }
}

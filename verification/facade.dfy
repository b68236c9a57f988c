/**
 * The metadata facade (`WC_Product_Tables_Backwards_Compatibility`): the
 * host's get/add/update/delete filters for post metadata, redirected for
 * the virtualised keys to the `wc_products` columns and to the
 * relationship table.
 *
 * The read side is pure: `ColumnRead`, `RelationshipRead` and `GetMetadata`
 * are functions of a `Tables` snapshot. The write adapters change the
 * store, and are methods of `ProductTablesCompatibility` proved against the
 * specification functions `ColumnWrite` and `RelationshipWrite`.
 */
module Facade {
  import opened PhpValues
  import opened Tables
  import opened RelationshipTable
  import opened Registry

  /** A filter's answer: hand the host's own `result` back, or replace it. */
  datatype Filtered<R, T> = PassThrough(result: R) | Handled(value: T)

  /** What a get returns: one value for a single read, else the list of rows. */
  datatype MetaRead = Single(value: Value) | Multiple(values: seq<Value>)

  /** The rows of a relationship read, one object id each. */
  function AsValues(ids: seq<int>): (vs: seq<Value>)
    ensures |vs| == |ids| && forall i :: 0 <= i < |ids| ==> vs[i] == Int(ids[i])
  {
    seq(|ids|, i requires 0 <= i < |ids| => Int(ids[i]))
  }

  /** The adapters' guard: an empty column or type, or product id 0, aborts. */
  predicate ArgsValid(name: string, productId: int)
  {
    Truthy(Str(name)) && productId != 0
  }

  // ---------------------------------------------------------------------
  // Column adapter.

  /**
   * `get_from_product_table` as intended: the column of the product's row,
   * as a list of at most one row, empty when the guard fails or there is
   * no row.
   */
  function ColumnRead(products: map<int, Row>, column: string, productId: int): (r: seq<Value>)
    ensures |r| <= 1
    ensures r != [] <==> ArgsValid(column, productId) && productId in products
    ensures r != [] ==> r[0] == Lookup(products[productId], column, Null)
  {
    if ArgsValid(column, productId) && productId in products then [Lookup(products[productId], column, Null)]
    else []
  }

  /**
   * `get_from_product_table` as written: `prepare` quotes the column name
   * into the select list, so each matched row yields the name itself.
   */
  function ColumnReadAsWritten(products: map<int, Row>, column: string, productId: int): (r: seq<Value>)
    ensures |r| == |ColumnRead(products, column, productId)|
    ensures forall i :: 0 <= i < |r| ==> r[i] == Str(column)
  {
    if ArgsValid(column, productId) && productId in products then [Str(column)] else []
  }

  /**
   * `update_in_product_table`: the product's row gets `value` in `column`;
   * no row is created. The result is the number of rows the update
   * changed, as a boolean, so it is false when the row is missing and
   * also when the column already held `value`.
   */
  function ColumnWrite(products: map<int, Row>, column: string, productId: int, value: Value): (r: (bool, map<int, Row>))
    ensures r.0 <==> ArgsValid(column, productId) && productId in products
                     && Lookup(products[productId], column, Null) != value
    ensures r.1.Keys == products.Keys
    ensures forall q :: q in products && q != productId ==> r.1[q] == products[q]
    ensures !(ArgsValid(column, productId) && productId in products) ==> r.1 == products
    ensures ArgsValid(column, productId) && productId in products ==>
              r.1[productId] == products[productId][column := value]
  {
    if !ArgsValid(column, productId) || productId !in products then (false, products)
    else
      var row := products[productId];
      (Lookup(row, column, Null) != value, products[productId := row[column := value]])
  }

  // ---------------------------------------------------------------------
  // Relationship adapter.

  /**
   * `get_from_relationship_table`: the object ids of the product's edges of
   * this type, in storage order (the query has no `ORDER BY`).
   */
  function RelationshipRead(edges: seq<Edge>, kind: string, productId: int): (r: seq<Value>)
    ensures !ArgsValid(kind, productId) ==> r == []
    ensures |r| <= |edges|
    ensures forall v :: v in r ==> exists e :: e in edges && e.kind == kind && e.productId == productId
                                              && v == Int(e.objectId)
  {
    if !ArgsValid(kind, productId) then []
    else
      var sel := EdgesOf(edges, kind, productId);
      EdgesOfMembers(edges, kind, productId);
      var r := AsValues(Ids(sel));
      assert forall i :: 0 <= i < |r| ==> sel[i] in edges && r[i] == Int(sel[i].objectId);
      r
  }

  /**
   * `update_relationship_table`: a non-list value or a failed guard changes
   * nothing and returns false; otherwise the list is replaced and the
   * result is true.
   */
  function RelationshipWrite(edges: seq<Edge>, kind: string, productId: int, value: Value): (r: (bool, seq<Edge>))
    ensures r.0 <==> ArgsValid(kind, productId) && value.List?
    ensures !r.0 ==> r.1 == edges
    ensures r.0 ==> r.1 == ReplaceList(edges, kind, productId, value.ids)
  {
    if !ArgsValid(kind, productId) || !value.List? then (false, edges)
    else (true, ReplaceList(edges, kind, productId, value.ids))
  }

  // ---------------------------------------------------------------------
  // Dispatch (`call_user_func` on the registry entry).

  /** The get entry applied to the product. */
  function Read(g: Getter, productId: int, t: Tables): seq<Value>
  {
    match g
    case ReadProductColumn(column) => ColumnRead(t.products, column, productId)
    case ReadRelationships(kind) => RelationshipRead(t.relationships, kind, productId)
  }

  /**
   * The value a write entry passes: the caller's value when add or update
   * binds one, else the entry's configured value, else the adapter's
   * default (`''` for a column, `array()` for a relationship).
   */
  function BoundValue(s: Setter, bound: Option<Value>): Value
  {
    match bound
    case Some(v) => v
    case None =>
      match s
      case WriteProductColumn(_, _, configured) => configured.GetOr(Str(""))
      case WriteRelationships(_, configured) => configured.GetOr(List([]))
  }

  /** The write entry applied to the product: its boolean result and the new tables. */
  function Write(s: Setter, productId: int, bound: Option<Value>, t: Tables): (r: (bool, Tables))
    ensures s.WriteProductColumn? ==> r.1.relationships == t.relationships
    ensures s.WriteRelationships? ==> r.1.products == t.products
  {
    match s
    case WriteProductColumn(column, _, _) =>
      var (ok, products) := ColumnWrite(t.products, column, productId, BoundValue(s, bound));
      (ok, t.(products := products))
    case WriteRelationships(kind, _) =>
      var (ok, relationships) := RelationshipWrite(t.relationships, kind, productId, BoundValue(s, bound));
      (ok, t.(relationships := relationships))
  }

  // ---------------------------------------------------------------------
  // The get filter.

  /**
   * `get_metadata_from_tables`: an unmapped key passes the host's result
   * through; a mapped key answers a single read with the first row, or
   * `''` when there is none, and any other read with the list of rows.
   */
  function GetMetadata<R>(result: R, postId: int, metaKey: string, single: bool, t: Tables): (r: Filtered<R, MetaRead>)
    ensures GetMapping(metaKey).None? ==> r == PassThrough(result)
    ensures GetMapping(metaKey).Some? ==> r.Handled? && (r.value.Single? <==> single)
  {
    match GetMapping(metaKey)
    case None => PassThrough(result)
    case Some(m) =>
      var rows := Read(m.get, postId, t);
      if single && rows != [] then Handled(Single(rows[0]))
      else if single then Handled(Single(Str("")))
      else Handled(Multiple(rows))
  }

  /** PHP truthiness of what the get filter returns (`if ( $existing )`). */
  predicate Present(r: Filtered<Value, MetaRead>)
  {
    match r
    case PassThrough(v) => Truthy(v)
    case Handled(Single(v)) => Truthy(v)
    case Handled(Multiple(vs)) => vs != []
  }

  /** A single read is the first row of the list read, or `''` for an empty list. */
  lemma SingleReadIsFirstRow<R>(result: R, postId: int, metaKey: string, t: Tables)
    requires GetMapping(metaKey).Some?
    ensures var all := GetMetadata(result, postId, metaKey, false, t).value.values;
            GetMetadata(result, postId, metaKey, true, t)
              == Handled(Single(if all == [] then Str("") else all[0]))
  {
  }

  // ---------------------------------------------------------------------
  // The facade object.

  class ProductTablesCompatibility {
    const db: Database
    /** Whether the four metadata filters were registered with the host. */
    const registered: bool

    /** The filters are registered unless a migration is in progress. */
    constructor (db: Database, migrating: bool)
      ensures this.db == db && registered == !migrating
    {
      this.db := db;
      registered := !migrating;
    }

    /** `update_in_product_table`, against its specification `ColumnWrite`. */
    method UpdateInProductTable(column: string, productId: int, format: string, value: Value) returns (ok: bool)
      modifies db`products
      ensures (ok, db.products) == ColumnWrite(old(db.products), column, productId, value)
    {
      if !Truthy(Str(column)) || productId == 0 {
        return false;
      }
      if productId !in db.products {
        return false;
      }
      var row := db.products[productId];
      ok := Lookup(row, column, Null) != value;
      db.products := db.products[productId := row[column := value]];
    }

    /**
     * `update_relationship_table`, against its specification
     * `RelationshipWrite`: first delete, one statement per id, every
     * stored id missing from the new list (whatever the edge type), then
     * replace the edges of the new list one by one with priority = index.
     */
    method UpdateRelationshipTable(kind: string, productId: int, value: Value) returns (ok: bool)
      modifies db`relationships
      ensures (ok, db.relationships) == RelationshipWrite(old(db.relationships), kind, productId, value)
    {
      if !Truthy(Str(kind)) || productId == 0 || !value.List? {
        return false;
      }
      var newValues := value.ids;
      var oldValues := ObjectIds(db.relationships, kind, productId);
      var missing := ArrayDiff(oldValues, newValues);
      ghost var start := db.relationships;
      assert Elems(missing[..0]) == {};
      DropNothing(start, None, productId, {});

      var i := 0;
      while i < |missing|
        invariant 0 <= i <= |missing|
        invariant db.relationships == Drop(start, None, productId, Elems(missing[..i]))
      {
        DropTwice(start, None, productId, Elems(missing[..i]), {missing[i]});
        ElemsSnoc(missing, i + 1);
        db.relationships := Drop(db.relationships, None, productId, {missing[i]});
        i := i + 1;
      }
      assert missing[..|missing|] == missing;
      ghost var cleared := db.relationships;

      var k := 0;
      while k < |newValues|
        invariant 0 <= k <= |newValues|
        invariant db.relationships == ReplacePrefix(cleared, kind, productId, newValues, k)
      {
        db.relationships := Replace(db.relationships, Edge(kind, productId, newValues[k], k));
        k := k + 1;
      }
      return true;
    }

    /** `call_user_func` on a write entry. */
    method CallSetter(s: Setter, productId: int, bound: Option<Value>) returns (ok: bool)
      modifies db`products, db`relationships
      ensures (ok, db.View()) == Write(s, productId, bound, old(db.View()))
    {
      match s
      case WriteProductColumn(column, format, _) =>
        ok := UpdateInProductTable(column, productId, format, BoundValue(s, bound));
      case WriteRelationships(kind, _) =>
        ok := UpdateRelationshipTable(kind, productId, BoundValue(s, bound));
    }

    /**
     * `add_metadata_to_tables`: an unmapped key passes through; a unique add
     * of a key the get filter reports present fails without writing;
     * otherwise the add entry writes the value.
     */
    method AddMetadataToTables<R>(result: R, postId: int, metaKey: string, metaValue: Value, unique: bool)
      returns (r: Filtered<R, bool>)
      modifies db`products, db`relationships
      ensures GetMapping(metaKey).None? ==> r == PassThrough(result) && db.View() == old(db.View())
      ensures GetMapping(metaKey).Some? && unique && Present(old(GetMetadata(Null, postId, metaKey, false, db.View())))
              ==> r == Handled(false) && db.View() == old(db.View())
      ensures GetMapping(metaKey).Some? && !(unique && Present(old(GetMetadata(Null, postId, metaKey, false, db.View()))))
              ==> r.Handled?
                  && (r.value, db.View()) == Write(GetMapping(metaKey).value.add, postId, Some(metaValue), old(db.View()))
    {
      var mapping := GetMapping(metaKey);
      if mapping.None? {
        return PassThrough(result);
      }
      if unique {
        var existing := GetMetadata(Null, postId, metaKey, false, db.View());
        if Present(existing) {
          return Handled(false);
        }
      }
      var ok := CallSetter(mapping.value.add, postId, Some(metaValue));
      return Handled(ok);
    }

    /**
     * `update_metadata_in_tables`: an unmapped key passes through; otherwise
     * the update entry writes the value. The previous value is not consulted.
     */
    method UpdateMetadataInTables<R>(result: R, postId: int, metaKey: string, metaValue: Value, prevValue: Value)
      returns (r: Filtered<R, bool>)
      modifies db`products, db`relationships
      ensures GetMapping(metaKey).None? ==> r == PassThrough(result) && db.View() == old(db.View())
      ensures GetMapping(metaKey).Some? ==>
                r.Handled?
                && (r.value, db.View()) == Write(GetMapping(metaKey).value.update, postId, Some(metaValue), old(db.View()))
    {
      var mapping := GetMapping(metaKey);
      if mapping.None? {
        return PassThrough(result);
      }
      var ok := CallSetter(mapping.value.update, postId, Some(metaValue));
      return Handled(ok);
    }

    /**
     * `delete_metadata_from_tables`: an unmapped key passes through;
     * otherwise the delete entry writes its configured value. Neither the
     * value to delete nor `delete_all` is consulted.
     */
    method DeleteMetadataFromTables<R>(result: R, postId: int, metaKey: string, metaValue: Value, deleteAll: bool)
      returns (r: Filtered<R, bool>)
      modifies db`products, db`relationships
      ensures GetMapping(metaKey).None? ==> r == PassThrough(result) && db.View() == old(db.View())
      ensures GetMapping(metaKey).Some? ==>
                r.Handled?
                && (r.value, db.View()) == Write(GetMapping(metaKey).value.delete, postId, None, old(db.View()))
    {
      var mapping := GetMapping(metaKey);
      if mapping.None? {
        return PassThrough(result);
      }
      var ok := CallSetter(mapping.value.delete, postId, None);
      return Handled(ok);
    }

    /**
     * The host's `get_post_metadata` filter chain as far as this object
     * takes part: without registration the host's result is untouched.
     */
    function GetPostMetadata<R>(result: R, postId: int, metaKey: string, single: bool): (r: Filtered<R, MetaRead>)
      reads this, db
      ensures !registered ==> r == PassThrough(result)
      ensures registered && GetMapping(metaKey).Some? ==> r.Handled? && (r.value.Single? <==> single)
    {
      if registered then GetMetadata(result, postId, metaKey, single, db.View()) else PassThrough(result)
    }

    /** The host's `update_post_metadata` filter chain: without registration nothing is written here. */
    method UpdatePostMetadata<R>(result: R, postId: int, metaKey: string, metaValue: Value, prevValue: Value)
      returns (r: Filtered<R, bool>)
      modifies db`products, db`relationships
      ensures !registered ==> r == PassThrough(result) && db.View() == old(db.View())
      ensures registered && GetMapping(metaKey).None? ==> r == PassThrough(result) && db.View() == old(db.View())
      ensures registered && GetMapping(metaKey).Some? ==>
                r.Handled?
                && (r.value, db.View()) == Write(GetMapping(metaKey).value.update, postId, Some(metaValue), old(db.View()))
    {
      if !registered {
        return PassThrough(result);
      }
      r := UpdateMetadataInTables(result, postId, metaKey, metaValue, prevValue);
    }

    /** The host's `add_post_metadata` filter chain: without registration nothing is written here. */
    method AddPostMetadata<R>(result: R, postId: int, metaKey: string, metaValue: Value, unique: bool)
      returns (r: Filtered<R, bool>)
      modifies db`products, db`relationships
      ensures !registered ==> r == PassThrough(result) && db.View() == old(db.View())
      ensures registered && GetMapping(metaKey).None? ==> r == PassThrough(result) && db.View() == old(db.View())
      ensures registered && GetMapping(metaKey).Some? && unique
              && Present(old(GetMetadata(Null, postId, metaKey, false, db.View())))
              ==> r == Handled(false) && db.View() == old(db.View())
      ensures registered && GetMapping(metaKey).Some?
              && !(unique && Present(old(GetMetadata(Null, postId, metaKey, false, db.View()))))
              ==> r.Handled?
                  && (r.value, db.View()) == Write(GetMapping(metaKey).value.add, postId, Some(metaValue), old(db.View()))
    {
      if !registered {
        return PassThrough(result);
      }
      r := AddMetadataToTables(result, postId, metaKey, metaValue, unique);
    }

    /** The host's `delete_post_metadata` filter chain: without registration nothing is written here. */
    method DeletePostMetadata<R>(result: R, postId: int, metaKey: string, metaValue: Value, deleteAll: bool)
      returns (r: Filtered<R, bool>)
      modifies db`products, db`relationships
      ensures !registered ==> r == PassThrough(result) && db.View() == old(db.View())
      ensures registered && GetMapping(metaKey).None? ==> r == PassThrough(result) && db.View() == old(db.View())
      ensures registered && GetMapping(metaKey).Some? ==>
                r.Handled?
                && (r.value, db.View()) == Write(GetMapping(metaKey).value.delete, postId, None, old(db.View()))
    {
      if !registered {
        return PassThrough(result);
      }
      r := DeleteMetadataFromTables(result, postId, metaKey, metaValue, deleteAll);
    }
  }

  // ---------------------------------------------------------------------
  // Properties of the facade.

  /**
   * Column round trip: once the product has a row, a value added (or
   * updated) under a column key is what a single get returns.
   */
  lemma ColumnRoundTrip(metaKey: string, postId: int, v: Value, t: Tables)
    requires IsColumnKey(metaKey) && postId != 0 && postId in t.products
    ensures var m := GetMapping(metaKey).value;
            && GetMetadata(Null, postId, metaKey, true, Write(m.add, postId, Some(v), t).1) == Handled(Single(v))
            && GetMetadata(Null, postId, metaKey, true, Write(m.update, postId, Some(v), t).1) == Handled(Single(v))
  {
  }

  /** Without a row, a column write changes nothing and fails, and a get finds nothing. */
  lemma ColumnWriteNeedsRow(metaKey: string, postId: int, v: Value, t: Tables)
    requires IsColumnKey(metaKey) && postId !in t.products
    ensures var m := GetMapping(metaKey).value;
            Write(m.add, postId, Some(v), t) == (false, t)
    ensures GetMetadata(Null, postId, metaKey, false, t) == Handled(Multiple([]))
    ensures GetMetadata(Null, postId, metaKey, true, t) == Handled(Single(Str("")))
  {
  }

  /**
   * The update result counts changed rows: writing the value the column
   * already holds reports failure although the row exists.
   */
  lemma RewriteReportsFailure(metaKey: string, postId: int, v: Value, t: Tables)
    requires IsColumnKey(metaKey) && postId != 0 && postId in t.products
    ensures var m := GetMapping(metaKey).value;
            var t1 := Write(m.update, postId, Some(v), t).1;
            Write(m.update, postId, Some(v), t1) == (false, t1)
  {
    var column := GetMapping(metaKey).value.update.column;
    var t1 := Write(GetMapping(metaKey).value.update, postId, Some(v), t).1;
    var row := t1.products[postId];
    assert row[column] == v;
    assert row[column := v] == row;
    assert t1.products[postId := row] == t1.products;
  }

  /**
   * Once the product has a row, a unique add of any column key fails: the
   * existence check sees the row even when the column holds nothing.
   */
  lemma UniqueAddSeesRow(metaKey: string, postId: int, t: Tables)
    requires IsColumnKey(metaKey) && postId != 0 && postId in t.products
    ensures Present(GetMetadata(Null, postId, metaKey, false, t))
  {
  }

  /**
   * A column write touches one cell: every other key of the same product,
   * and every key of every other product, reads as before.
   */
  lemma ColumnWriteFrame(metaKey: string, postId: int, v: Option<Value>, t: Tables,
                         otherKey: string, otherPost: int, single: bool)
    requires IsColumnKey(metaKey) && GetMapping(otherKey).Some?
    requires otherPost != postId || GetMapping(otherKey).value.get != GetMapping(metaKey).value.get
    ensures var m := GetMapping(metaKey).value;
            forall s :: s in {m.add, m.update, m.delete} ==>
              GetMetadata(Null, otherPost, otherKey, single, Write(s, postId, v, t).1)
                == GetMetadata(Null, otherPost, otherKey, single, t)
  {
  }

  /** Delete of a column key leaves the configured default in the column. */
  lemma DeleteWritesDefault(metaKey: string, postId: int, t: Tables)
    requires IsColumnKey(metaKey) && postId != 0 && postId in t.products
    ensures var m := GetMapping(metaKey).value;
            GetMetadata(Null, postId, metaKey, true, Write(m.delete, postId, None, t).1)
              == Handled(Single(m.delete.value.value))
  {
  }

  /** For instance: a deleted tax status reads back "taxable", a deleted stock status "instock". */
  lemma DeleteDefaultExamples(postId: int, t: Tables)
    requires postId != 0 && postId in t.products
    ensures GetMetadata(Null, postId, "_tax_status", true,
                        Write(GetMapping("_tax_status").value.delete, postId, None, t).1)
              == Handled(Single(Str("taxable")))
    ensures GetMetadata(Null, postId, "_stock_status", true,
                        Write(GetMapping("_stock_status").value.delete, postId, None, t).1)
              == Handled(Single(Str("instock")))
    ensures GetMetadata(Null, postId, "total_sales", true,
                        Write(GetMapping("total_sales").value.delete, postId, None, t).1)
              == Handled(Single(Int(0)))
  {
    DeleteWritesDefault("_tax_status", postId, t);
    DeleteWritesDefault("_stock_status", postId, t);
    DeleteWritesDefault("total_sales", postId, t);
  }

  /** A relationship read returns the stored object ids of the product's edges of the type. */
  lemma RelationshipReadIds(edges: seq<Edge>, kind: string, productId: int)
    requires ArgsValid(kind, productId)
    ensures RelationshipRead(edges, kind, productId) == AsValues(ObjectIds(edges, kind, productId))
  {
  }

  /**
   * Relationship round trip: after an add (or update) of a list without
   * repeated ids, the list get returns that list in order.
   */
  lemma RelationshipRoundTrip(metaKey: string, postId: int, L: seq<int>, t: Tables)
    requires IsRelationshipKey(metaKey) && postId != 0 && Distinct(L)
    ensures var m := GetMapping(metaKey).value;
            && Write(m.add, postId, Some(List(L)), t).0
            && GetMetadata(Null, postId, metaKey, false, Write(m.add, postId, Some(List(L)), t).1)
                 == Handled(Multiple(AsValues(L)))
            && Write(m.update, postId, Some(List(L)), t) == Write(m.add, postId, Some(List(L)), t)
  {
    var kind := GetMapping(metaKey).value.get.kind;
    var t1 := Write(GetMapping(metaKey).value.add, postId, Some(List(L)), t).1;
    assert t1.relationships == ReplaceList(t.relationships, kind, postId, L);
    ReplaceListReadBack(t.relationships, kind, postId, L);
    RelationshipReadIds(t1.relationships, kind, postId);
  }

  /** A value that is not a list is refused without a write. */
  lemma RelationshipNeedsList(metaKey: string, postId: int, v: Value, t: Tables)
    requires IsRelationshipKey(metaKey) && !v.List?
    ensures Write(GetMapping(metaKey).value.add, postId, Some(v), t) == (false, t)
    ensures Write(GetMapping(metaKey).value.update, postId, Some(v), t) == (false, t)
  {
  }

  /** Delete of a relationship list empties it, whatever value the caller named. */
  lemma RelationshipDeleteEmpties(metaKey: string, postId: int, t: Tables)
    requires IsRelationshipKey(metaKey) && postId != 0
    ensures var m := GetMapping(metaKey).value;
            && Write(m.delete, postId, None, t).0
            && GetMetadata(Null, postId, metaKey, false, Write(m.delete, postId, None, t).1)
                 == Handled(Multiple([]))
  {
    var kind := GetMapping(metaKey).value.get.kind;
    var t1 := Write(GetMapping(metaKey).value.delete, postId, None, t).1;
    assert t1.relationships == ReplaceList(t.relationships, kind, postId, []);
    ReplaceListReadBack(t.relationships, kind, postId, []);
    RelationshipReadIds(t1.relationships, kind, postId);
  }

  /**
   * Updating the upsells drops every edge of the product whose object is no
   * longer listed, of any type: a cross-sell to the same object goes too.
   */
  lemma UpsellUpdateDropsCrossSell()
    ensures var t := Tables(map[], [Edge("crosssell", 7, 9, 0), Edge("upsell", 7, 9, 0)]);
            Write(GetMapping("_upsell_ids").value.update, 7, Some(List([])), t).1.relationships == []
  {
    UpsellKey();
    ReplaceListDeletesAcrossTypes();
  }

  /**
   * The column read as written returns the column's name, not its value:
   * a product whose SKU is "ABC" reads back as "sku".
   */
  lemma SelectReturnsColumnName()
    ensures var products := map[5 := map["sku" := Str("ABC")]];
            && ColumnReadAsWritten(products, "sku", 5) == [Str("sku")]
            && ColumnRead(products, "sku", 5) == [Str("ABC")]
  {
  }
}

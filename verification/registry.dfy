/**
 * The registry of virtualised meta keys (`get_mapping`): for each key, the
 * adapter and argument bag used by each of get, add, update and delete.
 * The argument bag is typed per adapter: a column adapter carries the
 * column, the `$wpdb` format and, where the entry sets one, the value to
 * write; a relationship adapter carries the relationship type and, where
 * the entry sets one, the value.
 */
module Registry {
  import opened PhpValues

  /** A read entry: `get_from_product_table` or `get_from_relationship_table`. */
  datatype Getter =
    | ReadProductColumn(column: string)
    | ReadRelationships(kind: string)

  /** A write entry: `update_in_product_table` or `update_relationship_table`. */
  datatype Setter =
    | WriteProductColumn(column: string, format: string, value: Option<Value>)
    | WriteRelationships(kind: string, value: Option<Value>)

  datatype Mapping = Mapping(get: Getter, add: Setter, update: Setter, delete: Setter)

  /**
   * The four entries of a column key: add and update bind the caller's value
   * with `format`; delete writes `deleted` with `deleteFormat`.
   */
  function ColumnMapping(column: string, format: string, deleteFormat: string, deleted: Value): Mapping
  {
    Mapping(ReadProductColumn(column),
            WriteProductColumn(column, format, None),
            WriteProductColumn(column, format, None),
            WriteProductColumn(column, deleteFormat, Some(deleted)))
  }

  /** The four entries of a relationship key: delete replaces the list with `deleted`. */
  function RelationshipMapping(kind: string, deleted: Value): Mapping
  {
    Mapping(ReadRelationships(kind),
            WriteRelationships(kind, None),
            WriteRelationships(kind, None),
            WriteRelationships(kind, Some(deleted)))
  }

  /** The keys kept in the `wc_products` table: their get reads a column. */
  predicate IsColumnKey(key: string)
  {
    GetMapping(key).Some? && GetMapping(key).value.get.ReadProductColumn?
  }

  /** The keys kept in the relationship table: their get reads a list of edges. */
  predicate IsRelationshipKey(key: string)
  {
    GetMapping(key).Some? && GetMapping(key).value.get.ReadRelationships?
  }

  /**
   * A column key names a column, reads, adds, updates and deletes that same column, and adds
   * and updates with the same format; add and update bind the caller's
   * value, delete writes a configured one.
   */
  predicate ColumnConsistent(m: Mapping)
  {
    m.get.ReadProductColumn? ==>
      && Truthy(Str(m.get.column))
      && m.add.WriteProductColumn? && m.update.WriteProductColumn? && m.delete.WriteProductColumn?
      && m.add.column == m.get.column && m.update.column == m.get.column && m.delete.column == m.get.column
      && m.add.format == m.update.format
  }

  /**
   * A relationship key names a type, reads and replaces that same type, and
   * deletes by replacing the list with the empty list.
   */
  predicate RelationshipConsistent(m: Mapping)
  {
    m.get.ReadRelationships? ==>
      && Truthy(Str(m.get.kind))
      && m.add.WriteRelationships? && m.update.WriteRelationships? && m.delete.WriteRelationships?
      && m.add.kind == m.get.kind && m.update.kind == m.get.kind && m.delete.kind == m.get.kind
      && m.delete.value == Some(List([]))
  }

  /** Add and update bind the caller's value; delete always writes a configured one. */
  predicate BindsCallerValue(m: Mapping)
  {
    m.add.value.None? && m.update.value.None? && m.delete.value.Some?
  }

  /**
   * `get_mapping()[ key ]`, or `None` when the key is not virtualised and is
   * left to the post meta table.
   */
  function GetMapping(key: string): (r: Option<Mapping>)
    ensures r.Some? ==> ColumnConsistent(r.value) && RelationshipConsistent(r.value) && BindsCallerValue(r.value)
  {
    match key
    case "_sku"                   => Some(ColumnMapping("sku", "%s", "%s", Str("")))
    case "_price"                 => Some(ColumnMapping("price", "%f", "", Str("NULL")))
    case "_regular_price"         => Some(ColumnMapping("regular_price", "%f", "", Str("NULL")))
    case "_sale_price"            => Some(ColumnMapping("sale_price", "%f", "", Str("NULL")))
    case "_sale_price_dates_from" => Some(ColumnMapping("date_on_sale_from", "%d", "", Str("NULL")))
    case "_sale_price_dates_to"   => Some(ColumnMapping("date_on_sale_to", "%d", "", Str("NULL")))
    case "total_sales"            => Some(ColumnMapping("total_sales", "%d", "%d", Int(0)))
    case "_tax_status"            => Some(ColumnMapping("tax_status", "%s", "%s", Str("taxable")))
    case "_tax_class"             => Some(ColumnMapping("tax_class", "%s", "%s", Str("")))
    case "_stock"                 => Some(ColumnMapping("stock_quantity", "%d", "", Str("NULL")))
    case "_stock_status"          => Some(ColumnMapping("stock_status", "%s", "", Str("instock")))
    case "_length"                => Some(ColumnMapping("length", "%f", "", Str("NULL")))
    case "_width"                 => Some(ColumnMapping("width", "%f", "", Str("NULL")))
    case "_height"                => Some(ColumnMapping("height", "%f", "", Str("NULL")))
    case "_weight"                => Some(ColumnMapping("weight", "%f", "", Str("NULL")))
    case "_virtual"               => Some(ColumnMapping("virtual", "%d", "%d", Int(0)))
    case "_downloadable"          => Some(ColumnMapping("downloadable", "%d", "%d", Int(0)))
    case "_wc_average_rating"     => Some(ColumnMapping("average_rating", "%f", "%f", Int(0)))
    case "_thumbnail_id"          => Some(ColumnMapping("image_id", "%d", "%d", Int(0)))
    case "_upsell_ids"            => Some(RelationshipMapping("upsell", List([])))
    case _ => None
  }

  /** The virtualised keys: nineteen product-table columns and the upsell list. */
  lemma MappedKeys(key: string)
    ensures GetMapping(key).Some? <==> key in {"_sku", "_price", "_regular_price", "_sale_price", "_sale_price_dates_from", "_sale_price_dates_to", "total_sales", "_tax_status", "_tax_class", "_stock", "_stock_status", "_length", "_width", "_height", "_weight", "_virtual", "_downloadable", "_wc_average_rating", "_thumbnail_id", "_upsell_ids"}
    ensures GetMapping(key).Some? ==> (IsColumnKey(key) <==> key != "_upsell_ids")
  {
  }

  /** The one relationship key: `_upsell_ids`, kept as edges of type "upsell". */
  lemma UpsellKey()
    ensures IsRelationshipKey("_upsell_ids") && GetMapping("_upsell_ids").value.get.kind == "upsell"
  {
  }

  /**
   * The value delete writes for some keys: the configured default. The
   * price-like columns get the four-character string "NULL" (with no
   * format), not SQL NULL.
   */
  lemma DeleteDefaults()
    ensures GetMapping("_tax_status").value.delete.value == Some(Str("taxable"))
    ensures GetMapping("_stock_status").value.delete.value == Some(Str("instock"))
    ensures GetMapping("total_sales").value.delete.value == Some(Int(0))
    ensures GetMapping("_price").value.delete.value == Some(Str("NULL"))
    ensures GetMapping("_upsell_ids").value.delete == WriteRelationships("upsell", Some(List([])))
  {
  }
}

/**
 * The migration transformer (`WC_Product_Tables_Migrate_Data`): one pass
 * over the product and variation posts that have no `wc_products` row yet,
 * writing for each its row, downloads, relationship edges, gallery edges
 * and attributes.
 *
 * What the transformer reads through WordPress (`get_post_meta`,
 * `wp_get_post_terms`, `get_terms`, `maybe_unserialize`) is the `Legacy`
 * input; the tables it writes are the fields of a `Database`.
 */
module MigrateData {
  import opened PhpValues
  import opened PhpStrings
  import opened Tables
  import opened RelationshipTable
  import opened Registry
  import opened Facade

  /** One entry of the unserialised `_downloadable_files` meta. */
  datatype DownloadFile = DownloadFile(name: Value, file: Value)

  /** One entry of the unserialised `_product_attributes` meta. */
  datatype ProductAttribute = ProductAttribute(name: Value, isVisible: Value, isVariation: Value)

  /** A taxonomy term as `get_terms` returns it. */
  datatype Term = Term(name: string, slug: string, termTaxonomyId: int)

  /** The `_product_image_gallery` meta: a string, or an array of ids. */
  datatype Gallery = GalleryString(s: string) | GalleryList(items: seq<string>)

  /**
   * The legacy data, keyed by post id. Absent entries stand for what
   * WordPress returns for a missing meta key: no values, `''`, or an empty
   * array.
   */
  datatype Legacy = Legacy(
    /** `get_post_meta( id )`: every key with its list of stored values. */
    meta: map<int, map<string, seq<string>>>,
    /** `wp_get_post_terms( id, 'product_type' )[0]->slug`. */
    productType: map<int, Value>,
    /** `maybe_unserialize` of `_downloadable_files`: download key and file, in stored order. */
    downloadableFiles: map<int, seq<(string, DownloadFile)>>,
    /** `get_post_meta( id, key, true )` for `_children`, `_upsell_ids`, `_crosssell_ids`. */
    relations: map<(int, string), seq<int>>,
    /** `get_post_meta( id, '_product_image_gallery', true )`. */
    gallery: map<int, Gallery>,
    /** `get_post_meta( id, '_product_attributes', true )`: attribute key and entry, in stored order. */
    productAttributes: map<int, seq<(string, ProductAttribute)>>,
    /** `get_post_meta( id, '_default_attributes', true )`, entries in stored order. */
    defaultAttributes: map<int, seq<map<string, string>>>,
    /** `get_terms( taxonomy )` with no object restriction. */
    taxonomyTerms: map<string, seq<Term>>,
    /** `get_terms( taxonomy, object_ids = id )`: the terms given to one product. */
    productTerms: map<(int, string), seq<Term>>)

  /** `get_post_meta( id )`. */
  function MetaOf(legacy: Legacy, id: int): map<string, seq<string>>
  {
    Lookup(legacy.meta, id, map[])
  }

  /** `isset( $metas[ key ] ) ? $metas[ key ][0] : null`. */
  function First(metas: map<string, seq<string>>, key: string): (v: Value)
    ensures v != Null <==> key in metas && metas[key] != []
    ensures v != Null ==> v == Str(metas[key][0])
  {
    if key in metas && metas[key] != [] then Str(metas[key][0]) else Null
  }

  /** `get_post_meta( id, key, true )`: the first value, or `''`. */
  function SingleMeta(legacy: Legacy, id: int, key: string): (s: string)
    ensures First(MetaOf(legacy, id), key) == Null ==> s == ""
    ensures First(MetaOf(legacy, id), key) != Null ==> First(MetaOf(legacy, id), key) == Str(s)
  {
    var metas := MetaOf(legacy, id);
    if key in metas && metas[key] != [] then metas[key][0] else ""
  }

  // ---------------------------------------------------------------------
  // Row normalisation.

  /** Where a `wc_products` column of a migrated row comes from. */
  datatype ColumnSource =
    | PostId                     // the post's own id
    | ProductTypeSlug            // the slug of its first `product_type` term
    | PriceRule                  // the price rule applied to all `_price` values
    | FirstValueOf(key: string)  // the first value of a legacy meta key

  /**
   * The source of each column of the inserted row, with the legacy meta keys
   * spelled as the migration spells them.
   */
  function SourceOf(column: string): Option<ColumnSource>
  {
    match column
    case "product_id"        => Some(PostId)
    case "sku"               => Some(FirstValueOf("_sku"))
    case "image_id"          => Some(FirstValueOf("_thumbnail_id"))
    case "height"            => Some(FirstValueOf("_height"))
    case "width"             => Some(FirstValueOf("_width"))
    case "length"            => Some(FirstValueOf("_lenght"))
    case "weight"            => Some(FirstValueOf("_weight"))
    case "stock_quantity"    => Some(FirstValueOf("_stock"))
    case "type"              => Some(ProductTypeSlug)
    case "virtual"           => Some(FirstValueOf("_virtual"))
    case "downloadable"      => Some(FirstValueOf("_downloadable"))
    case "tax_class"         => Some(FirstValueOf("_tax_class"))
    case "tax_status"        => Some(FirstValueOf("_tax_status"))
    case "total_sales"       => Some(FirstValueOf("total_sales"))
    case "price"             => Some(PriceRule)
    case "regular_price"     => Some(FirstValueOf("_regular_price"))
    case "sale_price"        => Some(FirstValueOf("_sale_price"))
    case "date_on_sale_from" => Some(FirstValueOf("_date_on_sale"))
    case "date_on_sale_to"   => Some(FirstValueOf("_date_on_sale_to"))
    case "average_rating"    => Some(FirstValueOf("_average_rating"))
    case "stock_status"      => Some(FirstValueOf("_stock_status"))
    case _                   => None
  }

  /** Every column of the inserted `wc_products` row. */
  const RowColumns: set<string> :=
    {"product_id", "sku", "image_id", "height", "width", "length", "weight", "stock_quantity", "type",
     "virtual", "downloadable", "tax_class", "tax_status", "total_sales", "price", "regular_price",
     "sale_price", "date_on_sale_from", "date_on_sale_to", "average_rating", "stock_status"}

  /** The value a column source gives for post `id`. */
  function Fill(legacy: Legacy, id: int, pickPrice: seq<string> -> Value, source: Option<ColumnSource>): Value
  {
    var metas := MetaOf(legacy, id);
    match source
    case Some(PostId) => Int(id)
    case Some(ProductTypeSlug) => Lookup(legacy.productType, id, Null)
    case Some(PriceRule) => if "_price" in metas then pickPrice(metas["_price"]) else Null
    case Some(FirstValueOf(key)) => First(metas, key)
    case None => Null
  }

  /**
   * The `wc_products` row built for a post: its id, its product type slug,
   * the price the price rule picks from the `_price` values (null without
   * any), and for every other column the first value of its legacy key, or
   * null when the key is absent.
   */
  function NormaliseRow(legacy: Legacy, id: int, pickPrice: seq<string> -> Value): (row: Row)
    ensures row.Keys == RowColumns
    ensures forall c :: c in row && SourceOf(c) == Some(PostId) ==> row[c] == Int(id)
    ensures forall c :: c in row && SourceOf(c) == Some(ProductTypeSlug) ==> row[c] == Lookup(legacy.productType, id, Null)
    ensures forall c :: c in row && SourceOf(c) == Some(PriceRule) ==>
              row[c] == (if "_price" in MetaOf(legacy, id) then pickPrice(MetaOf(legacy, id)["_price"]) else Null)
    ensures forall c, key :: c in row && SourceOf(c) == Some(FirstValueOf(key)) ==> row[c] == First(MetaOf(legacy, id), key)
  {
    map c | c in RowColumns :: Fill(legacy, id, pickPrice, SourceOf(c))
  }

  /** A registry column key whose column the migration fills from that same key. */
  predicate ReadsOwnKey(key: string)
  {
    IsColumnKey(key) && SourceOf(GetMapping(key).value.get.column) == Some(FirstValueOf(key))
  }

  /** The migration fills the SKU, price, sales and thumbnail columns from the registry's own key. */
  lemma MigrationReadsCatalogueKeys()
    ensures ReadsOwnKey("_sku") && ReadsOwnKey("_regular_price") && ReadsOwnKey("_sale_price")
    ensures ReadsOwnKey("total_sales") && ReadsOwnKey("_thumbnail_id")
  {
  }

  /** The migration fills the stock and tax columns from the registry's own key. */
  lemma MigrationReadsStockKeys()
    ensures ReadsOwnKey("_stock") && ReadsOwnKey("_stock_status")
    ensures ReadsOwnKey("_tax_status") && ReadsOwnKey("_tax_class")
  {
  }

  /** The migration fills width, height and weight from the registry's own key. */
  lemma MigrationReadsShapeKeys()
    ensures ReadsOwnKey("_width") && ReadsOwnKey("_height") && ReadsOwnKey("_weight")
  {
  }

  /** The migration fills the virtual and downloadable flags from the registry's own key. */
  lemma MigrationReadsFlagKeys()
    ensures ReadsOwnKey("_virtual") && ReadsOwnKey("_downloadable")
  {
  }

  /**
   * Two registry columns are filled from a differently spelled key:
   * `_lenght` for `_length` and `_average_rating` for `_wc_average_rating`.
   */
  lemma MigrationReadsMisspelledKeys()
    ensures SourceOf(GetMapping("_length").value.get.column) == Some(FirstValueOf("_lenght"))
    ensures SourceOf(GetMapping("_wc_average_rating").value.get.column) == Some(FirstValueOf("_average_rating"))
  {
  }

  /**
   * The sale date columns are filled from `_date_on_sale` and
   * `_date_on_sale_to`, not from the registry's `_sale_price_dates_from`
   * and `_sale_price_dates_to`.
   */
  lemma MigrationReadsSaleDateKeys()
    ensures SourceOf(GetMapping("_sale_price_dates_from").value.get.column) == Some(FirstValueOf("_date_on_sale"))
    ensures SourceOf(GetMapping("_sale_price_dates_to").value.get.column) == Some(FirstValueOf("_date_on_sale_to"))
  {
  }

  /** The price column goes through the price rule rather than the first `_price` value. */
  lemma MigrationPriceRule()
    ensures SourceOf(GetMapping("_price").value.get.column) == Some(PriceRule)
  {
  }

  /**
   * After migration, a single get of a column key returns what the
   * column's source gave for the post.
   */
  lemma MigratedColumnReadBack(key: string, legacy: Legacy, id: int, pickPrice: seq<string> -> Value, t: Tables)
    requires IsColumnKey(key) && GetMapping(key).value.get.column in RowColumns
    requires id != 0 && id in t.products && t.products[id] == NormaliseRow(legacy, id, pickPrice)
    ensures GetMetadata(Null, id, key, true, t)
              == Handled(Single(Fill(legacy, id, pickPrice, SourceOf(GetMapping(key).value.get.column))))
  {
  }

  /** The migrated length column holds the first `_lenght` value. */
  lemma LengthColumnSource(legacy: Legacy, id: int, pickPrice: seq<string> -> Value)
    ensures NormaliseRow(legacy, id, pickPrice)["length"] == First(MetaOf(legacy, id), "_lenght")
  {
    assert SourceOf("length") == Some(FirstValueOf("_lenght"));
    assert "length" in RowColumns;
  }

  /** A single get of `_length` reads the length column of the product's row. */
  lemma LengthKeyReadsColumn(id: int, t: Tables)
    requires id != 0 && id in t.products
    ensures GetMetadata(Null, id, "_length", true, t) == Handled(Single(Lookup(t.products[id], "length", Null)))
  {
  }

  /**
   * Whatever the legacy `_length` holds, it does not reach the migrated
   * row: without a `_lenght` meta, the length reads back null.
   */
  lemma LegacyLengthLost(legacy: Legacy, id: int, pickPrice: seq<string> -> Value, t: Tables)
    requires "_lenght" !in MetaOf(legacy, id)
    requires id != 0 && id in t.products && t.products[id] == NormaliseRow(legacy, id, pickPrice)
    ensures GetMetadata(Null, id, "_length", true, t) == Handled(Single(Null))
  {
    LengthColumnSource(legacy, id, pickPrice);
    LengthKeyReadsColumn(id, t);
  }

  // ---------------------------------------------------------------------
  // Downloadable files.

  /** The download keys of the legacy files, in stored order. */
  function DownloadKeys(files: seq<(string, DownloadFile)>): (keys: seq<string>)
    ensures |keys| == |files| && forall i :: 0 <= i < |files| ==> keys[i] == files[i].0
  {
    seq(|files|, i requires 0 <= i < |files| => files[i].0)
  }

  /**
   * The `wc_product_downloads` rows for the legacy files: file `i` gets the
   * id `firstId + i`, the priority `i + 1`, its name and URL, and the
   * product-level limit and expiry.
   */
  function DownloadRows(productId: int, files: seq<(string, DownloadFile)>, limit: Value, expires: Value,
                        firstId: int): (rows: seq<Download>)
    ensures |rows| == |files|
    ensures forall i :: 0 <= i < |files| ==>
              rows[i] == Download(firstId + i, productId, files[i].1.name, files[i].1.file, limit, expires, i + 1)
  {
    seq(|files|, i requires 0 <= i < |files| =>
      Download(firstId + i, productId, files[i].1.name, files[i].1.file, limit, expires, i + 1))
  }

  /**
   * `UPDATE ... permissions SET download_id = newId WHERE download_id = key`:
   * every permission holding the legacy key, of whatever product, is
   * re-pointed; the others are untouched.
   */
  function Repoint(perms: seq<Permission>, key: string, newId: string): seq<Permission>
  {
    seq(|perms|, i requires 0 <= i < |perms| =>
      if perms[i].downloadId == key then Permission(perms[i].productId, newId) else perms[i])
  }

  lemma RepointEffect(perms: seq<Permission>, key: string, newId: string)
    ensures |Repoint(perms, key, newId)| == |perms|
    ensures forall i :: 0 <= i < |perms| ==>
              Repoint(perms, key, newId)[i] == (if perms[i].downloadId == key then Permission(perms[i].productId, newId) else perms[i])
  {
  }

  /** The permissions after the download loop: key `j` re-pointed to the id `firstId + j`, in order. */
  function RepointAll(perms: seq<Permission>, keys: seq<string>, firstId: nat): seq<Permission>
  {
    if keys == [] then perms
    else
      var n := |keys| - 1;
      Repoint(RepointAll(perms, keys[..n], firstId), keys[n], DecimalString(firstId + n))
  }

  predicate DistinctKeys(keys: seq<string>)
  {
    forall i, j :: 0 <= i < j < |keys| ==> keys[i] != keys[j]
  }

  /**
   * When the legacy keys are distinct and none is spelled with digits only
   * (they are hashes), every permission holding key `j` ends up pointing to
   * the new download `firstId + j`, and every other permission is
   * unchanged.
   */
  lemma {:induction false} RepointAllMovesEachKey(perms: seq<Permission>, keys: seq<string>, firstId: nat)
    requires DistinctKeys(keys)
    requires forall j :: 0 <= j < |keys| ==> !AllDigits(keys[j])
    ensures |RepointAll(perms, keys, firstId)| == |perms|
    ensures forall i, j :: 0 <= i < |perms| && 0 <= j < |keys| && perms[i].downloadId == keys[j] ==>
              RepointAll(perms, keys, firstId)[i] == Permission(perms[i].productId, DecimalString(firstId + j))
    ensures forall i :: 0 <= i < |perms| && perms[i].downloadId !in keys ==>
              RepointAll(perms, keys, firstId)[i] == perms[i]
  {
    if keys != [] {
      var n := |keys| - 1;
      var front := RepointAll(perms, keys[..n], firstId);
      RepointAllMovesEachKey(perms, keys[..n], firstId);
      var r := RepointAll(perms, keys, firstId);
      assert r == Repoint(front, keys[n], DecimalString(firstId + n));
      RepointEffect(front, keys[n], DecimalString(firstId + n));
      forall i, j | 0 <= i < |perms| && 0 <= j < |keys| && perms[i].downloadId == keys[j]
        ensures r[i] == Permission(perms[i].productId, DecimalString(firstId + j))
      {
        if j < n {
          assert keys[..n][j] == keys[j];
          assert AllDigits(front[i].downloadId);
          assert front[i].downloadId != keys[n];
        } else {
          assert perms[i].downloadId !in keys[..n];
        }
      }
      forall i | 0 <= i < |perms| && perms[i].downloadId !in keys
        ensures r[i] == perms[i]
      {
        assert perms[i].downloadId !in keys[..n];
      }
    }
  }

  /** One more file: one more key, one more download row. */
  lemma DownloadStep(productId: int, files: seq<(string, DownloadFile)>,
                     limit: Value, expires: Value, firstId: int, i: nat)
    requires i < |files|
    ensures DownloadKeys(files[..i + 1]) == DownloadKeys(files[..i]) + [files[i].0]
    ensures DownloadRows(productId, files[..i + 1], limit, expires, firstId)
         == DownloadRows(productId, files[..i], limit, expires, firstId)
            + [Download(firstId + i, productId, files[i].1.name, files[i].1.file, limit, expires, i + 1)]
  {
  }

  lemma RepointAllSnoc(perms: seq<Permission>, keys: seq<string>, key: string, firstId: nat)
    ensures RepointAll(perms, keys + [key], firstId)
         == Repoint(RepointAll(perms, keys, firstId), key, DecimalString(firstId + |keys|))
  {
    assert (keys + [key])[..|keys|] == keys;
  }

  /**
   * One iteration of the download loop, for file `i`: the file becomes a
   * download row with the next id and the priority `i + 1`, and the
   * permissions holding its legacy key are re-pointed to that id, written
   * into the text column in decimal.
   */
  method MigrateDownload(db: Database, productId: int, files: seq<(string, DownloadFile)>,
                         limit: Value, expires: Value, i: nat,
                         ghost firstId: nat, ghost rows: seq<Download>, ghost perms: seq<Permission>)
    requires i < |files| && db.Valid() && db.nextDownloadId == firstId + i
    requires db.downloads == rows + DownloadRows(productId, files[..i], limit, expires, firstId)
    requires db.permissions == RepointAll(perms, DownloadKeys(files[..i]), firstId)
    modifies db`downloads, db`nextDownloadId, db`permissions
    ensures db.Valid() && db.nextDownloadId == firstId + i + 1
    ensures db.downloads == rows + DownloadRows(productId, files[..i + 1], limit, expires, firstId)
    ensures db.permissions == RepointAll(perms, DownloadKeys(files[..i + 1]), firstId)
  {
    var (key, file) := files[i];
    DownloadStep(productId, files, limit, expires, firstId, i);
    RepointAllSnoc(perms, DownloadKeys(files[..i]), key, firstId);
    var newId := db.InsertDownload(productId, file.name, file.file, limit, expires, i + 1);
    db.permissions := Repoint(db.permissions, key, DecimalString(newId));
  }

  /**
   * The download loop: the legacy files become download rows with
   * consecutive fresh ids and priorities 1, 2, ..., and each legacy key is
   * re-pointed, in order, to the id of its row.
   */
  method MigrateDownloads(db: Database, productId: int, files: seq<(string, DownloadFile)>,
                          limit: Value, expires: Value)
    requires db.Valid()
    modifies db`downloads, db`nextDownloadId, db`permissions
    ensures db.Valid()
    ensures db.nextDownloadId == old(db.nextDownloadId) + |files|
    ensures db.downloads == old(db.downloads) + DownloadRows(productId, files, limit, expires, old(db.nextDownloadId))
    ensures db.permissions == RepointAll(old(db.permissions), DownloadKeys(files), old(db.nextDownloadId))
  {
    ghost var firstId: nat := db.nextDownloadId;
    ghost var rows := db.downloads;
    ghost var perms := db.permissions;
    assert files[..0] == [];
    var priority := 1;
    var i := 0;
    while i < |files|
      invariant 0 <= i <= |files| && priority == i + 1
      invariant db.Valid() && db.nextDownloadId == firstId + i
      invariant db.downloads == rows + DownloadRows(productId, files[..i], limit, expires, firstId)
      invariant db.permissions == RepointAll(perms, DownloadKeys(files[..i]), firstId)
    {
      MigrateDownload(db, productId, files, limit, expires, i, firstId, rows, perms);
      priority := priority + 1;
      i := i + 1;
    }
    assert files[..i] == files;
  }

  // ---------------------------------------------------------------------
  // Grouped products, upsells and cross-sells.

  /** The children that are not empty (`0`), in order. */
  function NonZero(children: seq<int>): (r: seq<int>)
    ensures |r| <= |children|
  {
    if children == [] then []
    else
      var n := |children| - 1;
      NonZero(children[..n]) + (if children[n] == 0 then [] else [children[n]])
  }

  /** The kept children are exactly the non-empty ones. */
  lemma {:induction false} NonZeroMembers(children: seq<int>)
    ensures forall x :: x in NonZero(children) <==> x in children && x != 0
  {
    if children != [] {
      var n := |children| - 1;
      NonZeroMembers(children[..n]);
      assert children == children[..n] + [children[n]];
    }
  }

  lemma NonZeroStep(children: seq<int>, i: nat)
    requires i < |children|
    ensures NonZero(children[..i + 1]) == NonZero(children[..i]) + (if children[i] == 0 then [] else [children[i]])
  {
    assert children[..i + 1][..i] == children[..i];
  }

  /** `get_post_meta( id, key, true )` for a relationship list. */
  function RelationsOf(legacy: Legacy, id: int, key: string): seq<int>
  {
    Lookup(legacy.relations, (id, key), [])
  }

  /**
   * `migrate_relationship`: the non-empty children are inserted in order as
   * edges of the given type with priorities 1, 2, ...; an empty child is
   * skipped without using up a priority.
   */
  method MigrateRelationship(db: Database, productId: int, kind: string, children: seq<int>)
    modifies db`relationships
    ensures db.relationships == InsertEdges(old(db.relationships), Prioritised(kind, productId, NonZero(children)))
  {
    if children == [] {
      return;
    }
    ghost var start := db.relationships;
    ghost var kept: seq<int> := [];
    var priority := 1;
    var i := 0;
    while i < |children|
      invariant 0 <= i <= |children|
      invariant kept == NonZero(children[..i]) && priority == |kept| + 1
      invariant db.relationships == InsertEdges(start, Prioritised(kind, productId, kept))
    {
      var child := children[i];
      NonZeroStep(children, i);
      if child != 0 {
        var e := Edge(kind, productId, child, priority);
        PrioritisedSnoc(kind, productId, kept, child);
        InsertEdgesSnoc(start, Prioritised(kind, productId, kept), e);
        db.relationships := InsertEdge(db.relationships, e);
        kept := kept + [child];
        priority := priority + 1;
      } else {
        assert kept + [] == kept;
      }
      i := i + 1;
    }
    assert children[..i] == children;
  }

  /** Empty children are skipped without a gap: `[0, 5, 0, 7]` gives 5 and 7 at priorities 1 and 2. */
  lemma SkippedChildrenKeepPrioritiesDense()
    ensures Prioritised("grouped", 3, NonZero([0, 5, 0, 7])) == [Edge("grouped", 3, 5, 1), Edge("grouped", 3, 7, 2)]
  {
    assert [0, 5, 0, 7][..3] == [0, 5, 0];
    assert [0, 5, 0][..2] == [0, 5];
    assert [0, 5][..1] == [0];
    assert [0][..0] == [];
  }

  /**
   * A migrated list with distinct entries, for a product that had no edges
   * of that type, reads back through the metadata facade as the legacy
   * list without its empty entries.
   */
  lemma MigratedListReadBack(metaKey: string, productId: int, children: seq<int>, t: Tables)
    requires IsRelationshipKey(metaKey) && productId != 0
    requires Distinct(NonZero(children))
    requires ObjectIds(t.relationships, GetMapping(metaKey).value.get.kind, productId) == []
    ensures var kind := GetMapping(metaKey).value.get.kind;
            var migrated := InsertEdges(t.relationships, Prioritised(kind, productId, NonZero(children)));
            GetMetadata(Null, productId, metaKey, false, t.(relationships := migrated))
              == Handled(Multiple(AsValues(NonZero(children))))
  {
    var kind := GetMapping(metaKey).value.get.kind;
    var L := NonZero(children);
    InsertPrioritisedFresh(t.relationships, kind, productId, L);
    PrioritisedReadBack(t.relationships, kind, productId, L);
    assert [] + L == L;
    RelationshipReadIds(t.relationships + Prioritised(kind, productId, L), kind, productId);
  }

  // ---------------------------------------------------------------------
  // Product images.

  /** `get_post_meta( id, '_product_image_gallery', true )`, `''` when absent. */
  function GalleryOf(legacy: Legacy, id: int): Gallery
  {
    Lookup(legacy.gallery, id, GalleryString(""))
  }

  /**
   * The image list of the gallery meta: an empty value gives none, a
   * string is cut at its commas (a string without a comma is one image),
   * and an array is taken as it is. Nothing of the string is lost, and
   * empty pieces are kept.
   */
  function GalleryPieces(g: Gallery): (pieces: seq<string>)
    ensures g.GalleryList? ==> pieces == g.items
    ensures g.GalleryString? ==> (pieces == [] <==> !Truthy(Str(g.s)))
    ensures g.GalleryString? && pieces != [] ==>
              Implode(',', pieces) == g.s && forall i :: 0 <= i < |pieces| ==> ',' !in pieces[i]
  {
    match g
    case GalleryList(items) => items
    case GalleryString(s) =>
      if !Truthy(Str(s)) then []
      else if Contains(s, ",") then
        ImplodeExplode(',', s);
        Explode(',', s)
      else
        assert ',' !in s by {
          forall k | 0 <= k < |s|
            ensures s[k] != ','
          {
            assert !OccursAt(s, ",", k);
            assert s[k..k + 1] == [s[k]];
          }
        }
        [s]
  }

  /** The `object_id` each image becomes: the integer the column stores for the string. */
  function GalleryObjectIds(pieces: seq<string>): (ids: seq<int>)
    ensures |ids| == |pieces| && forall i :: 0 <= i < |pieces| ==> ids[i] == StoredInteger(pieces[i])
  {
    seq(|pieces|, i requires 0 <= i < |pieces| => StoredInteger(pieces[i]))
  }

  /**
   * The image loop: each image of the gallery is inserted in order as an
   * `image` edge with priorities 1, 2, ...; the integer column stores the
   * integer value of each image string.
   */
  method MigrateGallery(db: Database, productId: int, gallery: Gallery)
    modifies db`relationships
    ensures db.relationships
         == InsertEdges(old(db.relationships), Prioritised("image", productId, GalleryObjectIds(GalleryPieces(gallery))))
  {
    var imageIds := GalleryObjectIds(GalleryPieces(gallery));
    InsertImages(db, productId, imageIds);
  }

  /** The body of the image loop, over the object ids the images are stored as. */
  method InsertImages(db: Database, productId: int, imageIds: seq<int>)
    modifies db`relationships
    ensures db.relationships == InsertEdges(old(db.relationships), Prioritised("image", productId, imageIds))
  {
    ghost var start := db.relationships;
    var priority := 1;
    var i := 0;
    while i < |imageIds|
      invariant 0 <= i <= |imageIds| && priority == i + 1
      invariant db.relationships == InsertEdges(start, Prioritised("image", productId, imageIds[..i]))
    {
      var e := Edge("image", productId, imageIds[i], priority);
      assert imageIds[..i + 1] == imageIds[..i] + [imageIds[i]];
      PrioritisedSnoc("image", productId, imageIds[..i], imageIds[i]);
      InsertEdgesSnoc(start, Prioritised("image", productId, imageIds[..i]), e);
      db.relationships := InsertEdge(db.relationships, e);
      priority := priority + 1;
      i := i + 1;
    }
    assert imageIds[..i] == imageIds;
  }

  /** A gallery string holding a comma is exploded. */
  lemma GalleryCommaString(s: string, k: int)
    requires Truthy(Str(s)) && OccursAt(s, ",", k)
    ensures GalleryPieces(GalleryString(s)) == Explode(',', s)
  {
  }

  lemma ExplodeThree(A: string, B: string, C: string)
    requires ',' !in A && ',' !in B && ',' !in C
    ensures Explode(',', A + "," + B + "," + C) == [A, B, C]
  {
    assert A + "," + B + "," + C == A + [','] + (B + [','] + C);
    ExplodeFirstPiece(',', A, B + [','] + C);
    ExplodeFirstPiece(',', B, C);
    ExplodeWhole(',', C);
  }

  lemma ExplodeEmptyMiddle(A: string, B: string)
    requires ',' !in A && ',' !in B
    ensures Explode(',', A + ",," + B) == [A, "", B]
  {
    assert A + ",," + B == A + [','] + ([] + [','] + B);
    ExplodeFirstPiece(',', A, [] + [','] + B);
    ExplodeFirstPiece(',', [], B);
    ExplodeWhole(',', B);
  }

  /** Three comma-free pieces joined by commas are cut back into those pieces. */
  lemma GalleryThreePieces(A: string, B: string, C: string)
    requires ',' !in A && ',' !in B && ',' !in C
    ensures GalleryPieces(GalleryString(A + "," + B + "," + C)) == [A, B, C]
  {
    var s := A + "," + B + "," + C;
    assert s[|A|] == ',';
    assert OccursAt(s, ",", |A|);
    GalleryCommaString(s, |A|);
    ExplodeThree(A, B, C);
  }

  /** Two commas in a row leave an empty piece between them. */
  lemma GalleryEmptyMiddlePiece(A: string, B: string)
    requires ',' !in A && ',' !in B
    ensures GalleryPieces(GalleryString(A + ",," + B)) == [A, "", B]
  {
    var s := A + ",," + B;
    assert s[|A|] == ',';
    assert OccursAt(s, ",", |A|);
    GalleryCommaString(s, |A|);
    ExplodeEmptyMiddle(A, B);
  }

  /** Images spelled in decimal are stored as the numbers they spell, an empty one as 0. */
  lemma DecimalObjectIds(pieces: seq<string>, ids: seq<nat>)
    requires |pieces| == |ids|
    requires forall i :: 0 <= i < |ids| ==> pieces[i] == DecimalString(ids[i]) || (pieces[i] == "" && ids[i] == 0)
    ensures GalleryObjectIds(pieces) == ids
  {
    forall i | 0 <= i < |ids|
      ensures StoredInteger(pieces[i]) == ids[i]
    {
      if pieces[i] != "" {
        StoredDecimal(ids[i]);
      }
    }
  }

  /** A comma list of three ids becomes those ids, in order: `12,34,56` gives 12, 34, 56. */
  lemma GalleryCommaList(a: nat, b: nat, c: nat)
    ensures GalleryObjectIds(GalleryPieces(GalleryString(DecimalString(a) + "," + DecimalString(b) + "," + DecimalString(c))))
         == [a, b, c]
  {
    DecimalHasNo(',', a);
    DecimalHasNo(',', b);
    DecimalHasNo(',', c);
    GalleryThreePieces(DecimalString(a), DecimalString(b), DecimalString(c));
    DecimalObjectIds([DecimalString(a), DecimalString(b), DecimalString(c)], [a, b, c]);
  }

  /** An empty piece is not skipped: `12,,34` gives 12, 0, 34. */
  lemma GalleryEmptyPieceKept(a: nat, b: nat)
    ensures GalleryObjectIds(GalleryPieces(GalleryString(DecimalString(a) + ",," + DecimalString(b)))) == [a, 0, b]
  {
    DecimalHasNo(',', a);
    DecimalHasNo(',', b);
    GalleryEmptyMiddlePiece(DecimalString(a), DecimalString(b));
    DecimalObjectIds([DecimalString(a), "", DecimalString(b)], [a, 0, b]);
  }

  /** A gallery string without a comma is one image. */
  lemma GalleryWithoutComma(s: string)
    requires Truthy(Str(s)) && ',' !in s
    ensures GalleryPieces(GalleryString(s)) == [s]
  {
    forall k | 0 <= k < |s|
      ensures !OccursAt(s, ",", k)
    {
      assert s[k..k + 1][0] == s[k];
    }
  }

  /** A single id is one image; `''` and `'0'` are empty and give none. */
  lemma GallerySingleAndEmpty(a: nat)
    requires a != 0
    ensures GalleryObjectIds(GalleryPieces(GalleryString(DecimalString(a)))) == [a]
    ensures GalleryPieces(GalleryString("")) == [] && GalleryPieces(GalleryString("0")) == []
  {
    var A := DecimalString(a);
    DecimalHasNo(',', a);
    StoredDecimal(a);
    GalleryWithoutComma(A);
  }


  // ---------------------------------------------------------------------
  // Attributes.

  /** `strpos( key, 'pa_' ) !== false`: the marker may occur anywhere in the key. */
  predicate IsGlobal(key: string)
  {
    Contains(key, "pa_")
  }

  /**
   * The marker test: a key is global when `pa_` occurs anywhere in it, not
   * only at the start, and a key without the letter `p` is custom.
   */
  lemma GlobalMarker(before: string, after: string, key: string)
    ensures IsGlobal(before + "pa_" + after)
    ensures 'p' !in key ==> !IsGlobal(key)
  {
    var marked := before + "pa_" + after;
    assert marked[|before|..|before| + 3] == "pa_";
    assert OccursAt(marked, "pa_", |before|);
    if 'p' !in key {
      forall k | 0 <= k < |key|
        ensures !OccursAt(key, "pa_", k)
      {
        assert key[k] != 'p';
        if k + 3 <= |key| {
          assert key[k..k + 3][0] == key[k];
        }
      }
    }
  }

  /** `get_post_meta( id, '_default_attributes', true )`, as the entries the loops visit. */
  function DefaultsOf(legacy: Legacy, id: int): seq<map<string, string>>
  {
    Lookup(legacy.defaultAttributes, id, [])
  }

  /** `get_terms` for a taxonomy, restricted to one product's terms. */
  function ProductTermsOf(legacy: Legacy, id: int, taxonomy: string): seq<Term>
  {
    Lookup(legacy.productTerms, (id, taxonomy), [])
  }

  /** Some entry of the default attributes maps `key` to `value`. */
  predicate IsDefault(defaults: seq<map<string, string>>, key: string, value: string)
  {
    exists j :: 0 <= j < |defaults| && key in defaults[j] && defaults[j][key] == value
  }

  /**
   * The inner loop over the default attributes: the flag starts at 0 and is
   * set when an entry holds the key with exactly the value.
   */
  method FindDefault(defaults: seq<map<string, string>>, key: string, value: string) returns (isDefault: bool)
    ensures isDefault <==> IsDefault(defaults, key, value)
  {
    isDefault := false;
    var j := 0;
    while j < |defaults|
      invariant 0 <= j <= |defaults|
      invariant isDefault <==> exists k :: 0 <= k < j && key in defaults[k] && defaults[k][key] == value
    {
      if key in defaults[j] && defaults[j][key] == value {
        isDefault := true;
      }
      j := j + 1;
    }
  }

  /**
   * The value rows of a custom attribute, from the pieces of its values
   * string: each piece trimmed, priorities 1, 2, ..., and a piece flagged
   * default when some default entry maps the attribute name to it.
   */
  function CustomValueRows(productId: int, attributeId: int, name: string, pieces: seq<string>,
                           defaults: seq<map<string, string>>): (rows: seq<AttributeValueRow>)
    ensures |rows| == |pieces|
    ensures forall i :: 0 <= i < |rows| ==>
              && rows[i].productId == productId && rows[i].attributeId == attributeId
              && rows[i].priority == i + 1
              && rows[i].value == Trim(pieces[i])
              && (rows[i].isDefault <==> IsDefault(defaults, name, rows[i].value))
  {
    seq(|pieces|, i requires 0 <= i < |pieces| =>
      AttributeValueRow(productId, attributeId, Trim(pieces[i]), i + 1, IsDefault(defaults, name, Trim(pieces[i]))))
  }


  /**
   * `migrate_custom_attributes`: the values string is cut at `|` and every
   * piece, empty ones included, becomes a value row.
   */
  method MigrateCustomAttributes(db: Database, legacy: Legacy, productId: int, attributeId: int,
                                 attributeName: string, attributeValues: string)
    modifies db`attributeValues
    ensures db.attributeValues == old(db.attributeValues)
              + CustomValueRows(productId, attributeId, attributeName, Explode('|', attributeValues),
                                DefaultsOf(legacy, productId))
  {
    var values := Explode('|', attributeValues);
    var defaults := DefaultsOf(legacy, productId);
    InsertCustomValues(db, productId, attributeId, attributeName, values, defaults);
  }

  /** The value loop of `migrate_custom_attributes`, over the pieces. */
  method InsertCustomValues(db: Database, productId: int, attributeId: int, attributeName: string,
                            values: seq<string>, defaults: seq<map<string, string>>)
    modifies db`attributeValues
    ensures db.attributeValues == old(db.attributeValues)
              + CustomValueRows(productId, attributeId, attributeName, values, defaults)
  {
    ghost var spec := CustomValueRows(productId, attributeId, attributeName, values, defaults);
    var count := 1;
    var i := 0;
    while i < |values|
      invariant 0 <= i <= |values| && count == i + 1
      invariant db.attributeValues == old(db.attributeValues) + spec[..i]
    {
      var row := CustomValue(productId, attributeId, attributeName, values[i], defaults, count);
      assert spec[i] == row;
      PrefixSnoc(spec, i);
      db.attributeValues := db.attributeValues + [row];
      count := count + 1;
      i := i + 1;
    }
    assert spec[..i] == spec;
  }

  /** One iteration of the value loop: the piece trimmed and checked against the defaults. */
  method CustomValue(productId: int, attributeId: int, attributeName: string, piece: string,
                     defaults: seq<map<string, string>>, count: int) returns (row: AttributeValueRow)
    ensures row == AttributeValueRow(productId, attributeId, Trim(piece), count,
                                     IsDefault(defaults, attributeName, Trim(piece)))
  {
    var value := Trim(piece);
    var isDefault := FindDefault(defaults, attributeName, value);
    row := AttributeValueRow(productId, attributeId, value, count, isDefault);
  }

  /**
   * The value rows of a global attribute: the product's terms in order, with
   * priorities 1, 2, ...; a term is flagged when some default entry maps
   * `defaultKey` to its slug.
   */
  function GlobalValueRows(productId: int, attributeId: int, terms: seq<Term>,
                           defaults: seq<map<string, string>>, defaultKey: string): (rows: seq<AttributeValueRow>)
    ensures |rows| == |terms|
    ensures forall i :: 0 <= i < |terms| ==>
              rows[i] == AttributeValueRow(productId, attributeId, terms[i].name, i + 1,
                                           IsDefault(defaults, defaultKey, terms[i].slug))
  {
    seq(|terms|, i requires 0 <= i < |terms| =>
      AttributeValueRow(productId, attributeId, terms[i].name, i + 1, IsDefault(defaults, defaultKey, terms[i].slug)))
  }

  /**
   * `migrate_global_attributes`. The default lookup uses a variable that is
   * never assigned there, which PHP reads as null and uses as the key `''`.
   */
  method MigrateGlobalAttributes(db: Database, legacy: Legacy, productId: int, attributeId: int,
                                 attributeName: string)
    modifies db`attributeValues
    ensures db.attributeValues == old(db.attributeValues)
              + GlobalValueRows(productId, attributeId, ProductTermsOf(legacy, productId, attributeName),
                                DefaultsOf(legacy, productId), "")
  {
    var terms := ProductTermsOf(legacy, productId, attributeName);
    var defaults := DefaultsOf(legacy, productId);
    ghost var spec := GlobalValueRows(productId, attributeId, terms, defaults, "");
    var count := 1;
    var i := 0;
    while i < |terms|
      invariant 0 <= i <= |terms| && count == i + 1
      invariant db.attributeValues == old(db.attributeValues) + spec[..i]
    {
      var isDefault := FindDefault(defaults, "", terms[i].slug);
      assert spec[..i + 1] == spec[..i] + [AttributeValueRow(productId, attributeId, terms[i].name, count, isDefault)];
      db.attributeValues := db.attributeValues + [AttributeValueRow(productId, attributeId, terms[i].name, count, isDefault)];
      count := count + 1;
      i := i + 1;
    }
    assert spec[..i] == spec;
  }

  /**
   * A default recorded under the attribute's own name never flags a global
   * term: only an entry under the key `''` can.
   */
  lemma GlobalDefaultsIgnoreName(productId: int, attributeId: int, terms: seq<Term>,
                                 defaults: seq<map<string, string>>)
    requires forall j :: 0 <= j < |defaults| ==> "" !in defaults[j]
    ensures forall r :: r in GlobalValueRows(productId, attributeId, terms, defaults, "") ==> !r.isDefault
  {
  }

  /** The default `pa_color: red` does not flag the term `red`. */
  lemma GlobalDefaultExample()
    ensures GlobalValueRows(5, 9, [Term("Red", "red", 11)], [map["pa_color" := "red"]], "")
         == [AttributeValueRow(5, 9, "Red", 1, false)]
  {
    GlobalDefaultsIgnoreName(5, 9, [Term("Red", "red", 11)], [map["pa_color" := "red"]]);
  }

  // ---------------------------------------------------------------------
  // Variation attribute values.

  /** `SELECT * FROM posts WHERE post_type = 'product_variation' AND post_parent = parentId`, in storage order. */
  function ChildVariations(posts: seq<Post>, parentId: int): seq<Post>
  {
    if posts == [] then []
    else
      var n := |posts| - 1;
      ChildVariations(posts[..n], parentId)
      + (if posts[n].postType == "product_variation" && posts[n].parent == parentId then [posts[n]] else [])
  }

  /** The selected posts are exactly the stored variations of the parent. */
  lemma {:induction false} ChildVariationsMembers(posts: seq<Post>, parentId: int)
    ensures forall p :: p in ChildVariations(posts, parentId) <==>
              p in posts && p.postType == "product_variation" && p.parent == parentId
  {
    if posts != [] {
      var n := |posts| - 1;
      ChildVariationsMembers(posts[..n], parentId);
      assert posts == posts[..n] + [posts[n]];
    }
  }

  /** The value a variation records for an attribute: `attribute_<name>`, or `''`. */
  function VariationValue(legacy: Legacy, variation: Post, attributeName: string): string
  {
    SingleMeta(legacy, variation.id, "attribute_" + attributeName)
  }

  /** The variation value rows: one per variation whose recorded value is truthy, in order. */
  function VariationRows(legacy: Legacy, variations: seq<Post>, attributeId: int, attributeName: string)
    : seq<VariationValueRow>
  {
    if variations == [] then []
    else
      var n := |variations| - 1;
      var value := VariationValue(legacy, variations[n], attributeName);
      VariationRows(legacy, variations[..n], attributeId, attributeName)
      + (if Truthy(Str(value)) then [VariationValueRow(variations[n].id, Str(value), attributeId)] else [])
  }

  /**
   * A variation gets a row exactly when its recorded value is truthy, so
   * `''` and `'0'` give none; the row holds that value and the attribute.
   */
  lemma {:induction false} VariationRowsMembers(legacy: Legacy, variations: seq<Post>, attributeId: int,
                                                attributeName: string)
    ensures forall r :: r in VariationRows(legacy, variations, attributeId, attributeName) <==>
              exists v :: v in variations && Truthy(Str(VariationValue(legacy, v, attributeName)))
                          && r == VariationValueRow(v.id, Str(VariationValue(legacy, v, attributeName)), attributeId)
  {
    if variations != [] {
      var n := |variations| - 1;
      VariationRowsMembers(legacy, variations[..n], attributeId, attributeName);
      assert variations == variations[..n] + [variations[n]];
    }
  }

  lemma VariationRowsStep(legacy: Legacy, variations: seq<Post>, attributeId: int, attributeName: string, i: nat)
    requires i < |variations|
    ensures var value := VariationValue(legacy, variations[i], attributeName);
            VariationRows(legacy, variations[..i + 1], attributeId, attributeName)
              == VariationRows(legacy, variations[..i], attributeId, attributeName)
                 + (if Truthy(Str(value)) then [VariationValueRow(variations[i].id, Str(value), attributeId)] else [])
  {
    assert variations[..i + 1][..i] == variations[..i];
  }

  /** `migrate_variation_attribute_values`. */
  method MigrateVariationAttributeValues(db: Database, legacy: Legacy, parentId: int, attributeId: int,
                                         attributeName: string)
    modifies db`variationValues
    ensures db.variationValues == old(db.variationValues)
              + VariationRows(legacy, ChildVariations(db.posts, parentId), attributeId, attributeName)
  {
    var variableProducts := ChildVariations(db.posts, parentId);
    ghost var start := db.variationValues;
    var i := 0;
    while i < |variableProducts|
      invariant 0 <= i <= |variableProducts|
      invariant db.variationValues == start + VariationRows(legacy, variableProducts[..i], attributeId, attributeName)
    {
      var variation := variableProducts[i];
      var value := SingleMeta(legacy, variation.id, "attribute_" + attributeName);
      VariationRowsStep(legacy, variableProducts, attributeId, attributeName, i);
      if Truthy(Str(value)) {
        db.variationValues := db.variationValues + [VariationValueRow(variation.id, Str(value), attributeId)];
      }
      i := i + 1;
    }
    assert variableProducts[..i] == variableProducts;
  }

  // ---------------------------------------------------------------------
  // The attribute loop.

  /** `get_post_meta( id, '_product_attributes', true )`: the entries in stored order, none when absent. */
  function AttributesOf(legacy: Legacy, id: int): seq<(string, ProductAttribute)>
  {
    Lookup(legacy.productAttributes, id, [])
  }

  /**
   * The `taxonomy_id` written for a global attribute. The `get_terms` call
   * restricts the terms to a product id variable that is never assigned, so
   * it is not restricted at all: the first term of the whole taxonomy is
   * taken, and a taxonomy without terms gives null.
   */
  function TaxonomyIdOf(legacy: Legacy, taxonomy: string): Value
  {
    var terms := Lookup(legacy.taxonomyTerms, taxonomy, []);
    if terms == [] then Null else Int(terms[0].termTaxonomyId)
  }

  /** The `wc_product_attributes` row of the attribute entry `(key, attr)`, inserted with the id `id`. */
  function AttributeRowOf(legacy: Legacy, productId: int, entry: (string, ProductAttribute), id: int): AttributeRow
  {
    AttributeRow(id, productId, entry.1.name, entry.1.isVisible, entry.1.isVariation,
                 if IsGlobal(entry.0) then TaxonomyIdOf(legacy, entry.0) else Null)
  }

  /** The attribute rows of a product: entry `i` gets the id `firstId + i`. */
  function AttributeRows(legacy: Legacy, productId: int, attrs: seq<(string, ProductAttribute)>,
                         firstId: int): (rows: seq<AttributeRow>)
    ensures |rows| == |attrs|
    ensures forall i :: 0 <= i < |attrs| ==> rows[i] == AttributeRowOf(legacy, productId, attrs[i], firstId + i)
  {
    seq(|attrs|, i requires 0 <= i < |attrs| => AttributeRowOf(legacy, productId, attrs[i], firstId + i))
  }

  /**
   * The value rows of the attribute with key `key` and id `attributeId`:
   * the product's terms for a global one, and for a custom one the pieces
   * of its values string, which the loop reads from a variable that is
   * never assigned there, that is from `''`.
   */
  function ValueRowsOf(legacy: Legacy, productId: int, key: string, attributeId: int): seq<AttributeValueRow>
  {
    if IsGlobal(key) then
      GlobalValueRows(productId, attributeId, ProductTermsOf(legacy, productId, key), DefaultsOf(legacy, productId), "")
    else
      CustomValueRows(productId, attributeId, key, Explode('|', ""), DefaultsOf(legacy, productId))
  }

  /** The variation value rows of an attribute: only a `product` post looks for its variations. */
  function VariationRowsOf(legacy: Legacy, posts: seq<Post>, product: Post, key: string, attributeId: int)
    : seq<VariationValueRow>
  {
    if product.postType == "product" then VariationRows(legacy, ChildVariations(posts, product.id), attributeId, key)
    else []
  }

  /**
   * The rows `rowsOf` gives for each attribute entry in turn, concatenated;
   * entry `i` has the id `firstId + i`.
   */
  function Concatenated<T>(attrs: seq<(string, ProductAttribute)>, firstId: int, rowsOf: (string, int) -> seq<T>)
    : seq<T>
  {
    if attrs == [] then []
    else
      var n := |attrs| - 1;
      Concatenated(attrs[..n], firstId, rowsOf) + rowsOf(attrs[n].0, firstId + n)
  }

  lemma ConcatenatedStep<T>(attrs: seq<(string, ProductAttribute)>, firstId: int, rowsOf: (string, int) -> seq<T>,
                            i: nat)
    requires i < |attrs|
    ensures Concatenated(attrs[..i + 1], firstId, rowsOf)
         == Concatenated(attrs[..i], firstId, rowsOf) + rowsOf(attrs[i].0, firstId + i)
  {
    assert attrs[..i + 1][..i] == attrs[..i];
  }

  /** `ValueRowsOf` for one product, as a function of the key and the attribute id. */
  function ValueRowsFor(legacy: Legacy, productId: int): (string, int) -> seq<AttributeValueRow>
  {
    (key: string, attributeId: int) => ValueRowsOf(legacy, productId, key, attributeId)
  }

  /** `VariationRowsOf` for one product, as a function of the key and the attribute id. */
  function VariationRowsFor(legacy: Legacy, posts: seq<Post>, product: Post): (string, int) -> seq<VariationValueRow>
  {
    (key: string, attributeId: int) => VariationRowsOf(legacy, posts, product, key, attributeId)
  }

  /** The value rows of all the attributes, attribute `i` having the id `firstId + i`. */
  function AllValueRows(legacy: Legacy, productId: int, attrs: seq<(string, ProductAttribute)>,
                        firstId: int): seq<AttributeValueRow>
  {
    Concatenated(attrs, firstId, ValueRowsFor(legacy, productId))
  }

  /** The variation value rows of all the attributes, attribute `i` having the id `firstId + i`. */
  function AllVariationRows(legacy: Legacy, posts: seq<Post>, product: Post, attrs: seq<(string, ProductAttribute)>,
                            firstId: int): seq<VariationValueRow>
  {
    Concatenated(attrs, firstId, VariationRowsFor(legacy, posts, product))
  }

  /** One more attribute entry: one more attribute row. */
  lemma AttributeRowsStep(legacy: Legacy, productId: int, attrs: seq<(string, ProductAttribute)>, firstId: int, i: nat)
    requires i < |attrs|
    ensures AttributeRows(legacy, productId, attrs[..i + 1], firstId)
         == AttributeRows(legacy, productId, attrs[..i], firstId) + [AttributeRowOf(legacy, productId, attrs[i], firstId + i)]
  {
  }

  /** One more attribute entry: its value rows follow those of the earlier entries. */
  lemma ValueRowsStep(legacy: Legacy, productId: int, attrs: seq<(string, ProductAttribute)>, firstId: int, i: nat)
    requires i < |attrs|
    ensures AllValueRows(legacy, productId, attrs[..i + 1], firstId)
         == AllValueRows(legacy, productId, attrs[..i], firstId) + ValueRowsOf(legacy, productId, attrs[i].0, firstId + i)
  {
    ConcatenatedStep(attrs, firstId, ValueRowsFor(legacy, productId), i);
  }

  /** One more attribute entry: its variation value rows follow those of the earlier entries. */
  lemma VariationRowsOfStep(legacy: Legacy, posts: seq<Post>, product: Post, attrs: seq<(string, ProductAttribute)>,
                            firstId: int, i: nat)
    requires i < |attrs|
    ensures AllVariationRows(legacy, posts, product, attrs[..i + 1], firstId)
         == AllVariationRows(legacy, posts, product, attrs[..i], firstId)
            + VariationRowsOf(legacy, posts, product, attrs[i].0, firstId + i)
  {
    ConcatenatedStep(attrs, firstId, VariationRowsFor(legacy, posts, product), i);
  }

  lemma AppendAssociates<T>(a: seq<T>, b: seq<T>, c: seq<T>)
    ensures a + b + c == a + (b + c)
  {
  }

  lemma PrefixSnoc<T>(s: seq<T>, i: nat)
    requires i < |s|
    ensures s[..i + 1] == s[..i] + [s[i]]
  {
  }

  /**
   * One iteration of the attribute loop, for the entry `(key, attr)`: the
   * attribute row is inserted with the next id, then the value rows of a
   * global or a custom attribute, then, for a `product` post, the variation
   * values.
   */
  method MigrateAttribute(db: Database, legacy: Legacy, product: Post, entry: (string, ProductAttribute))
    requires db.Valid()
    modifies db`attributes, db`nextAttributeId, db`attributeValues, db`variationValues
    ensures db.Valid() && db.nextAttributeId == old(db.nextAttributeId) + 1
    ensures db.attributes == old(db.attributes) + [AttributeRowOf(legacy, product.id, entry, old(db.nextAttributeId))]
    ensures db.attributeValues
         == old(db.attributeValues) + ValueRowsOf(legacy, product.id, entry.0, old(db.nextAttributeId))
    ensures db.variationValues
         == old(db.variationValues) + VariationRowsOf(legacy, db.posts, product, entry.0, old(db.nextAttributeId))
  {
    var (key, attr) := entry;
    var taxonomyId := Null;
    var isGlobal := false;
    if Contains(key, "pa_") {
      taxonomyId := TaxonomyIdOf(legacy, key);
      isGlobal := true;
    }
    var attributeId := db.InsertAttribute(product.id, attr.name, attr.isVisible, attr.isVariation, taxonomyId);
    MigrateAttributeValues(db, legacy, product.id, attributeId, key, isGlobal);
    MigrateVariationsOf(db, legacy, product, attributeId, key);
  }

  /** The attribute loop's state after entry `i`, from its state before it. */
  method MigrateAttributeAt(db: Database, legacy: Legacy, product: Post, attrs: seq<(string, ProductAttribute)>,
                            i: nat, ghost firstId: int, ghost rows: seq<AttributeRow>,
                            ghost values: seq<AttributeValueRow>, ghost variations: seq<VariationValueRow>)
    requires i < |attrs| && db.Valid() && db.nextAttributeId == firstId + i
    requires db.attributes == rows + AttributeRows(legacy, product.id, attrs[..i], firstId)
    requires db.attributeValues == values + AllValueRows(legacy, product.id, attrs[..i], firstId)
    requires db.variationValues == variations + AllVariationRows(legacy, db.posts, product, attrs[..i], firstId)
    modifies db`attributes, db`nextAttributeId, db`attributeValues, db`variationValues
    ensures db.Valid() && db.nextAttributeId == firstId + i + 1
    ensures db.attributes == rows + AttributeRows(legacy, product.id, attrs[..i + 1], firstId)
    ensures db.attributeValues == values + AllValueRows(legacy, product.id, attrs[..i + 1], firstId)
    ensures db.variationValues == variations + AllVariationRows(legacy, db.posts, product, attrs[..i + 1], firstId)
  {
    ghost var posts := db.posts;
    AttributeRowsStep(legacy, product.id, attrs, firstId, i);
    ValueRowsStep(legacy, product.id, attrs, firstId, i);
    VariationRowsOfStep(legacy, posts, product, attrs, firstId, i);
    MigrateAttribute(db, legacy, product, attrs[i]);
    AppendAssociates(rows, AttributeRows(legacy, product.id, attrs[..i], firstId),
                     [AttributeRowOf(legacy, product.id, attrs[i], firstId + i)]);
    AppendAssociates(values, AllValueRows(legacy, product.id, attrs[..i], firstId),
                     ValueRowsOf(legacy, product.id, attrs[i].0, firstId + i));
    AppendAssociates(variations, AllVariationRows(legacy, posts, product, attrs[..i], firstId),
                     VariationRowsOf(legacy, posts, product, attrs[i].0, firstId + i));
  }

  /** The value rows of one attribute, by the kind the attribute loop found. */
  method MigrateAttributeValues(db: Database, legacy: Legacy, productId: int, attributeId: int, key: string,
                                isGlobal: bool)
    requires isGlobal == IsGlobal(key)
    modifies db`attributeValues
    ensures db.attributeValues == old(db.attributeValues) + ValueRowsOf(legacy, productId, key, attributeId)
  {
    if isGlobal {
      MigrateGlobalAttributes(db, legacy, productId, attributeId, key);
    } else {
      MigrateCustomAttributes(db, legacy, productId, attributeId, key, "");
    }
  }

  /** The variation guard of the attribute loop: only a `product` post looks for its variations. */
  method MigrateVariationsOf(db: Database, legacy: Legacy, product: Post, attributeId: int, key: string)
    modifies db`variationValues
    ensures db.variationValues == old(db.variationValues) + VariationRowsOf(legacy, db.posts, product, key, attributeId)
  {
    if product.postType == "product" {
      MigrateVariationAttributeValues(db, legacy, product.id, attributeId, key);
    } else {
      assert db.variationValues + [] == db.variationValues;
    }
  }

  /**
   * `migrate_attributes`: every attribute entry of the product, in stored
   * order, becomes an attribute row with a fresh consecutive id, followed
   * by its value rows and, for a `product` post, its variation value rows.
   */
  method MigrateAttributes(db: Database, legacy: Legacy, product: Post)
    requires db.Valid()
    modifies db`attributes, db`nextAttributeId, db`attributeValues, db`variationValues
    ensures db.Valid()
    ensures db.nextAttributeId == old(db.nextAttributeId) + |AttributesOf(legacy, product.id)|
    ensures db.attributes
         == old(db.attributes) + AttributeRows(legacy, product.id, AttributesOf(legacy, product.id), old(db.nextAttributeId))
    ensures db.attributeValues
         == old(db.attributeValues) + AllValueRows(legacy, product.id, AttributesOf(legacy, product.id), old(db.nextAttributeId))
    ensures db.variationValues
         == old(db.variationValues)
            + AllVariationRows(legacy, db.posts, product, AttributesOf(legacy, product.id), old(db.nextAttributeId))
  {
    var attrs := AttributesOf(legacy, product.id);
    if attrs == [] {
      return;
    }
    ghost var firstId := db.nextAttributeId;
    ghost var rows := db.attributes;
    ghost var values := db.attributeValues;
    ghost var variations := db.variationValues;
    assert attrs[..0] == [];
    var i := 0;
    while i < |attrs|
      invariant 0 <= i <= |attrs|
      invariant db.Valid() && db.nextAttributeId == firstId + i
      invariant db.attributes == rows + AttributeRows(legacy, product.id, attrs[..i], firstId)
      invariant db.attributeValues == values + AllValueRows(legacy, product.id, attrs[..i], firstId)
      invariant db.variationValues == variations + AllVariationRows(legacy, db.posts, product, attrs[..i], firstId)
    {
      MigrateAttributeAt(db, legacy, product, attrs, i, firstId, rows, values, variations);
      i := i + 1;
    }
    assert attrs[..i] == attrs;
  }

  /**
   * A custom attribute gets exactly one value row, the empty value with
   * priority 1, whatever its values string holds.
   */
  lemma CustomAttributeHasEmptyValue(legacy: Legacy, productId: int, key: string, attributeId: int)
    requires !IsGlobal(key)
    ensures ValueRowsOf(legacy, productId, key, attributeId)
         == [AttributeValueRow(productId, attributeId, "", 1, IsDefault(DefaultsOf(legacy, productId), key, ""))]
  {
    assert Explode('|', "") == [""];
    assert Trim("") == "";
  }

  /** Every value row belongs to the product and to one of the attribute rows just inserted. */
  lemma {:induction false} AllValueRowsReferToNewAttributes(legacy: Legacy, productId: int,
                                                            attrs: seq<(string, ProductAttribute)>, firstId: int)
    ensures forall r :: r in AllValueRows(legacy, productId, attrs, firstId) ==>
              r.productId == productId && firstId <= r.attributeId < firstId + |attrs|
  {
    if attrs != [] {
      var n := |attrs| - 1;
      AllValueRowsReferToNewAttributes(legacy, productId, attrs[..n], firstId);
    }
  }

  /**
   * Every variation value row belongs to a `product_variation` post whose
   * parent is the product, holds that variation's truthy value and refers
   * to one of the attribute rows just inserted; a post that is not a
   * `product` gets none.
   */
  lemma {:induction false} AllVariationRowsFromChildren(legacy: Legacy, posts: seq<Post>, product: Post,
                                                        attrs: seq<(string, ProductAttribute)>, firstId: int)
    ensures forall r :: r in AllVariationRows(legacy, posts, product, attrs, firstId) ==>
              && product.postType == "product"
              && firstId <= r.attributeId < firstId + |attrs|
              && Truthy(r.value)
              && exists v :: v in posts && v.postType == "product_variation" && v.parent == product.id && v.id == r.productId
  {
    if attrs != [] {
      var n := |attrs| - 1;
      AllVariationRowsFromChildren(legacy, posts, product, attrs[..n], firstId);
      if product.postType == "product" {
        var variations := ChildVariations(posts, product.id);
        VariationRowsMembers(legacy, variations, firstId + n, attrs[n].0);
        ChildVariationsMembers(posts, product.id);
      }
    }
  }

  // ---------------------------------------------------------------------
  // One product, and the whole pass.

  /** `maybe_unserialize` of `_downloadable_files`, none when absent. */
  function FilesOf(legacy: Legacy, id: int): seq<(string, DownloadFile)>
  {
    Lookup(legacy.downloadableFiles, id, [])
  }

  /** The relationship table after the grouped, upsell, cross-sell and image inserts of product `id`, in that order. */
  function ProductEdges(legacy: Legacy, id: int, es: seq<Edge>): seq<Edge>
  {
    var grouped := InsertEdges(es, Prioritised("grouped", id, NonZero(RelationsOf(legacy, id, "_children"))));
    var upsells := InsertEdges(grouped, Prioritised("upsell", id, NonZero(RelationsOf(legacy, id, "_upsell_ids"))));
    var crossSells := InsertEdges(upsells, Prioritised("crosssell", id, NonZero(RelationsOf(legacy, id, "_crosssell_ids"))));
    InsertEdges(crossSells, Prioritised("image", id, GalleryObjectIds(GalleryPieces(GalleryOf(legacy, id)))))
  }

  /** `insert( 'wc_products', row )`: an id that already has a row keeps it, the insert failing. */
  function InsertProductRow(products: map<int, Row>, id: int, row: Row): map<int, Row>
  {
    if id in products then products else products[id := row]
  }

  /** The store after the `wc_products` insert for `post`. */
  function RowMigrated(s: Store, legacy: Legacy, pickPrice: seq<string> -> Value, post: Post): Store
  {
    s.(products := InsertProductRow(s.products, post.id, NormaliseRow(legacy, post.id, pickPrice)))
  }

  /** The store after the download loop for product `id`. */
  function DownloadsMigrated(s: Store, legacy: Legacy, id: int): Store
  {
    var files := FilesOf(legacy, id);
    var metas := MetaOf(legacy, id);
    s.(downloads := s.downloads
                    + DownloadRows(id, files, First(metas, "_download_limit"), First(metas, "_download_expiry"),
                                   s.nextDownloadId),
       nextDownloadId := s.nextDownloadId + |files|,
       permissions := RepointAll(s.permissions, DownloadKeys(files), s.nextDownloadId))
  }

  /** The store after the relationship and image inserts for product `id`. */
  function EdgesMigrated(s: Store, legacy: Legacy, id: int): Store
  {
    s.(relationships := ProductEdges(legacy, id, s.relationships))
  }

  /** The store after `migrate_attributes` for `post`. */
  function AttributesMigrated(s: Store, legacy: Legacy, post: Post): Store
  {
    var attrs := AttributesOf(legacy, post.id);
    s.(attributes := s.attributes + AttributeRows(legacy, post.id, attrs, s.nextAttributeId),
       nextAttributeId := s.nextAttributeId + |attrs|,
       attributeValues := s.attributeValues + AllValueRows(legacy, post.id, attrs, s.nextAttributeId),
       variationValues := s.variationValues + AllVariationRows(legacy, s.posts, post, attrs, s.nextAttributeId))
  }

  /** The store after the loop body of `migrate` has run for `post`. */
  function ProductMigrated(s: Store, legacy: Legacy, pickPrice: seq<string> -> Value, post: Post): Store
  {
    AttributesMigrated(EdgesMigrated(DownloadsMigrated(RowMigrated(s, legacy, pickPrice, post), legacy, post.id),
                                     legacy, post.id), legacy, post)
  }

  /** The `wc_products` insert of the loop body. */
  method MigrateProductRow(db: Database, legacy: Legacy, pickPrice: seq<string> -> Value, post: Post)
    modifies db`products
    ensures db.State() == RowMigrated(old(db.State()), legacy, pickPrice, post)
  {
    var row := NormaliseRow(legacy, post.id, pickPrice);
    if post.id !in db.products {
      db.products := db.products[post.id := row];
    }
  }

  /** The download loop of the loop body, with the product's limit and expiry. */
  method MigrateProductDownloads(db: Database, legacy: Legacy, id: int)
    requires db.Valid()
    modifies db`downloads, db`nextDownloadId, db`permissions
    ensures db.Valid()
    ensures db.State() == DownloadsMigrated(old(db.State()), legacy, id)
  {
    var metas := MetaOf(legacy, id);
    MigrateDownloads(db, id, FilesOf(legacy, id), First(metas, "_download_limit"), First(metas, "_download_expiry"));
  }

  /** The relationship inserts of one product, in the order the loop body makes them. */
  method MigrateProductEdges(db: Database, legacy: Legacy, id: int)
    modifies db`relationships
    ensures db.State() == EdgesMigrated(old(db.State()), legacy, id)
  {
    MigrateRelationship(db, id, "grouped", RelationsOf(legacy, id, "_children"));
    MigrateRelationship(db, id, "upsell", RelationsOf(legacy, id, "_upsell_ids"));
    MigrateRelationship(db, id, "crosssell", RelationsOf(legacy, id, "_crosssell_ids"));
    MigrateGallery(db, id, GalleryOf(legacy, id));
  }

  /** `migrate_attributes` as the loop body calls it. */
  method MigrateProductAttributes(db: Database, legacy: Legacy, post: Post)
    requires db.Valid()
    modifies db`attributes, db`nextAttributeId, db`attributeValues, db`variationValues
    ensures db.Valid()
    ensures db.State() == AttributesMigrated(old(db.State()), legacy, post)
  {
    MigrateAttributes(db, legacy, post);
  }

  /**
   * The loop body of `migrate` for one post: its `wc_products` row, its
   * downloads, its grouped, upsell and cross-sell edges, its images and its
   * attributes.
   */
  method MigrateProduct(db: Database, legacy: Legacy, pickPrice: seq<string> -> Value, post: Post)
    requires db.Valid()
    modifies db`products, db`downloads, db`nextDownloadId, db`permissions, db`relationships,
             db`attributes, db`nextAttributeId, db`attributeValues, db`variationValues
    ensures db.Valid()
    ensures db.State() == ProductMigrated(old(db.State()), legacy, pickPrice, post)
  {
    MigrateProductRow(db, legacy, pickPrice, post);
    MigrateProductDownloads(db, legacy, post.id);
    MigrateProductEdges(db, legacy, post.id);
    MigrateProductAttributes(db, legacy, post);
  }

  /** A post `get_products` looks at: a product or a variation. */
  predicate IsProductPost(p: Post)
  {
    p.postType == "product" || p.postType == "product_variation"
  }

  /** `get_products`: the product and variation posts without a `wc_products` row, in storage order. */
  function Unmigrated(posts: seq<Post>, products: map<int, Row>): seq<Post>
  {
    if posts == [] then []
    else
      var n := |posts| - 1;
      Unmigrated(posts[..n], products) + (if IsProductPost(posts[n]) && posts[n].id !in products then [posts[n]] else [])
  }

  /** The selection is exactly the stored product and variation posts that have no row. */
  lemma {:induction false} UnmigratedMembers(posts: seq<Post>, products: map<int, Row>)
    ensures forall p :: p in Unmigrated(posts, products) <==> p in posts && IsProductPost(p) && p.id !in products
  {
    if posts != [] {
      var n := |posts| - 1;
      UnmigratedMembers(posts[..n], products);
      assert posts == posts[..n] + [posts[n]];
    }
  }

  /** The store after the loop of `migrate` has run over `selection`, in order. */
  function PassMigrated(s: Store, legacy: Legacy, pickPrice: seq<string> -> Value, selection: seq<Post>): Store
  {
    if selection == [] then s
    else
      var n := |selection| - 1;
      ProductMigrated(PassMigrated(s, legacy, pickPrice, selection[..n]), legacy, pickPrice, selection[n])
  }

  lemma PassMigratedSnoc(s: Store, legacy: Legacy, pickPrice: seq<string> -> Value, selection: seq<Post>, i: nat)
    requires i < |selection|
    ensures PassMigrated(s, legacy, pickPrice, selection[..i + 1])
         == ProductMigrated(PassMigrated(s, legacy, pickPrice, selection[..i]), legacy, pickPrice, selection[i])
  {
    assert selection[..i + 1][..i] == selection[..i];
  }

  /**
   * `migrate`: every product and variation post without a `wc_products`
   * row is migrated in storage order; afterwards every such post has a row.
   */
  method Migrate(db: Database, legacy: Legacy, pickPrice: seq<string> -> Value)
    requires db.Valid()
    modifies db
    ensures db.Valid()
    ensures db.State() == PassMigrated(old(db.State()), legacy, pickPrice, Unmigrated(old(db.posts), old(db.products)))
    ensures Unmigrated(db.posts, db.products) == []
  {
    var products := Unmigrated(db.posts, db.products);
    ghost var start := db.State();
    assert products[..0] == [];
    var i := 0;
    while i < |products|
      invariant 0 <= i <= |products| && db.Valid()
      invariant db.State() == PassMigrated(start, legacy, pickPrice, products[..i])
    {
      PassMigratedSnoc(start, legacy, pickPrice, products, i);
      MigrateProduct(db, legacy, pickPrice, products[i]);
      i := i + 1;
    }
    assert products[..i] == products;
    PassLeavesNothingUnmigrated(start, legacy, pickPrice);
  }

  /** The row the pass writes for post `id`. */
  function MigratedRows(legacy: Legacy, pickPrice: seq<string> -> Value): int -> Row
  {
    id => NormaliseRow(legacy, id, pickPrice)
  }

  /** The `wc_products` rows after the inserts of the pass over `selection`, in order, post `id` bringing `rowOf(id)`. */
  function PassRows(products: map<int, Row>, rowOf: int -> Row, selection: seq<Post>): map<int, Row>
  {
    if selection == [] then products
    else
      var n := |selection| - 1;
      InsertProductRow(PassRows(products, rowOf, selection[..n]), selection[n].id, rowOf(selection[n].id))
  }

  /** The loop body keeps the posts, adds the normalised row of a post that has none and changes no other row. */
  lemma ProductMigratedRow(s: Store, legacy: Legacy, pickPrice: seq<string> -> Value, post: Post)
    ensures ProductMigrated(s, legacy, pickPrice, post).posts == s.posts
    ensures ProductMigrated(s, legacy, pickPrice, post).products
         == InsertProductRow(s.products, post.id, MigratedRows(legacy, pickPrice)(post.id))
  {
  }

  /** The pass keeps the posts, and its rows are those of the row inserts alone. */
  lemma {:induction false} PassMigratedRows(s: Store, legacy: Legacy, pickPrice: seq<string> -> Value, selection: seq<Post>)
    ensures PassMigrated(s, legacy, pickPrice, selection).posts == s.posts
    ensures PassMigrated(s, legacy, pickPrice, selection).products
         == PassRows(s.products, MigratedRows(legacy, pickPrice), selection)
  {
    if selection != [] {
      var n := |selection| - 1;
      PassMigratedRows(s, legacy, pickPrice, selection[..n]);
      ProductMigratedRow(PassMigrated(s, legacy, pickPrice, selection[..n]), legacy, pickPrice, selection[n]);
    }
  }

  /** After the row inserts, the ids with a row are those that had one and those of the selection. */
  lemma {:induction false} PassRowsKeys(products: map<int, Row>, rowOf: int -> Row, selection: seq<Post>)
    ensures forall id :: id in PassRows(products, rowOf, selection) <==>
              id in products || exists p :: p in selection && p.id == id
  {
    if selection != [] {
      var n := |selection| - 1;
      PassRowsKeys(products, rowOf, selection[..n]);
      assert selection == selection[..n] + [selection[n]];
    }
  }

  /** After the row inserts a row that existed is unchanged, and every new row is its post's row. */
  lemma {:induction false} PassRowsValues(products: map<int, Row>, rowOf: int -> Row, selection: seq<Post>)
    ensures var r := PassRows(products, rowOf, selection);
            forall id :: id in r ==> r[id] == if id in products then products[id] else rowOf(id)
  {
    if selection != [] {
      var n := |selection| - 1;
      var before := PassRows(products, rowOf, selection[..n]);
      PassRowsValues(products, rowOf, selection[..n]);
      PassRowsKeys(products, rowOf, selection[..n]);
      var r := InsertProductRow(before, selection[n].id, rowOf(selection[n].id));
      forall id | id in r
        ensures r[id] == if id in products then products[id] else rowOf(id)
      {
        if id != selection[n].id {
          assert id in before;
        }
      }
    }
  }

  /**
   * After the pass every selected post has a row, the normalised row of
   * its meta unless it already had one; rows that existed are unchanged
   * and no other row appears.
   */
  lemma PassProducts(s: Store, legacy: Legacy, pickPrice: seq<string> -> Value, selection: seq<Post>)
    ensures var r := PassMigrated(s, legacy, pickPrice, selection).products;
            && (forall id :: id in r <==> id in s.products || exists p :: p in selection && p.id == id)
            && (forall id :: id in r && id !in s.products ==> r[id] == NormaliseRow(legacy, id, pickPrice))
            && (forall id :: id in s.products ==> r[id] == s.products[id])
  {
    PassMigratedRows(s, legacy, pickPrice, selection);
    PassRowsKeys(s.products, MigratedRows(legacy, pickPrice), selection);
    PassRowsValues(s.products, MigratedRows(legacy, pickPrice), selection);
  }

  /** After the row inserts of the pass, `get_products` selects nothing. */
  lemma RowsLeaveNothingUnmigrated(posts: seq<Post>, products: map<int, Row>, rowOf: int -> Row)
    ensures Unmigrated(posts, PassRows(products, rowOf, Unmigrated(posts, products))) == []
  {
    var selection := Unmigrated(posts, products);
    var r := PassRows(products, rowOf, selection);
    PassRowsKeys(products, rowOf, selection);
    UnmigratedMembers(posts, products);
    forall p | p in posts && IsProductPost(p)
      ensures p.id in r
    {
      if p.id !in products {
        assert p in selection;
      }
    }
    AllMigratedSelectsNothing(posts, r);
  }

  /** When every product and variation post has a row, `get_products` selects nothing. */
  lemma {:induction false} AllMigratedSelectsNothing(posts: seq<Post>, products: map<int, Row>)
    requires forall p :: p in posts && IsProductPost(p) ==> p.id in products
    ensures Unmigrated(posts, products) == []
  {
    if posts != [] {
      var n := |posts| - 1;
      assert posts[n] in posts;
      assert forall p :: p in posts[..n] ==> p in posts;
      AllMigratedSelectsNothing(posts[..n], products);
    }
  }

  /** After the pass, `get_products` selects nothing. */
  lemma PassLeavesNothingUnmigrated(s: Store, legacy: Legacy, pickPrice: seq<string> -> Value)
    ensures var r := PassMigrated(s, legacy, pickPrice, Unmigrated(s.posts, s.products));
            Unmigrated(r.posts, r.products) == []
  {
    PassMigratedRows(s, legacy, pickPrice, Unmigrated(s.posts, s.products));
    RowsLeaveNothingUnmigrated(s.posts, s.products, MigratedRows(legacy, pickPrice));
  }

  /** Running the migration a second time changes nothing. */
  lemma SecondPassChangesNothing(s: Store, legacy: Legacy, pickPrice: seq<string> -> Value)
    ensures var r := PassMigrated(s, legacy, pickPrice, Unmigrated(s.posts, s.products));
            PassMigrated(r, legacy, pickPrice, Unmigrated(r.posts, r.products)) == r
  {
    PassLeavesNothingUnmigrated(s, legacy, pickPrice);
  }

  /** The relationship and image inserts keep every stored edge in place. */
  lemma EdgesOnlyAdd(s: Store, legacy: Legacy, id: int)
    ensures var r := EdgesMigrated(s, legacy, id);
            s.relationships <= r.relationships && r.(relationships := s.relationships) == s
  {
    var es0 := s.relationships;
    var es1 := InsertEdges(es0, Prioritised("grouped", id, NonZero(RelationsOf(legacy, id, "_children"))));
    var es2 := InsertEdges(es1, Prioritised("upsell", id, NonZero(RelationsOf(legacy, id, "_upsell_ids"))));
    var es3 := InsertEdges(es2, Prioritised("crosssell", id, NonZero(RelationsOf(legacy, id, "_crosssell_ids"))));
    InsertEdgesExtends(es0, Prioritised("grouped", id, NonZero(RelationsOf(legacy, id, "_children"))));
    InsertEdgesExtends(es1, Prioritised("upsell", id, NonZero(RelationsOf(legacy, id, "_upsell_ids"))));
    InsertEdgesExtends(es2, Prioritised("crosssell", id, NonZero(RelationsOf(legacy, id, "_crosssell_ids"))));
    InsertEdgesExtends(es3, Prioritised("image", id, GalleryObjectIds(GalleryPieces(GalleryOf(legacy, id)))));
  }

  /** The download loop keeps every stored download and the number of permissions. */
  lemma DownloadsOnlyAdd(s: Store, legacy: Legacy, id: int)
    ensures var r := DownloadsMigrated(s, legacy, id);
            && s.downloads <= r.downloads && |r.permissions| == |s.permissions|
            && r.(downloads := s.downloads, permissions := s.permissions, nextDownloadId := s.nextDownloadId) == s
  {
    RepointAllKeepsLength(s.permissions, DownloadKeys(FilesOf(legacy, id)), s.nextDownloadId);
  }

  /**
   * `r` only adds to `s`: the posts, every stored edge, download, attribute,
   * value and variation row and every existing `wc_products` row stay as
   * they were, and the permissions keep their number.
   */
  predicate OnlyAdds(s: Store, r: Store)
  {
    && r.posts == s.posts
    && (forall id :: id in s.products ==> id in r.products && r.products[id] == s.products[id])
    && s.relationships <= r.relationships && s.downloads <= r.downloads && s.attributes <= r.attributes
    && s.attributeValues <= r.attributeValues && s.variationValues <= r.variationValues
    && |r.permissions| == |s.permissions|
  }

  /** The `wc_products` insert keeps every existing row. */
  lemma RowOnlyAdds(s: Store, legacy: Legacy, pickPrice: seq<string> -> Value, post: Post)
    ensures OnlyAdds(s, RowMigrated(s, legacy, pickPrice, post))
  {
  }

  /** The attribute loop only appends attribute, value and variation rows. */
  lemma AttributesOnlyAdd(s: Store, legacy: Legacy, post: Post)
    ensures OnlyAdds(s, AttributesMigrated(s, legacy, post))
  {
  }

  lemma OnlyAddsTransitive(a: Store, b: Store, c: Store)
    requires OnlyAdds(a, b) && OnlyAdds(b, c)
    ensures OnlyAdds(a, c)
  {
  }

  /** The loop body of `migrate` only adds to the store. */
  lemma ProductMigratedOnlyAdds(s: Store, legacy: Legacy, pickPrice: seq<string> -> Value, post: Post)
    ensures OnlyAdds(s, ProductMigrated(s, legacy, pickPrice, post))
  {
    var s1 := RowMigrated(s, legacy, pickPrice, post);
    var s2 := DownloadsMigrated(s1, legacy, post.id);
    var s3 := EdgesMigrated(s2, legacy, post.id);
    var s4 := AttributesMigrated(s3, legacy, post);
    RowOnlyAdds(s, legacy, pickPrice, post);
    assert OnlyAdds(s1, s2) by {
      DownloadsOnlyAdd(s1, legacy, post.id);
    }
    assert OnlyAdds(s2, s3) by {
      EdgesOnlyAdd(s2, legacy, post.id);
    }
    AttributesOnlyAdd(s3, legacy, post);
    OnlyAddsTransitive(s, s1, s2);
    OnlyAddsTransitive(s, s2, s3);
    OnlyAddsTransitive(s, s3, s4);
  }

  /** Re-pointing changes permissions in place and keeps their number. */
  lemma {:induction false} RepointAllKeepsLength(perms: seq<Permission>, keys: seq<string>, firstId: nat)
    ensures |RepointAll(perms, keys, firstId)| == |perms|
  {
    if keys != [] {
      var n := |keys| - 1;
      RepointAllKeepsLength(perms, keys[..n], firstId);
      RepointEffect(RepointAll(perms, keys[..n], firstId), keys[n], DecimalString(firstId + n));
    }
  }
}


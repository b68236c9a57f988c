/**
 * The relational store both components work on: the legacy `wp_posts`
 * table (read only), the `wc_products` row table, the relationship edge
 * table, the download and permission tables and the three attribute tables.
 * Auto-increment identifiers are explicit counters.
 */
module Tables {
  import opened PhpValues

  /** A `wc_products` row: column name to value. */
  type Row = map<string, Value>

  /** A `wc_product_relationships` row: `(type, product_id, object_id, priority)`. */
  datatype Edge = Edge(kind: string, productId: int, objectId: int, priority: int)

  /** A `wp_posts` row, as far as the migration looks at it. */
  datatype Post = Post(id: int, postType: string, parent: int)

  /** A `wc_product_downloads` row. */
  datatype Download = Download(id: int, productId: int, name: Value, url: Value,
                               limit: Value, expires: Value, priority: int)

  /**
   * A `woocommerce_downloadable_product_permissions` row; `download_id` is a
   * text column holding a legacy download key or a download row id.
   */
  datatype Permission = Permission(productId: int, downloadId: string)

  /** A `wc_product_attributes` row; `taxonomyId` is `Null` for a custom attribute. */
  datatype AttributeRow = AttributeRow(id: int, productId: int, name: Value, isVisible: Value,
                                       isVariation: Value, taxonomyId: Value)

  /** A `wc_product_attribute_values` row. */
  datatype AttributeValueRow = AttributeValueRow(productId: int, attributeId: int, value: string,
                                                 priority: int, isDefault: bool)

  /** A `wc_product_variation_attribute_values` row. */
  datatype VariationValueRow = VariationValueRow(productId: int, value: Value, attributeId: int)

  /** The two tables the metadata facade reads and writes. */
  datatype Tables = Tables(products: map<int, Row>, relationships: seq<Edge>)

  /** Everything the migration reads or writes, as one value. */
  datatype Store = Store(
    posts: seq<Post>,
    products: map<int, Row>,
    relationships: seq<Edge>,
    downloads: seq<Download>,
    permissions: seq<Permission>,
    attributes: seq<AttributeRow>,
    attributeValues: seq<AttributeValueRow>,
    variationValues: seq<VariationValueRow>,
    nextDownloadId: nat,
    nextAttributeId: nat)

  class Database {
    var posts: seq<Post>
    var products: map<int, Row>
    var relationships: seq<Edge>
    var downloads: seq<Download>
    var permissions: seq<Permission>
    var attributes: seq<AttributeRow>
    var attributeValues: seq<AttributeValueRow>
    var variationValues: seq<VariationValueRow>
    var nextDownloadId: nat
    var nextAttributeId: nat

    /** Auto-increment counters stay ahead of every identifier already issued. */
    ghost predicate Valid()
      reads this`nextDownloadId, this`downloads, this`nextAttributeId, this`attributes
    {
      && 0 < nextDownloadId
      && (forall d :: d in downloads ==> 0 < d.id < nextDownloadId)
      && 0 < nextAttributeId
      && (forall a :: a in attributes ==> 0 < a.id < nextAttributeId)
    }

    constructor (posts: seq<Post>, permissions: seq<Permission>)
      ensures Valid()
      ensures this.posts == posts && this.permissions == permissions
      ensures products == map[] && relationships == [] && downloads == []
      ensures attributes == [] && attributeValues == [] && variationValues == []
    {
      this.posts := posts;
      this.permissions := permissions;
      products := map[];
      relationships := [];
      downloads := [];
      attributes := [];
      attributeValues := [];
      variationValues := [];
      nextDownloadId := 1;
      nextAttributeId := 1;
    }

    /** The facade's view of the store. */
    function View(): (t: Tables)
      reads this
      ensures t.products == products && t.relationships == relationships
    {
      Tables(products, relationships)
    }

    /** The whole store, as a value. */
    function State(): Store
      reads this
    {
      Store(posts, products, relationships, downloads, permissions, attributes, attributeValues,
            variationValues, nextDownloadId, nextAttributeId)
    }

    /** `insert( 'wc_product_downloads', ... )`, returning the new row's fresh id. */
    method InsertDownload(productId: int, name: Value, url: Value, limit: Value, expires: Value,
                          priority: int) returns (id: int)
      requires Valid()
      modifies this`downloads, this`nextDownloadId
      ensures Valid()
      ensures id == old(nextDownloadId) && nextDownloadId == id + 1
      ensures forall d :: d in old(downloads) ==> d.id != id
      ensures downloads == old(downloads) + [Download(id, productId, name, url, limit, expires, priority)]
    {
      id := nextDownloadId;
      downloads := downloads + [Download(id, productId, name, url, limit, expires, priority)];
      nextDownloadId := nextDownloadId + 1;
    }

    /** `insert( 'wc_product_attributes', ... )`, returning the new row's fresh id. */
    method InsertAttribute(productId: int, name: Value, isVisible: Value, isVariation: Value,
                           taxonomyId: Value) returns (id: int)
      requires Valid()
      modifies this`attributes, this`nextAttributeId
      ensures Valid()
      ensures id == old(nextAttributeId) && nextAttributeId == id + 1
      ensures forall a :: a in old(attributes) ==> a.id != id
      ensures attributes == old(attributes) + [AttributeRow(id, productId, name, isVisible, isVariation, taxonomyId)]
    {
      id := nextAttributeId;
      attributes := attributes + [AttributeRow(id, productId, name, isVisible, isVariation, taxonomyId)];
      nextAttributeId := nextAttributeId + 1;
    }
  }
}

# WooCommerce product tables: metadata facade and data migration

This project models two parts of the WooCommerce product-tables plugin.

**The backwards-compatibility facade** (`WC_Product_Tables_Backwards_Compatibility`)
hooks into WordPress's post-meta filters. Reads and writes of a fixed set of
product meta keys are redirected to the new `wc_products` row table and the
`wc_product_relationships` edge table. Every other key falls through to the
regular meta store.

**The migration** (`WC_Product_Tables_Migrate_Data`) runs one pass over the
product and variation posts that have no `wc_products` row yet. For each one it
writes:

- the product row;
- the download rows, repointing customer download permissions to them;
- the grouped, upsell, cross-sell and gallery-image edges;
- the attribute rows, with their value rows and variation value rows.

The Dafny modules follow the plugin's structure:

- `PhpValues` (`php_values.dfy`) has PHP values, truthiness and the lookup-with-default idiom.
- `PhpStrings` (`php_strings.dfy`) has `explode`, `trim`, `strpos`, and the conversion MySQL
  applies when a string is stored in an integer column.
- `Tables` (`tables.dfy`) is the relational store. A `Database` class holds one field per
  table, and its auto-increment counters are explicit.
- `Registry` (`registry.dfy`) is the key-to-adapter table returned by `get_mapping`.
- `RelationshipTable` (`relationship_table.dfy`) is the algebra of the edge table: selection,
  deletion, `REPLACE`, and the list replacement `update_relationship_table` performs.
- `Facade` (`facade.dfy`) has the four storage adapters, the four filter callbacks and the
  `ProductTablesCompatibility` class with its registration guard.
- `MigrateData` (`migrate_data.dfy`) has the migration. Each loop of the PHP code is a
  `method` proved against a specification function on the whole store. The lemmas then
  prove properties of those functions: read-back through the facade, what is kept, and
  that the pass is idempotent.

Some quirks of the code are reproduced on purpose and stated as lemmas:

- Relationship priorities written by the facade are 0-based. Those written by the
  migration start at 1.
- The facade's delete step ignores the relationship type.
- The migration reads misspelled or differently named legacy keys: `_lenght`,
  `_date_on_sale`, `_date_on_sale_to` and `_average_rating`.
- Two variables are never assigned: the product id in the taxonomy lookup, and the
  default-attribute key of global attributes.
- Custom attributes take their values from an unassigned variable.

## Model

| member | source | states |
|---|---|---|
| PhpValues.Lookup | includes/class-wc-product-tables-migrate-data.php:32-46 | definition, no property of its own: `isset( $m[k] ) ? $m[k] : default`: the stored value when the key is present, else the default |
| PhpStrings.Explode | includes/class-wc-product-tables-migrate-data.php:295 | `explode` yields one more piece than there are separators, and no piece contains the separator |
| PhpStrings.ImplodeExplode | includes/class-wc-product-tables-migrate-data.php:295 | exploding loses nothing: gluing the pieces back with the separator gives the input |
| PhpStrings.ExplodeWhole | includes/class-wc-product-tables-migrate-data.php:97 | a string without the separator explodes to itself alone |
| PhpStrings.ExplodeFirstPiece | includes/class-wc-product-tables-migrate-data.php:97 | the first separator ends the first piece |
| PhpStrings.TrimStart | includes/class-wc-product-tables-migrate-data.php:302 | `ltrim` returns a suffix that starts with no trim character, and everything it removed is a trim character |
| PhpStrings.TrimEnd | includes/class-wc-product-tables-migrate-data.php:302 | `rtrim` returns a prefix that ends with no trim character, and everything it removed is a trim character |
| PhpStrings.Trim | includes/class-wc-product-tables-migrate-data.php:302 | `trim` returns a string no longer than the input whose first and last characters are not trim characters |
| PhpStrings.TrimBounds | includes/class-wc-product-tables-migrate-data.php:302 | the trimmed string is the infix `s[i..j]`, and everything before `i` and from `j` on is a trim character |
| PhpStrings.TrimInfix | includes/class-wc-product-tables-migrate-data.php:302 | the same fact, stated as an existence |
| PhpStrings.Contains | includes/class-wc-product-tables-migrate-data.php:230 | `strpos( s, sub ) !== false` holds exactly when `sub` occurs at some position of `s` |
| PhpStrings.LeadingDigits | includes/class-wc-product-tables-migrate-data.php:105-110 | the longest all-digit prefix: a prefix, all digits, followed by a non-digit or the end |
| PhpStrings.DecimalString | includes/class-wc-product-tables-migrate-data.php:66-75 | an integer written into a text column is a non-empty run of digits that reads back as the integer |
| PhpStrings.LeadingDigitsOfDigits | includes/class-wc-product-tables-migrate-data.php:105-110 | an all-digit string is its own leading-digit run |
| PhpStrings.StoredDecimal | includes/class-wc-product-tables-migrate-data.php:105-110 | a decimal spelling stored into an integer column is stored as the number it spells |
| PhpStrings.DecimalHasNo | includes/class-wc-product-tables-migrate-data.php:66-75 | a decimal spelling contains no non-digit character |
| Tables.Database.constructor | includes/class-wc-product-tables-migrate-data.php:17-24 | a fresh store holds the given posts and permissions, empty new tables and counters at 1 |
| Tables.Database.View | includes/class-wc-product-tables-backwards-compatibility.php:158-271 | definition, no property of its own: the facade sees exactly the `wc_products` rows and the relationship edges |
| Tables.Database.InsertDownload | includes/class-wc-product-tables-migrate-data.php:142-146 | `insert()` into `wc_product_downloads` appends one row and returns a fresh id different from every stored one, keeping ids below the counter |
| Tables.Database.InsertAttribute | includes/class-wc-product-tables-migrate-data.php:142-146 | `insert()` into `wc_product_attributes` appends one row and returns a fresh id different from every stored one, keeping ids below the counter |
| Registry.GetMapping | includes/class-wc-product-tables-backwards-compatibility.php:273-643 | every mapped key's get, add, update and delete adapters use one column (or one relationship type), and add and update bind the caller's value |
| Registry.MappedKeys | includes/class-wc-product-tables-backwards-compatibility.php:273-643 | exactly twenty keys are mapped, and all but `_upsell_ids` are column keys |
| Registry.DeleteDefaults | includes/class-wc-product-tables-backwards-compatibility.php:400-640 | deleting writes the default: `taxable`, `instock`, `0`, the string `NULL` for prices, and the empty list for upsells |
| RelationshipTable.Drop | includes/class-wc-product-tables-backwards-compatibility.php:237-247 | deleting edges never makes the table longer |
| RelationshipTable.EdgesOf | includes/class-wc-product-tables-backwards-compatibility.php:211-214 | selecting one product's edges of one type never returns more edges than are stored |
| RelationshipTable.Ids | includes/class-wc-product-tables-backwards-compatibility.php:211-214 | definition, no property of its own: the object ids of a list of edges, position by position |
| RelationshipTable.Enumerated | includes/class-wc-product-tables-backwards-compatibility.php:250-268 | element `i` of the given list becomes an edge with priority `i`, counted from 0 |
| RelationshipTable.ArrayDiff | includes/class-wc-product-tables-backwards-compatibility.php:233-234 | `array_diff` keeps exactly the stored ids that are not in the new list |
| RelationshipTable.DropMembers | includes/class-wc-product-tables-backwards-compatibility.php:237-247 | an edge survives the delete exactly when it was stored and the delete does not hit it |
| RelationshipTable.EdgesOfMembers | includes/class-wc-product-tables-backwards-compatibility.php:211-214 | the selection holds exactly the stored edges of that type and product |
| RelationshipTable.DropConcat | includes/class-wc-product-tables-backwards-compatibility.php:237-247 | deleting distributes over concatenation |
| RelationshipTable.DropTwice | includes/class-wc-product-tables-backwards-compatibility.php:237-247 | two deletes equal one delete of the union of the ids |
| RelationshipTable.DropNothing | includes/class-wc-product-tables-backwards-compatibility.php:237-247 | a delete that hits no edge leaves the table unchanged |
| RelationshipTable.DropEverything | includes/class-wc-product-tables-backwards-compatibility.php:237-247 | a delete that hits every edge empties the table |
| RelationshipTable.EdgesOfConcat | includes/class-wc-product-tables-backwards-compatibility.php:211-214 | selection distributes over concatenation |
| RelationshipTable.EdgesOfDrop | includes/class-wc-product-tables-backwards-compatibility.php:211-247 | selecting after a delete equals deleting from the selection |
| RelationshipTable.EdgesOfEmpty | includes/class-wc-product-tables-backwards-compatibility.php:211-214 | a table with no edge of that type and product selects nothing |
| RelationshipTable.EdgesOfWhole | includes/class-wc-product-tables-backwards-compatibility.php:211-214 | a table made only of that type and product selects everything |
| RelationshipTable.ReplacedEdgesShape | includes/class-wc-product-tables-backwards-compatibility.php:250-268 | every edge the `REPLACE` loop writes has the type, the product and the priority of its position in the list |
| RelationshipTable.ReplacedEdgesExact | includes/class-wc-product-tables-backwards-compatibility.php:250-268 | for a list without duplicates, the loop writes exactly the 0-based enumeration of the list |
| RelationshipTable.StoredIdSelected | includes/class-wc-product-tables-backwards-compatibility.php:232 | a stored edge's object id is among those selected for its type and product |
| RelationshipTable.NoOldEdgesRemain | includes/class-wc-product-tables-backwards-compatibility.php:232-268 | after both deletes, no edge of that type and product remains |
| RelationshipTable.ReplaceListReadBack | includes/class-wc-product-tables-backwards-compatibility.php:217-271 | after an update with a list without duplicates, that product's edges of that type are exactly the list, in order, with priorities 0, 1, ... |
| RelationshipTable.ReplaceListOtherProducts | includes/class-wc-product-tables-backwards-compatibility.php:217-271 | other products' edges of every type are untouched |
| RelationshipTable.ReplaceListOtherKinds | includes/class-wc-product-tables-backwards-compatibility.php:237-247 | the product's edges of other types lose exactly the edges to the objects that were missing from the new list |
| RelationshipTable.ReplaceListOwnEdges | includes/class-wc-product-tables-backwards-compatibility.php:250-268 | the product's own edges of that type are exactly those written by the `REPLACE` loop |
| RelationshipTable.ReplaceListNothingMissing | includes/class-wc-product-tables-backwards-compatibility.php:232-234 | after an update, a second update with the same list has nothing to delete |
| RelationshipTable.ReplaceListNothingToDelete | includes/class-wc-product-tables-backwards-compatibility.php:237-268 | when nothing is missing, the update is the `REPLACE` loop alone |
| RelationshipTable.ReplacePrefixStable | includes/class-wc-product-tables-backwards-compatibility.php:250-268 | repeating the `REPLACE` loop on its own output changes nothing |
| RelationshipTable.ReplaceListIdempotent | includes/class-wc-product-tables-backwards-compatibility.php:217-271 | updating twice with the same list is the same as updating once |
| RelationshipTable.ReplaceListDeletesAcrossTypes | includes/class-wc-product-tables-backwards-compatibility.php:237-247 | emptying the upsells of a product also deletes its cross-sell edge to the same object |
| RelationshipTable.Prioritised | includes/class-wc-product-tables-migrate-data.php:164-178 | element `i` of the list becomes an edge with priority `i + 1` |
| RelationshipTable.PrioritisedReadBack | includes/class-wc-product-tables-migrate-data.php:164-178 | appending the prioritised edges appends exactly the list to that product's selected ids |
| RelationshipTable.InsertPrioritisedFresh | includes/class-wc-product-tables-migrate-data.php:164-178 | when no id in the list is stored yet and the list has no duplicates, every `INSERT` succeeds and the edges are appended |
| RelationshipTable.InsertEdgesExtends | includes/class-wc-product-tables-migrate-data.php:164-178 | inserts keep every stored edge in place and add only edges from the inserted list |
| Facade.AsValues | includes/class-wc-product-tables-backwards-compatibility.php:211-214 | definition, no property of its own: each selected id is returned as an integer value, in order |
| Facade.ColumnRead | includes/class-wc-product-tables-backwards-compatibility.php:158-173 | `get_from_product_table` returns nothing for an empty column or a zero id; otherwise it returns one result, the stored column value, exactly when the product has a row |
| Facade.ColumnReadAsWritten | includes/class-wc-product-tables-backwards-compatibility.php:171-172 | the query as written returns as many results as the intended one, each being the column's name |
| Facade.ColumnWrite | includes/class-wc-product-tables-backwards-compatibility.php:175-198 | `update_in_product_table` reports success exactly when the arguments are set, the row exists and the value changes; it changes only that column of that row |
| Facade.RelationshipRead | includes/class-wc-product-tables-backwards-compatibility.php:200-215 | `get_from_relationship_table` returns nothing for empty arguments; otherwise only object ids of stored edges of that type and product |
| Facade.RelationshipWrite | includes/class-wc-product-tables-backwards-compatibility.php:217-271 | `update_relationship_table` succeeds exactly when the type and id are set and the value is an array; on failure the table is unchanged |
| Facade.Write | includes/class-wc-product-tables-backwards-compatibility.php:90-95 | a column adapter leaves the edges untouched, and a relationship adapter leaves the rows untouched |
| Facade.GetMetadata | includes/class-wc-product-tables-backwards-compatibility.php:39-62 | an unmapped key passes the filter result through; a mapped key is answered from the tables, as a single value exactly when one is asked for |
| Facade.SingleReadIsFirstRow | includes/class-wc-product-tables-backwards-compatibility.php:53-59 | a single read is the first of all results, or `''` when there are none |
| Facade.ProductTablesCompatibility.constructor | includes/class-wc-product-tables-backwards-compatibility.php:18-28 | the filters are registered exactly when the migration is not running |
| Facade.ProductTablesCompatibility.UpdateInProductTable | includes/class-wc-product-tables-backwards-compatibility.php:175-198 | the method's result and the new rows are those of `ColumnWrite` |
| Facade.ProductTablesCompatibility.UpdateRelationshipTable | includes/class-wc-product-tables-backwards-compatibility.php:217-271 | the delete loop and the `REPLACE` loop together give exactly `RelationshipWrite` |
| Facade.ProductTablesCompatibility.CallSetter | includes/class-wc-product-tables-backwards-compatibility.php:90-95 | `call_user_func` on a setter gives `Write`'s result and tables |
| Facade.ProductTablesCompatibility.AddMetadataToTables | includes/class-wc-product-tables-backwards-compatibility.php:74-96 | an unmapped key passes through; a unique add of a key already present returns false and writes nothing; otherwise the add adapter runs |
| Facade.ProductTablesCompatibility.UpdateMetadataInTables | includes/class-wc-product-tables-backwards-compatibility.php:108-126 | an unmapped key passes through; otherwise the update adapter runs with the new value, ignoring the previous value |
| Facade.ProductTablesCompatibility.DeleteMetadataFromTables | includes/class-wc-product-tables-backwards-compatibility.php:138-156 | an unmapped key passes through; otherwise the delete adapter runs with its own default value, ignoring the caller's value |
| Facade.ProductTablesCompatibility.GetPostMetadata | includes/class-wc-product-tables-backwards-compatibility.php:20-24 | without registration the filter result passes through; with it, a mapped key is answered from the tables |
| Facade.ProductTablesCompatibility.UpdatePostMetadata | includes/class-wc-product-tables-backwards-compatibility.php:20-26 | without registration, or for an unmapped key, the host's result passes through and nothing is written; otherwise the update adapter runs with the new value |
| Facade.ProductTablesCompatibility.AddPostMetadata | includes/class-wc-product-tables-backwards-compatibility.php:20-25 | without registration, or for an unmapped key, the host's result passes through and nothing is written; a unique add of a key already present returns false and writes nothing; otherwise the add adapter runs |
| Facade.ProductTablesCompatibility.DeletePostMetadata | includes/class-wc-product-tables-backwards-compatibility.php:20-27 | without registration, or for an unmapped key, the host's result passes through and nothing is written; otherwise the delete adapter runs with its own default value |
| Facade.ColumnRoundTrip | includes/class-wc-product-tables-backwards-compatibility.php:39-198 | after an add or an update of a column key on an existing row, a single read returns the written value |
| Facade.ColumnWriteNeedsRow | includes/class-wc-product-tables-backwards-compatibility.php:175-198 | without a row, an add fails and changes nothing, and reads return no results, or `''` for a single read |
| Facade.RewriteReportsFailure | includes/class-wc-product-tables-backwards-compatibility.php:192-197 | writing the value a column already holds reports failure |
| Facade.UniqueAddSeesRow | includes/class-wc-product-tables-backwards-compatibility.php:82-87 | once a product has a row, every column key counts as present, so a unique add always fails |
| Facade.ColumnWriteFrame | includes/class-wc-product-tables-backwards-compatibility.php:175-198 | a column write changes no read of another product or of another column |
| Facade.DeleteWritesDefault | includes/class-wc-product-tables-backwards-compatibility.php:138-156 | after a delete of a column key, a single read returns the key's default value |
| Facade.DeleteDefaultExamples | includes/class-wc-product-tables-backwards-compatibility.php:400-474 | deleting `_tax_status`, `_stock_status` and `total_sales` leaves `taxable`, `instock` and 0 |
| Facade.RelationshipReadIds | includes/class-wc-product-tables-backwards-compatibility.php:200-215 | with valid arguments the read returns the selected object ids, in storage order |
| Facade.RelationshipRoundTrip | includes/class-wc-product-tables-backwards-compatibility.php:217-271 | adding a list without duplicates succeeds and reads back as that list; update and add do the same |
| Facade.RelationshipNeedsList | includes/class-wc-product-tables-backwards-compatibility.php:227-229 | a value that is not an array fails to add or update and changes nothing |
| Facade.RelationshipDeleteEmpties | includes/class-wc-product-tables-backwards-compatibility.php:636-642 | deleting `_upsell_ids` succeeds and leaves no upsells to read |
| Facade.UpsellUpdateDropsCrossSell | includes/class-wc-product-tables-backwards-compatibility.php:237-247 | emptying the upsells through the facade also removes a cross-sell to the same product |
| Facade.SelectReturnsColumnName | includes/class-wc-product-tables-backwards-compatibility.php:171-172 | for a row with `sku = ABC`, the query as written returns `sku` and the corrected one returns `ABC` |
| MigrateData.First | includes/class-wc-product-tables-migrate-data.php:28-47 | `isset( $metas[k] ) ? $metas[k][0] : null` is non-null exactly when the key has a value, and is then the first value |
| MigrateData.SingleMeta | includes/class-wc-product-tables-migrate-data.php:158 | `get_post_meta( id, k, true )` is the first value, or `''` when the key is absent |
| MigrateData.NormaliseRow | includes/class-wc-product-tables-migrate-data.php:26-48 | the inserted row has exactly the 21 columns: the post id, the product type slug, the price the price rule picks, and for every other column the first value of its legacy key or null |
| MigrateData.MigrationReadsCatalogueKeys | includes/class-wc-product-tables-migrate-data.php:28-43 | the SKU, regular and sale price, sales and thumbnail columns are filled from the key the facade reads them through |
| MigrateData.MigrationReadsStockKeys | includes/class-wc-product-tables-migrate-data.php:34-40 | the stock and tax columns are filled from the key the facade reads them through |
| MigrateData.MigrationReadsShapeKeys | includes/class-wc-product-tables-migrate-data.php:30-33 | width, height and weight are filled from the key the facade reads them through |
| MigrateData.MigrationReadsFlagKeys | includes/class-wc-product-tables-migrate-data.php:36-37 | virtual and downloadable are filled from the key the facade reads them through |
| MigrateData.MigrationReadsMisspelledKeys | includes/class-wc-product-tables-migrate-data.php:32 | `length` is filled from `_lenght` and `average_rating` from `_average_rating`, not from the facade's keys |
| MigrateData.MigrationReadsSaleDateKeys | includes/class-wc-product-tables-migrate-data.php:44-45 | the sale date columns are filled from `_date_on_sale` and `_date_on_sale_to`, not from the facade's keys |
| MigrateData.MigrationPriceRule | includes/class-wc-product-tables-migrate-data.php:41 | the `price` column comes from the price rule over all `_price` values |
| MigrateData.MigratedColumnReadBack | includes/class-wc-product-tables-migrate-data.php:26-50 | after migration, a single facade read of a column key returns what its column was filled from |
| MigrateData.LengthColumnSource | includes/class-wc-product-tables-migrate-data.php:32 | the migrated `length` is the first `_lenght` value |
| MigrateData.LengthKeyReadsColumn | includes/class-wc-product-tables-backwards-compatibility.php:477-494 | the facade reads `_length` from the `length` column |
| MigrateData.LegacyLengthLost | includes/class-wc-product-tables-migrate-data.php:32 | a product with no `_lenght` meta reads `_length` as null after migration, whatever `_length` held |
| MigrateData.DownloadKeys | includes/class-wc-product-tables-migrate-data.php:57 | definition, no property of its own: the download keys, in stored order |
| MigrateData.DownloadRows | includes/class-wc-product-tables-migrate-data.php:57-79 | file `i` becomes the row with id `firstId + i`, its name and file, the product's limit and expiry, and priority `i + 1` |
| MigrateData.RepointEffect | includes/class-wc-product-tables-migrate-data.php:68-76 | definition, no property of its own: the permission update rewrites exactly the permissions holding the key and keeps their product |
| MigrateData.RepointAllMovesEachKey | includes/class-wc-product-tables-migrate-data.php:57-79 | with distinct non-numeric keys, each permission holding key `j` ends up pointing at download `firstId + j`, and the others are unchanged |
| MigrateData.MigrateDownload | includes/class-wc-product-tables-migrate-data.php:58-78 | one loop step appends one download row, repoints its key and advances the counter |
| MigrateData.MigrateDownloads | includes/class-wc-product-tables-migrate-data.php:52-79 | the loop appends `DownloadRows` and repoints every key, in order |
| MigrateData.NonZero | includes/class-wc-product-tables-migrate-data.php:164-167 | skipping empty children never adds ids |
| MigrateData.NonZeroMembers | includes/class-wc-product-tables-migrate-data.php:164-167 | the kept children are exactly the non-empty ones |
| MigrateData.MigrateRelationship | includes/class-wc-product-tables-migrate-data.php:156-179 | `migrate_relationship` inserts the non-empty children with priorities 1, 2, ... |
| MigrateData.SkippedChildrenKeepPrioritiesDense | includes/class-wc-product-tables-migrate-data.php:164-172 | a skipped child does not use up a priority |
| MigrateData.MigratedListReadBack | includes/class-wc-product-tables-migrate-data.php:156-179 | after migrating into an empty relation, a facade read of the key returns the non-empty children in order |
| MigrateData.GalleryPieces | includes/class-wc-product-tables-migrate-data.php:90-101 | an empty gallery gives no images; a string is cut at its commas, losing nothing and keeping empty pieces; an array is used as it is |
| MigrateData.GalleryObjectIds | includes/class-wc-product-tables-migrate-data.php:103-110 | each piece is stored as an integer column value |
| MigrateData.MigrateGallery | includes/class-wc-product-tables-migrate-data.php:90-115 | the gallery step inserts image edges for the pieces, with priorities 1, 2, ... |
| MigrateData.InsertImages | includes/class-wc-product-tables-migrate-data.php:103-114 | the image loop inserts the prioritised edges |
| MigrateData.GalleryCommaString | includes/class-wc-product-tables-migrate-data.php:96-97 | a non-empty string that contains a comma is exploded at the commas |
| MigrateData.GalleryThreePieces | includes/class-wc-product-tables-migrate-data.php:96-97 | `A,B,C` gives the three pieces |
| MigrateData.GalleryEmptyMiddlePiece | includes/class-wc-product-tables-migrate-data.php:96-97 | `A,,B` keeps the empty middle piece |
| MigrateData.DecimalObjectIds | includes/class-wc-product-tables-migrate-data.php:103-110 | decimal pieces are stored as their numbers, and empty ones as 0 |
| MigrateData.GalleryCommaList | includes/class-wc-product-tables-migrate-data.php:90-115 | `a,b,c` of decimal ids gives the images `a`, `b` and `c` |
| MigrateData.GalleryEmptyPieceKept | includes/class-wc-product-tables-migrate-data.php:90-115 | `a,,b` gives an image edge to object 0 between `a` and `b` |
| MigrateData.GalleryWithoutComma | includes/class-wc-product-tables-migrate-data.php:96-100 | a non-empty string without a comma is a single image |
| MigrateData.GallerySingleAndEmpty | includes/class-wc-product-tables-migrate-data.php:94-100 | a single non-zero id is one image; `''` and `'0'` give none |
| MigrateData.GlobalMarker | includes/class-wc-product-tables-migrate-data.php:230 | a key is global when `pa_` occurs anywhere in it, not only as a prefix, and a key without the letter `p` is custom |
| MigrateData.FindDefault | includes/class-wc-product-tables-migrate-data.php:276-280 | the inner loop sets the flag exactly when some default entry maps the key to the value |
| MigrateData.CustomValueRows | includes/class-wc-product-tables-migrate-data.php:294-314 | one row per piece, in order, with the trimmed piece, priorities 1, 2, ..., and the default flag of the trimmed piece under the attribute name |
| MigrateData.MigrateCustomAttributes | includes/class-wc-product-tables-migrate-data.php:294-314 | `migrate_custom_attributes` appends exactly `CustomValueRows` of the exploded values |
| MigrateData.InsertCustomValues | includes/class-wc-product-tables-migrate-data.php:298-312 | the value loop appends exactly `CustomValueRows` |
| MigrateData.CustomValue | includes/class-wc-product-tables-migrate-data.php:299-310 | one piece becomes its trimmed value, its position and its default flag |
| MigrateData.GlobalValueRows | includes/class-wc-product-tables-migrate-data.php:259-284 | one row per product term, in order, holding its name, priority `i + 1` and the default flag of its slug |
| MigrateData.MigrateGlobalAttributes | includes/class-wc-product-tables-migrate-data.php:259-284 | `migrate_global_attributes` appends `GlobalValueRows` for the product's terms, looking up defaults under the key `''` |
| MigrateData.GlobalDefaultsIgnoreName | includes/class-wc-product-tables-migrate-data.php:277 | when no default entry has the key `''`, no global term is flagged default |
| MigrateData.GlobalDefaultExample | includes/class-wc-product-tables-migrate-data.php:277 | the default `pa_color: red` does not flag the term `red` |
| MigrateData.ChildVariationsMembers | includes/class-wc-product-tables-migrate-data.php:190-195 | the query selects exactly the stored variations of the parent |
| MigrateData.VariationRowsMembers | includes/class-wc-product-tables-migrate-data.php:198-208 | a variation gets a row exactly when its recorded value is truthy, so `''` and `'0'` give none; the row holds that value and the attribute |
| MigrateData.MigrateVariationAttributeValues | includes/class-wc-product-tables-migrate-data.php:188-210 | `migrate_variation_attribute_values` appends exactly `VariationRows` over the parent's variations |
| MigrateData.AttributeRows | includes/class-wc-product-tables-migrate-data.php:222-238 | attribute `i` gets the id `firstId + i`, its name and flags, and a taxonomy id only when it is global |
| MigrateData.MigrateAttribute | includes/class-wc-product-tables-migrate-data.php:223-248 | one loop step appends one attribute row, its value rows and its variation rows, and advances the counter |
| MigrateData.MigrateAttributeAt | includes/class-wc-product-tables-migrate-data.php:222-249 | the loop invariant carries over one step |
| MigrateData.MigrateAttributeValues | includes/class-wc-product-tables-migrate-data.php:239-243 | a global key gets the global rows and any other key the custom rows |
| MigrateData.MigrateVariationsOf | includes/class-wc-product-tables-migrate-data.php:246-248 | variation rows are written only for a post of type `product` |
| MigrateData.MigrateAttributes | includes/class-wc-product-tables-migrate-data.php:217-250 | `migrate_attributes` appends the attribute, value and variation rows of every entry, in order, and advances the counter by the number of entries |
| MigrateData.CustomAttributeHasEmptyValue | includes/class-wc-product-tables-migrate-data.php:242 | a custom attribute always gets exactly one value row, holding `''` |
| MigrateData.AllValueRowsReferToNewAttributes | includes/class-wc-product-tables-migrate-data.php:217-250 | every value row belongs to the product and to one of the attribute rows just inserted |
| MigrateData.AllVariationRowsFromChildren | includes/class-wc-product-tables-migrate-data.php:217-250 | every variation row comes from a post of type `product`, names a new attribute, holds a truthy value and belongs to a stored variation of the product |
| MigrateData.MigrateProductRow | includes/class-wc-product-tables-migrate-data.php:26-50 | the row insert adds the normalised row unless the post already has one |
| MigrateData.MigrateProductDownloads | includes/class-wc-product-tables-migrate-data.php:52-79 | the download step gives `DownloadsMigrated` |
| MigrateData.MigrateProductEdges | includes/class-wc-product-tables-migrate-data.php:82-115 | the relationship and gallery steps give `EdgesMigrated` |
| MigrateData.MigrateProductAttributes | includes/class-wc-product-tables-migrate-data.php:117 | the attribute step gives `AttributesMigrated` |
| MigrateData.MigrateProduct | includes/class-wc-product-tables-migrate-data.php:24-118 | one loop body of `migrate` gives `ProductMigrated` and keeps the counters valid |
| MigrateData.UnmigratedMembers | includes/class-wc-product-tables-migrate-data.php:124-133 | `get_products` selects exactly the stored product and variation posts without a row |
| MigrateData.Migrate | includes/class-wc-product-tables-migrate-data.php:17-119 | `migrate` runs the loop body over the selection in order; afterwards `get_products` selects nothing |
| MigrateData.ProductMigratedRow | includes/class-wc-product-tables-migrate-data.php:24-50 | a loop body keeps the posts and changes the rows only by its own row insert |
| MigrateData.PassMigratedRows | includes/class-wc-product-tables-migrate-data.php:24-50 | the rows after the pass are those of the row inserts alone |
| MigrateData.PassRowsKeys | includes/class-wc-product-tables-migrate-data.php:24-50 | after the inserts, the ids with a row are those that had one and those of the selection |
| MigrateData.PassRowsValues | includes/class-wc-product-tables-migrate-data.php:24-50 | a row that existed is unchanged, and every new row is its post's row |
| MigrateData.PassProducts | includes/class-wc-product-tables-migrate-data.php:17-119 | after the pass, each selected post has its normalised row, earlier rows are unchanged and no other row appears |
| MigrateData.RowsLeaveNothingUnmigrated | includes/class-wc-product-tables-migrate-data.php:124-133 | after the row inserts of the selection, `get_products` selects nothing |
| MigrateData.AllMigratedSelectsNothing | includes/class-wc-product-tables-migrate-data.php:124-133 | when every product and variation post has a row, `get_products` selects nothing |
| MigrateData.PassLeavesNothingUnmigrated | includes/class-wc-product-tables-migrate-data.php:17-133 | after a pass, `get_products` selects nothing |
| MigrateData.SecondPassChangesNothing | includes/class-wc-product-tables-migrate-data.php:17-133 | running the migration a second time changes nothing |
| MigrateData.EdgesOnlyAdd | includes/class-wc-product-tables-migrate-data.php:82-115 | the relationship and image inserts keep every stored edge in place and change nothing else |
| MigrateData.DownloadsOnlyAdd | includes/class-wc-product-tables-migrate-data.php:52-79 | the download step keeps every stored download, repoints permissions without adding or removing any, and changes nothing else |
| MigrateData.RowOnlyAdds | includes/class-wc-product-tables-migrate-data.php:50 | the row insert keeps every existing row |
| MigrateData.AttributesOnlyAdd | includes/class-wc-product-tables-migrate-data.php:217-250 | the attribute step only appends |
| MigrateData.ProductMigratedOnlyAdds | includes/class-wc-product-tables-migrate-data.php:24-118 | a loop body keeps the posts, every existing row, every stored edge, download and attribute row, and the number of permissions |
| MigrateData.RepointAllKeepsLength | includes/class-wc-product-tables-migrate-data.php:68-76 | repointing permissions never adds or removes one |

## Left out

- SQL text, column formats (`%s`, `%d`, `%f`) and `$wpdb->prepare` are not modelled. A column
  holds a `Value`, floating-point columns included, so the delete value `'NULL'` stays
  the string `NULL` and is never read as SQL null.
- `$wpdb->update` reports the number of rows it changed. The model treats a write as
  successful exactly when the row exists and the value changes. A failing database
  is not modelled.
- `REPLACE` and `INSERT` on `wc_product_relationships` are keyed on `(type, product_id,
  object_id)`. An `INSERT` of an existing key fails and writes nothing; a `REPLACE`
  overwrites the priority. The table's schema is not part of this model.
- WordPress calls (`get_post_meta`, `wp_get_post_terms`, `get_terms`,
  `maybe_unserialize`) become the `Legacy` input. Meta that the calls would unserialise is
  given already decoded: children ids are integers (an empty child is 0), and the gallery
  is a string or a list. `_default_attributes` is a list of entries, each a map from
  attribute key to value, since lines 276-277 and 306-307 of the migration index each entry by the key.
- `MigrateData.MigrationPriceRule`: `rsort( $metas['_price'] )[0]` is a parameter
  `pickPrice`. PHP's mixed-type sort order is not modelled, and `rsort` returns a boolean
  in PHP, which is not modelled either.
- The `WC_PRODUCT_TABLES_MIGRATING` constant is a constructor parameter of
  `ProductTablesCompatibility`. Registration is the `registered` flag, and the four
  `*PostMetadata` members stand for the host's filter chains. Hook priority 99, argument
  counts and other plugins' filters are not modelled.
- `get_products` returns posts in storage order; an SQL engine's actual row order is not
  modelled.
- `MigrateData.RepointAllMovesEachKey` requires distinct keys that are not all digits.
  A legacy key that spells a new download id, or a permission of another product with
  the same key, would be repointed twice; the model computes that outcome, but no lemma
  describes it.
- `MigrateData.GalleryObjectIds` models MySQL's string-to-integer conversion for
  non-negative decimal ids only. A sign, an exponent or an overflow is not modelled.
- `insert()` (lines 142-146) is modelled by the `Database` insert methods for downloads and
  attributes and by the specification functions for the other tables. The returned
  `insert_id` is used only for those two tables, as in the source.
- The `type` column of a post with no `product_type` term is null. PHP would raise a
  notice there.
- Transactions, concurrency and partial failures of the pass are not modelled.
- `Facade.RelationshipWrite`, `RelationshipTable.Enumerated` and
  `RelationshipTable.ReplaceListReadBack` take a PHP array as a list of integers keyed
  0, 1, 2, .... Two things are therefore not expressed. An array with gaps in its keys,
  such as `[0 => 5, 2 => 7]`, would get the priorities 0 and 2 from `'priority' => $key`
  (lines 250-255 of `includes/class-wc-product-tables-backwards-compatibility.php`), but the model can only give 0 and 1. Elements that are not integers,
  such as `"12"` or `"12abc"`, are coerced by `%d` in PHP and cannot be stored in the model.
- `Facade.ColumnRead`, `Facade.RelationshipRead`, `Facade.AsValues` and `Facade.GetMetadata`
  return bare values. `get_results` returns row objects whose fields are strings (lines
  172 and 214 of `includes/class-wc-product-tables-backwards-compatibility.php`), and a single read returns such a row object (line 54). The model gives
  the column's value, with object ids as integers.
- `Facade.RelationshipRead`, `Facade.RelationshipRoundTrip` and
  `MigrateData.MigratedListReadBack` assume the relationship read follows storage order.
  The query has no `ORDER BY` (line 213 of `includes/class-wc-product-tables-backwards-compatibility.php`). They also assume a `REPLACE` deletes the old
  edge and appends the new one. A database that returns rows in another order breaks
  the "in order" part of those contracts.
- `MigrateData.TaxonomyIdOf` gives null for a taxonomy without terms, and also for one
  that is not registered. In PHP, `get_terms` returns a `WP_Error` for an unregistered
  taxonomy, and the `[0]` at lines 232-235 of
  `includes/class-wc-product-tables-migrate-data.php` is then a fatal error. That aborts the pass
  after the product's row, downloads, edges and gallery are written, so `get_products`
  never selects that product again and its attributes are never migrated. Line 230
  makes any key that contains `pa_` global, so a custom key such as `spa_treatment`
  triggers this. The model continues the pass instead.

## Findings

| source | as written | input that shows it | evidently intended | confidence | as-written member | corrected member |
|---|---|---|---|---|---|---|
| includes/class-wc-product-tables-backwards-compatibility.php:171-172 | `SELECT %s FROM ... WHERE product_id = %d` with the column passed to `prepare`, which quotes it as a string literal, so every row selects the column's name | a row with `sku = ABC`: reading `_sku` returns `sku` | select the column itself, returning `ABC` | high (not executed) | Facade.ColumnReadAsWritten, Facade.SelectReturnsColumnName | Facade.ColumnRead, used by Facade.GetMetadata |

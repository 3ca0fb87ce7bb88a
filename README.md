# catalog-server: cone search and catalog listing, modelled in Dafny

The catalog server answers cone searches over astronomical catalogs that live
in two kinds of backend: extcats (catalogs in MongoDB) and catsHTM (catalogs in
HTM-partitioned files). This project models the server's own logic:

- **Result normalisation** (`json.dfy`, `tables.dfy`): `sanitize_json`, which
  turns every NaN into `None` and rebuilds dicts, lists and tuples, and
  `row_to_json` / `table_to_json`, which pair a table's column names with a
  row's values.
- **Cone-search dispatch** (`cone_search.dfy`, `models.dfy`): the `any`,
  `nearest` and `all` endpoints. Each one maps over the request's catalogs in
  order and dispatches every item, by its `use` tag, to the extcats or the
  catsHTM handler. The model covers the projection documents sent to extcats,
  the "no sources gives None" rules, and the pairing of rows with distances.
  It also covers the astropy table that the catsHTM handlers build and then
  grow in place with its `ra` and `dec` columns.
- **Catalog listing** (`catalogs.dfy`, `readme_line.dfy`):
  - the catsHTM README parser, a function equivalent to the regular
    expression `(?P<name>[\w/]+) \(input name: (?P<key>\w+)\)(\s*-\s*(?P<description>.*))?`;
  - the ` -- ` description join and the column lists;
  - the skip rules, for a missing directory, a line that does not match, a
    missing column file, and a database without science metadata;
  - the order of the listing: extcats entries first, then catsHTM.

Python's data model is expressed in `prelude.dfy` and `ordered_dict.dfy`:
- An exception is a `Result` value.
- A list comprehension stops at the first exception it meets (`Collect`).
- A loop that appends to a list is `ConcatMap`.
- A dict is an association list in insertion order (`OrderedDict`). Assigning
  an existing key keeps its place; a new key goes at the end.

The backends are the function-typed fields of the datatypes `Backends` and
`Mongo`, and the function type `MatLoader`; nothing is assumed about them.
They stand for:
- the extcats queries;
- `catsHTM.cone_search`;
- `get_closest` and `get_distances`;
- `np.degrees`, and numpy's conversion of a row tuple in `table_to_json`;
- the Mongo client;
- `scipy.io.loadmat`.

The functions are the specification. The methods that follow the source's
loops and its in-place updates are each proved equal to the function they
implement:
- `DescribeLines` and `ExtcatsCatalogDescriptions`, with the `continue` on a
  missing file;
- `SearchNearest` and `SearchAll`, through their loops `SearchNearestItems` and
  `SearchAllItems`;
- `Tables.Table.SetColumn`, on a class that stores its columns.

The model follows what the code does where it departs from its own
documentation:
- `app/models.py:17-18` describes `pre_filter` and `post_filter` as filter
  conditions to apply before and after the index search, but the extcats
  handlers (`app/cone_search.py:83-137`) never read them, so they are not
  passed to the backend (`ConeSearch.ExtcatsIgnoresFilters`).
- `app/models.py:13` describes `keys_to_append` as the fields to include in
  the result, but the catsHTM handlers never apply it: `keys` is computed at
  `app/cone_search.py:112` and then not used (`ConeSearch.CatsHtmIgnoresKeys`).
- With no catsHTM directory configured, the cone search receives the string
  `"None"` as its `catalogs_dir`.

## Model

| member | source | states |
|---|---|---|
| `Json.SanitizeNoNaN` | app/cone_search.py:49-57 | no NaN is left anywhere in the result, however deeply it is nested |
| `Json.SanitizeCanonical` | app/cone_search.py:49-57 | the result is in transport form: no NaN and no tuple at any depth |
| `Json.SanitizeShape` | app/cone_search.py:50-57 | a dict keeps its keys in order and each value is sanitized in its place; a list or tuple becomes a list of the same length whose i-th element is the sanitized i-th element; NaN becomes None; every other scalar is unchanged |
| `Json.ExampleNestedNaN` | app/cone_search.py:52-55 | `[1, NaN]` becomes `[1, None]`: the NaN is replaced in its place and the other element is kept |
| `Json.SanitizeFixedPoints` | app/cone_search.py:49-57 | a value is unchanged exactly when it is already in transport form |
| `Json.SanitizeIdempotent` | app/cone_search.py:49-57 | sanitizing twice gives the same result as sanitizing once |
| `Json.SanitizeWellFormed` | app/cone_search.py:50-51 | dicts that hold each key once still do so after sanitizing, at every depth |
| `OrderedDict.Get` | app/cone_search.py:87 | the observation through which the projection built at this line is stated: a lookup finds a value exactly when the key is present |
| `OrderedDict.PutSpec` | app/cone_search.py:87 | after `d[k] = v`: k maps to v; other keys keep their values; an existing key keeps its place, a new key is appended; distinct keys stay distinct |
| `OrderedDict.UpdateSpec` | app/cone_search.py:87 | after `d.update(e)`: the keys of d stay in place and are followed by the new keys of e; keys of e take e's values; all other keys keep d's values |
| `OrderedDict.FromKeysSpec` | app/cone_search.py:126 | `{k: v for k in ks}` maps exactly the keys of ks to v, each key once |
| `Tables.RecordSpec` | app/cone_search.py:65 | a record zips keys with values, truncated to the shorter list; every value is sanitized and free of NaN; with distinct keys, each key looks up its own value |
| `Tables.RowToJsonSpec` | app/cone_search.py:70-74 | no row gives None; otherwise the row's column names are paired positionally with its sanitized values |
| `Tables.TableToJsonSpec` | app/cone_search.py:60-67 | no table gives None; otherwise one record per row, in iteration order, pairing the columns with the row's values as numpy converts them, sanitized and free of NaN; keyed by all the columns of a well-shaped table; equal to the row's `row_to_json` when numpy changes no value |
| `Tables.WithColumnSpec` | app/cone_search.py:109-110 | `tab[name] = col` keeps the rows; replaces an existing column in its place or appends a new one; the column holds col; every other column is unchanged |
| `Tables.WithTwoColumnsSpec` | app/cone_search.py:109-110 | two assignments to different names append the new names in order, the columns hold what was assigned, every other column is unchanged |
| `Tables.Table.FromRows` | app/cone_search.py:108 | the new table's contents are exactly the given rows under the given names |
| `Tables.Table.Column` | app/cone_search.py:109 | `tab[name]` is the named column of the table's contents |
| `Tables.Table.SetColumn` | app/cone_search.py:109-110 | the in-place assignment leaves the table holding what `WithColumn` describes |
| `ConeSearch.NearestProjectionSpec` | app/cone_search.py:85-87 | requested keys are included, even `_id` and `pos`; otherwise `_id` and `pos` are excluded; no other key is mentioned; `_id` and `pos` keep the first two places |
| `ConeSearch.AllProjectionSpec` | app/cone_search.py:124-126 | with keys requested, exactly those keys are included and nothing is excluded; otherwise exactly `_id` and `pos` are excluded |
| `ConeSearch.CenterOf` | app/cone_search.py:167 | the centre is built exactly when the declination lies within [-90, 90] degrees; otherwise ValueError is raised |
| `ConeSearch.SearchAnySpec` | app/cone_search.py:162-168 | a centre off the sphere raises ValueError; otherwise one answer per catalog, in request order, and a catsHTM answer is true exactly when the cone search found a source |
| `ConeSearch.SourcesTableSpec` | app/cone_search.py:108-110 | the table is built exactly when the sources are well-shaped with distinct names and at least two columns; it then has one row per source; its columns are exactly the source columns, then `ra` and then `dec` where new; `ra` is the first column in degrees, `dec` the second as it reads after the `ra` assignment; every other source column is unchanged |
| `ConeSearch.BuildSourcesTable` | app/cone_search.py:108-110 | the in-place construction raises what the table function raises, or yields a fresh table holding its value |
| `ConeSearch.MatchesSpec` | app/cone_search.py:133-135 | row i is paired with distance i, for as many pairs as the shorter list holds |
| `ConeSearch.ExtcatsNearestRule` | app/cone_search.py:88-94 | None exactly when `findclosest` gives no row or an empty row; otherwise the body is the row's record and the distance is the one `findclosest` reports |
| `ConeSearch.ExtcatsAllRule` | app/cone_search.py:127-137 | None exactly when `findwithin` gives no table or an empty one; otherwise match i pairs the record of row i, as numpy converts it, with distance i |
| `ConeSearch.CatsHtmNoSourcesRule` | app/cone_search.py:106-107 | for catsHTM, nearest and all give None exactly when any is false; nearest raises exactly when all does, and only when the table cannot be built |
| `ConeSearch.CatsHtmAllMatches` | app/cone_search.py:151-156 | each catsHTM match pairs the record of table row i, as numpy converts it, with distance i, up to the shorter list; every body is keyed by all the table's columns, `ra` and `dec` included |
| `ConeSearch.CatsHtmIgnoresKeys` | app/cone_search.py:112 | the catsHTM handlers give the same answers whatever `keys_to_append` is |
| `ConeSearch.ExtcatsIgnoresFilters` | app/cone_search.py:122-129 | the extcats handlers give the same answers whatever `pre_filter` and `post_filter` are |
| `ConeSearch.CatsHtmNearestItem` | app/cone_search.py:97-113 | the handler working on a mutable table returns what the nearest function specifies |
| `ConeSearch.CatsHtmAllItem` | app/cone_search.py:140-156 | the handler working on a mutable table returns what the all function specifies |
| `ConeSearch.SearchNearestItem` | app/cone_search.py:77-113 | dispatch on the `use` tag gives the specified per-item result |
| `ConeSearch.SearchAllItem` | app/cone_search.py:116-156 | dispatch on the `use` tag gives the specified per-item result |
| `ConeSearch.SearchNearest` | app/cone_search.py:171-177 | raises the centre's ValueError, or returns what the endpoint function specifies for the built centre |
| `ConeSearch.SearchNearestItems` | app/cone_search.py:176 | the loop over the catalogs returns the comprehension's value, stopping at the first exception |
| `ConeSearch.SearchAll` | app/cone_search.py:180-186 | raises the centre's ValueError, or returns what the endpoint function specifies for the built centre |
| `ConeSearch.SearchAllItems` | app/cone_search.py:185 | the loop over the catalogs returns the comprehension's value, stopping at the first exception |
| `ConeSearch.SearchNearestSpec` | app/cone_search.py:171-177 | a centre off the sphere raises ValueError before any catalog is searched; otherwise one result per catalog, in request order, unless a handler raises, and then the first exception is raised |
| `ConeSearch.SearchAllSpec` | app/cone_search.py:180-186 | a centre off the sphere raises ValueError before any catalog is searched; otherwise one result per catalog, in request order, unless a handler raises, and then the first exception is raised |
| `ReadmeLine.Span` | app/catalogs.py:60 | a greedy run: a prefix of p-characters that the next character, if any, does not extend |
| `ReadmeLine.ParseLineComplete` | app/catalogs.py:58-63 | every `name (input name: key)tail` line, with a non-empty `[\w/]` name and a non-empty `\w` key, matches with those groups and the tail's description |
| `ReadmeLine.ParseLineSound` | app/catalogs.py:58-63 | every matching line has that form, and its description is the one of the text after `)` |
| `ReadmeLine.DescriptionComplete` | app/catalogs.py:60 | after spaces, a dash and spaces, the description is the rest of the line, with no leading space |
| `ReadmeLine.DescriptionAbsent` | app/catalogs.py:60 | a tail of spaces followed by nothing, or by a character that is neither a dash nor a space, gives no description |
| `ReadmeLine.NoMarkerNoMatch` | app/catalogs.py:60 | a name that is not followed directly by ` (input name: ` does not match |
| `ReadmeLine.ExampleWithoutDescription` | app/catalogs.py:26 | the `2MASS` line gives key `TMASS` and no description |
| `ReadmeLine.ExampleWithDescription` | app/catalogs.py:27 | the `2MASSxsc` line gives key `TMASSxsc` and its description |
| `ReadmeLine.ExampleSpacedName` | app/catalogs.py:38 | the `NED redshifts` line does not match |
| `ReadmeLine.ExampleNoInputName` | app/catalogs.py:44 | the `Skymapper` line does not match |
| `ReadmeLine.ExampleMissingColon` | app/catalogs.py:46 | the `Spitzer/SAGE` line, which lacks the colon, does not match |
| `ReadmeLine.ExampleIracMissingColon` | app/catalogs.py:47 | the `Spitzer/IRAC` line also lacks the colon and does not match, despite its description |
| `Catalogs.DescribeSpec` | app/catalogs.py:79-85 | the description is display name ` -- ` description, dropping whichever part is empty or absent |
| `Catalogs.ColumnOfSpec` | app/catalogs.py:87 | a column is built exactly when its name cell is non-empty; the unit is the first unit string, or None when the unit cell is empty |
| `Catalogs.ColumnsOfSpec` | app/catalogs.py:86-91 | one column per ColCell/ColUnits pair, as many as the shorter array; built exactly when no name cell is empty |
| `Catalogs.CatsHtmEntrySpec` | app/catalogs.py:75-93 | the entry holds name (the key, not the display name), use `catsHTM`, description and columns, once each and in that order |
| `Catalogs.DescribeLines` | app/catalogs.py:57-93 | the loop with `continue` builds what the listing function specifies |
| `Catalogs.CatshtmCatalogDescriptions` | app/catalogs.py:12-94 | the function returns the catsHTM listing of the README it parses |
| `Catalogs.LinesListingSpec` | app/catalogs.py:58-93 | the loop completes exactly when every line's pass does; every entry is a catsHTM entry named by the key of a matching line |
| `Catalogs.LinesListingEntries` | app/catalogs.py:58-93 | when it completes there is exactly one entry per line that matches and whose column file loads, in README order, built from that line and that file |
| `Catalogs.SkippedLine` | app/catalogs.py:58-74 | a line that does not match, or whose column file is missing, adds nothing and raises nothing |
| `Catalogs.LinesListingAppend` | app/catalogs.py:75 | two parts of the README contribute their entries in README order |
| `Catalogs.CatsHtmListingSpec` | app/catalogs.py:21-22 | no catsHTM directory gives the empty list; otherwise every entry is a catsHTM entry of a README line |
| `Catalogs.ExtcatsEntrySpec` | app/catalogs.py:107-114 | `**meta` overrides name, use and columns, which keep the first three places; every other metadata field follows; each key is held once |
| `Catalogs.SourceColumnsSpec` | app/catalogs.py:111 | one column per field of the first source, in order, with unit None |
| `Catalogs.ExtcatsCatalogDescriptions` | app/catalogs.py:97-115 | the loop builds what the extcats listing function specifies |
| `Catalogs.ExtcatsListingSpec` | app/catalogs.py:99-115 | the listing is built unless a database with metadata has no source, and then raises AttributeError; every entry describes a listed database with science metadata |
| `Catalogs.ExtcatsListingEntries` | app/catalogs.py:99-114 | when built, exactly one entry per database with truthy science metadata, in listing order, from its name, first source and metadata |
| `Catalogs.ListCatalogs` | app/catalogs.py:121-123 | the endpoint returns the extcats listing followed by the catsHTM listing of the README |
| `Catalogs.ListingSpec` | app/catalogs.py:123 | the listing succeeds exactly when both parts do; the extcats entries come first, then the catsHTM ones; an extcats failure is the whole listing's failure |
| `Catalogs.ListingEntries` | app/catalogs.py:123 | every entry before the split is an extcats description and every entry after it a catsHTM one |

## Left out

- HTTP and validation: the FastAPI routers, `app/main.py`, and pydantic's
  request parsing. Pydantic's 422 answers are left out too. No validator of
  catalog names appears in the code, so none is modelled.
- Configuration and connections: `app/mongo.py`, `app/settings.py` and
  `get_catq` are not part of this model. The Mongo client, the settings and the
  loaded column files are parameters.
- The backends: the extcats queries, `catsHTM.cone_search`, `get_CatDir`,
  `loadmat`, `get_closest`, `get_distances`, `np.degrees` and numpy's
  conversion of a row tuple. They are uninterpreted total functions, so
  nothing is proved about distances or radii.
- Backend exceptions: a backend call that raises cannot be expressed. This
  covers a Mongo connection failure, a missing catsHTM catalog and a failing
  distance computation. Only the exceptions the server's own code raises are
  modelled.
- Floating-point numbers: coordinates and distances are opaque reals. Of
  `SkyCoord`, only its declination range check is modelled (`ConeSearch.CenterOf`).
  Its wrapping of the right ascension and its unit conversions are not. A NaN
  coordinate cannot be expressed, because coordinates are reals; astropy's
  range check lets a NaN declination through to the backends. In query
  results, infinities are not distinguished from other numbers; a float is
  either NaN or some other number.
- Tables.TableToJsonSpec: numpy's conversion of a row tuple is an
  uninterpreted function `promote`, so the dtype a mixed row is promoted to,
  such as a NaN that becomes the string `'nan'` next to a string column, is
  not computed. A record equals the `row_to_json` of its row only when numpy
  changes no value.
- Character classes: `\w`, `\s` and `str.strip` are taken in their ASCII
  sense. Python's Unicode classes are not modelled.
- The README text: it is written out as the stripped lines that `io.StringIO`
  and `line.strip()` produce. The splitting and stripping themselves are not
  modelled.
- Column file errors: `loadmat` errors other than FileNotFoundError are not
  modelled. Neither are missing `ColCell` or `ColUnits` keys, nor numpy's
  `flatten` and `str` of non-string cells.
- Python's truth values are fixed by assumption:
  - a row is true when it has columns;
  - a table is true when it has rows;
  - a metadata document is true when it is non-empty.
- Dicts: documents coming from the backends are assumed to hold each key once
  wherever a lemma needs this.
- Catalogs.CatsHtmListingSpec: it states the catsHTM listing for any README
  lines. `Catalogs.CatshtmCatalogDescriptions` ties it to the actual README
  lines. No lemma decides which of those lines match, apart from the examples.
- Concurrency: the server runs handlers concurrently, and the model does not
  capture this. Every request is modelled as a sequential read-only
  computation.

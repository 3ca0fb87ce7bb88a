/** The request and response types of the service, and the one setting the
    core reads. */
module Models {
  import opened Prelude
  import opened OrderedDict
  import opened Json

  /** One catalog to search: the `use` tag selects the backend. extcats items
      also carry filter documents. */
  datatype QueryItem =
    | Extcats(name: string, rsArcsec: real, keysToAppend: Option<seq<string>>,
              preFilter: Option<Dict<Value>>, postFilter: Option<Dict<Value>>)
    | CatsHTM(name: string, rsArcsec: real, keysToAppend: Option<seq<string>>)

  /** One match: the source's fields and its distance from the search centre. */
  datatype CatalogItem = CatalogItem(body: Dict<Value>, distArcsec: real)

  datatype ConeSearchRequest = ConeSearchRequest(raDeg: real, decDeg: real, catalogs: seq<QueryItem>)

  /** The root directory of the catsHTM catalogs, if one is configured. */
  datatype Settings = Settings(catshtmDir: Option<string>)
}

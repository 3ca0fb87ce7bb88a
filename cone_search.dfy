/** The cone-search endpoints `any`, `nearest` and `all`: each maps over the
    request's catalogs in order and dispatches each item, by its `use` tag, to
    the extcats or the catsHTM handler. The backends (extcats queries,
    catsHTM.cone_search, the distance helpers, np.degrees) are parameters. */
module ConeSearch {
  import opened Prelude
  import opened OrderedDict
  import opened Json
  import opened Tables
  import opened Models

  /** The search centre, as SkyCoord(ra_deg, dec_deg); unit conversions
      (degrees, radians) are left to the backends. */
  datatype Coord = Coord(raDeg: real, decDeg: real)

  /** What catsHTM.cone_search returns: the source rows, the column names and
      the column units. */
  datatype ConeResult = ConeResult(srcs: seq<seq<Value>>, colnames: seq<string>, colunits: seq<string>)

  /** The external calls the handlers make. */
  datatype Backends = Backends(
    // get_catq(name).binaryserach(ra, dec, rs_arcsec)
    binarySearch: (string, Coord, real) -> bool,
    // get_catq(name).findclosest(ra, dec, rs_arcsec, projection=...)
    findClosest: (string, Coord, real, Dict<int>) -> (Option<Row>, real),
    // get_catq(name).findwithin(ra, dec, rs_arcsec, projection=...)
    findWithin: (string, Coord, real, Dict<int>) -> Option<TableData>,
    // catsHTM.cone_search(name, ra, dec, rs_arcsec, catalogs_dir=...)
    coneSearch: (string, Coord, real, string) -> ConeResult,
    // get_closest(ra, dec, table, "ra", "dec"): the values of the closest row, and its distance
    getClosest: (Coord, TableData) -> (seq<Value>, real),
    // get_distances(ra, dec, table, "ra", "dec")
    getDistances: (Coord, TableData) -> seq<real>,
    // np.degrees, element by element
    degrees: Value -> Value,
    // np.asarray(row).tolist() in table_to_json, value by value
    promote: Promotion)

  /** A declination astropy accepts as a latitude: within -90 and 90 degrees. */
  predicate OnSphere(request: ConeSearchRequest)
  {
    -90.0 <= request.decDeg <= 90.0
  }

  /** `SkyCoord(request.ra_deg, request.dec_deg, unit="deg")`: a latitude
      outside [-90, 90] degrees raises ValueError, before any catalog is
      searched; a longitude is wrapped and never raises. */
  function CenterOf(request: ConeSearchRequest): (r: Result<Coord>)
    ensures r.Ok? <==> OnSphere(request)
    ensures r.Raised? ==> r.error == ValueError
    ensures r.Ok? ==> r.value == Coord(request.raDeg, request.decDeg)
  {
    if OnSphere(request) then Ok(Coord(request.raDeg, request.decDeg)) else Raised(ValueError)
  }

  /** `if item.keys_to_append:` -- None and the empty list are both false. */
  predicate Requested(keys: Option<seq<string>>)
  {
    keys.Some? && |keys.value| > 0
  }

  /** `{"_id": 0, "pos": 0}` */
  const Exclusions: Dict<int> := [("_id", 0), ("pos", 0)]

  /** The projection of the extcats nearest handler: the two exclusions,
      updated with `{k: 1 for k in keys_to_append}` when keys are requested. */
  function NearestProjection(keys: Option<seq<string>>): Dict<int>
  {
    if Requested(keys) then Update(Exclusions, FromKeys(keys.value, 1)) else Exclusions
  }

  /** The intended mark of key k in the nearest projection: 1 for a requested
      key, 0 for `_id` and `pos` otherwise, and none for any other key. */
  function NearestMark(keys: Option<seq<string>>, k: string): Option<int>
  {
    if Requested(keys) && k in keys.value then Some(1)
    else if k == "_id" || k == "pos" then Some(0)
    else None
  }

  /** Every requested key is included (even `_id` or `pos`); `_id` and `pos`
      are otherwise excluded; no other key is mentioned; `_id` and `pos` keep
      the first two places. */
  lemma NearestProjectionSpec(keys: Option<seq<string>>)
    ensures forall k :: Get(NearestProjection(keys), k) == NearestMark(keys, k)
    ensures ["_id", "pos"] <= Keys(NearestProjection(keys))
    ensures DistinctKeys(NearestProjection(keys))
  {
    assert Keys(Exclusions) == ["_id", "pos"];
    if Requested(keys) {
      FromKeysSpec(keys.value, 1);
      UpdateSpec(Exclusions, FromKeys(keys.value, 1));
    }
  }

  /** The projection of the extcats all handler: the requested keys alone, or
      the two exclusions when no keys are requested. */
  function AllProjection(keys: Option<seq<string>>): Dict<int>
  {
    if Requested(keys) then FromKeys(keys.value, 1) else Exclusions
  }

  /** The intended mark of key k in the all projection: with keys requested,
      1 for those keys alone; without, 0 for `_id` and `pos`. */
  function AllMark(keys: Option<seq<string>>, k: string): Option<int>
  {
    if Requested(keys) then (if k in keys.value then Some(1) else None)
    else if k == "_id" || k == "pos" then Some(0)
    else None
  }

  /** With keys requested the projection includes exactly them and excludes
      nothing; without, it excludes exactly `_id` and `pos`. */
  lemma AllProjectionSpec(keys: Option<seq<string>>)
    ensures forall k :: Get(AllProjection(keys), k) == AllMark(keys, k)
    ensures DistinctKeys(AllProjection(keys))
  {
    if Requested(keys) {
      FromKeysSpec(keys.value, 1);
    }
  }

  /** `str(settings.catshtm_dir)`, the catalogs_dir argument; `str(None)` is "None". */
  function CatalogsDirArg(settings: Settings): string
  {
    match settings.catshtmDir
    case None => "None"
    case Some(d) => d
  }

  function ConeSearchOf(env: Backends, settings: Settings, item: QueryItem, coord: Coord): ConeResult
  {
    env.coneSearch(item.name, coord, item.rsArcsec, CatalogsDirArg(settings))
  }

  // ---------------------------------------------------------------- any

  function ExtcatsAny(env: Backends, item: QueryItem, coord: Coord): bool
    requires item.Extcats?
  {
    env.binarySearch(item.name, coord, item.rsArcsec)
  }

  function CatsHtmAny(env: Backends, settings: Settings, item: QueryItem, coord: Coord): bool
    requires item.CatsHTM?
  {
    |ConeSearchOf(env, settings, item, coord).srcs| > 0
  }

  /** search_any_item */
  function AnyItem(env: Backends, settings: Settings, item: QueryItem, coord: Coord): bool
  {
    match item
    case Extcats(_, _, _, _, _) => ExtcatsAny(env, item, coord)
    case CatsHTM(_, _, _) => CatsHtmAny(env, settings, item, coord)
  }

  /** search_any */
  function SearchAny(env: Backends, settings: Settings, request: ConeSearchRequest): Result<seq<bool>>
  {
    match CenterOf(request)
    case Raised(e) => Raised(e)
    case Ok(coord) =>
      Ok(seq(|request.catalogs|, i requires 0 <= i < |request.catalogs| => AnyItem(env, settings, request.catalogs[i], coord)))
  }

  /** A centre off the sphere raises ValueError. Otherwise there is one answer
      per catalog, in request order; a catsHTM answer is true exactly when the
      cone search found a source. */
  lemma SearchAnySpec(env: Backends, settings: Settings, request: ConeSearchRequest)
    ensures SearchAny(env, settings, request).Ok? <==> OnSphere(request)
    ensures !OnSphere(request) ==> SearchAny(env, settings, request) == Raised(ValueError)
    ensures OnSphere(request) ==>
      var r := SearchAny(env, settings, request).value;
      var c := Coord(request.raDeg, request.decDeg);
      && |r| == |request.catalogs|
      && (forall i :: 0 <= i < |request.catalogs| ==> r[i] == AnyItem(env, settings, request.catalogs[i], c))
      && (forall i :: 0 <= i < |request.catalogs| && request.catalogs[i].CatsHTM? ==>
            (r[i] <==> |ConeSearchOf(env, settings, request.catalogs[i], c).srcs| > 0))
  {
  }

  // ---------------------------------------------------------------- catsHTM tables

  /** `Table(np.asarray(srcs), names=colnames)` needs one name per column and
      distinct names; otherwise it raises ValueError. */
  predicate TableBuildable(cone: ConeResult)
  {
    Rectangular(TableData(cone.colnames, cone.srcs)) && Distinct(cone.colnames)
  }

  /** np.degrees applied to a column. */
  function Degrees(env: Backends, col: seq<Value>): (r: seq<Value>)
    ensures |r| == |col| && forall i :: 0 <= i < |col| ==> r[i] == env.degrees(col[i])
  {
    seq(|col|, i requires 0 <= i < |col| => env.degrees(col[i]))
  }

  /** The table the catsHTM handlers build: the sources under their column
      names, then `tab["ra"] = np.degrees(tab[colnames[0]])` and
      `tab["dec"] = np.degrees(tab[colnames[1]])`, in that order. */
  function SourcesTable(env: Backends, cone: ConeResult): Result<TableData>
  {
    if !TableBuildable(cone) then Raised(ValueError)
    else if |cone.colnames| < 1 then Raised(IndexError)
    else
      var t0 := TableData(cone.colnames, cone.srcs);
      var t1 := WithColumn(t0, "ra", Degrees(env, ColumnNamed(t0, cone.colnames[0])));
      WithColumnSpec(t0, "ra", Degrees(env, ColumnNamed(t0, cone.colnames[0])));
      if |cone.colnames| < 2 then Raised(IndexError)
      else Ok(WithColumn(t1, "dec", Degrees(env, ColumnNamed(t1, cone.colnames[1]))))
  }

  /** The table is built exactly when the sources have a well-formed shape and
      at least two columns. It then has one row per source; its columns are the
      source columns, then `ra` and then `dec` where these are new; `ra` holds
      the first source column in degrees and `dec` the second one, as it reads
      after the `ra` assignment; every other source column keeps its values. */
  lemma SourcesTableSpec(env: Backends, cone: ConeResult)
    ensures SourcesTable(env, cone).Ok? <==> TableBuildable(cone) && |cone.colnames| >= 2
    ensures SourcesTable(env, cone).Ok? ==>
      var t0 := TableData(cone.colnames, cone.srcs);
      var ra := Degrees(env, ColumnNamed(t0, cone.colnames[0]));
      var dec := Degrees(env, if cone.colnames[1] == "ra" then ra else ColumnNamed(t0, cone.colnames[1]));
      var t := SourcesTable(env, cone).value;
      && Rectangular(t)
      && |t.rows| == |cone.srcs|
      && t.columns == cone.colnames + (if "ra" in cone.colnames then [] else ["ra"])
                                    + (if "dec" in cone.colnames then [] else ["dec"])
      && Distinct(t.columns)
      && ColumnNamed(t, "ra") == ra
      && ColumnNamed(t, "dec") == dec
      && forall c :: c in cone.colnames && c != "ra" && c != "dec" ==> ColumnNamed(t, c) == ColumnNamed(t0, c)
  {
    if TableBuildable(cone) && |cone.colnames| >= 2 {
      var t0 := TableData(cone.colnames, cone.srcs);
      var ra := Degrees(env, ColumnNamed(t0, cone.colnames[0]));
      WithColumnSpec(t0, "ra", ra);
      var t1 := WithColumn(t0, "ra", ra);
      var dec := Degrees(env, ColumnNamed(t1, cone.colnames[1]));
      assert ColumnNamed(t1, cone.colnames[1]) ==
        if cone.colnames[1] == "ra" then ra else ColumnNamed(t0, cone.colnames[1]);
      assert SourcesTable(env, cone) == Ok(WithColumn(t1, "dec", dec));
      WithTwoColumnsSpec(t0, "ra", ra, "dec", dec);
    }
  }

  /** `[CatalogItem(body=row, dist_arcsec=dist) for row, dist in zip(rows, dists)]` */
  function Matches(rows: seq<Dict<Value>>, dists: seq<real>): seq<CatalogItem>
  {
    var ps := Zip(rows, dists);
    seq(|ps|, i requires 0 <= i < |ps| => CatalogItem(ps[i].0, ps[i].1))
  }

  /** Row i is paired with distance i, as many times as the shorter list allows. */
  lemma MatchesSpec(rows: seq<Dict<Value>>, dists: seq<real>)
    ensures |Matches(rows, dists)| == Min(|rows|, |dists|)
    ensures forall i :: 0 <= i < |Matches(rows, dists)| ==>
      Matches(rows, dists)[i].body == rows[i] && Matches(rows, dists)[i].distArcsec == dists[i]
  {
  }

  // ---------------------------------------------------------------- nearest

  /** search_nearest_item for extcats items. */
  function ExtcatsNearest(env: Backends, item: QueryItem, coord: Coord): Option<CatalogItem>
    requires item.Extcats?
  {
    var found := env.findClosest(item.name, coord, item.rsArcsec, NearestProjection(item.keysToAppend));
    var row := found.0;
    if row.Some? && RowTruthy(row.value) then Some(CatalogItem(RowToJson(row).value, found.1)) else None
  }

  /** search_nearest_item for catsHTM items. */
  function CatsHtmNearest(env: Backends, settings: Settings, item: QueryItem, coord: Coord): Result<Option<CatalogItem>>
    requires item.CatsHTM?
  {
    var cone := ConeSearchOf(env, settings, item, coord);
    if |cone.srcs| == 0 then Ok(None)
    else match SourcesTable(env, cone)
      case Raised(e) => Raised(e)
      case Ok(t) =>
        var (values, dist) := env.getClosest(coord, t);
        Ok(Some(CatalogItem(RowToJson(Some(Row(t.columns, values))).value, dist)))
  }

  /** search_nearest_item */
  function NearestItem(env: Backends, settings: Settings, item: QueryItem, coord: Coord): Result<Option<CatalogItem>>
  {
    match item
    case Extcats(_, _, _, _, _) => Ok(ExtcatsNearest(env, item, coord))
    case CatsHTM(_, _, _) => CatsHtmNearest(env, settings, item, coord)
  }

  /** search_nearest_item for catsHTM items, on an astropy Table changed in place. */
  method CatsHtmNearestItem(env: Backends, settings: Settings, item: QueryItem, coord: Coord)
    returns (r: Result<Option<CatalogItem>>)
    requires item.CatsHTM?
    ensures r == CatsHtmNearest(env, settings, item, coord)
  {
    var cone := env.coneSearch(item.name, coord, item.rsArcsec, CatalogsDirArg(settings));
    if |cone.srcs| == 0 {
      return Ok(None);
    }
    var tab := BuildSourcesTable(env, cone);
    if tab.Raised? {
      return Raised(tab.error);
    }
    var t := tab.value.Snapshot();
    var (values, dist) := env.getClosest(coord, t);
    r := Ok(Some(CatalogItem(RowToJson(Some(Row(tab.value.names, values))).value, dist)));
  }

  /** The catsHTM handlers' table construction: builds the sources table from
      the cone search's rows and column names, then adds the `ra` and `dec`
      columns to it in place. */
  method BuildSourcesTable(env: Backends, cone: ConeResult) returns (r: Result<Table>)
    ensures SourcesTable(env, cone).Raised? <==> r.Raised?
    ensures r.Raised? ==> r.error == SourcesTable(env, cone).error
    ensures r.Ok? ==> fresh(r.value) && r.value.Valid() && r.value.Snapshot() == SourcesTable(env, cone).value
  {
    if !TableBuildable(cone) {
      return Raised(ValueError);
    }
    var tab := new Table.FromRows(cone.colnames, cone.srcs);
    if |cone.colnames| < 1 {
      return Raised(IndexError);
    }
    ghost var t0 := tab.Snapshot();
    tab.SetColumn("ra", Degrees(env, tab.Column(cone.colnames[0])));
    WithColumnSpec(t0, "ra", Degrees(env, ColumnNamed(t0, cone.colnames[0])));
    if |cone.colnames| < 2 {
      return Raised(IndexError);
    }
    tab.SetColumn("dec", Degrees(env, tab.Column(cone.colnames[1])));
    r := Ok(tab);
  }

  // ---------------------------------------------------------------- all

  /** search_all_item for extcats items. */
  function ExtcatsAll(env: Backends, item: QueryItem, coord: Coord): Option<seq<CatalogItem>>
    requires item.Extcats?
  {
    var tab := env.findWithin(item.name, coord, item.rsArcsec, AllProjection(item.keysToAppend));
    if tab.Some? && TableTruthy(tab.value) then
      var dists := env.getDistances(coord, tab.value);
      var rows := TableToJson(tab, env.promote).value;
      Some(Matches(rows, dists))
    else None
  }

  /** search_all_item for catsHTM items. */
  function CatsHtmAll(env: Backends, settings: Settings, item: QueryItem, coord: Coord): Result<Option<seq<CatalogItem>>>
    requires item.CatsHTM?
  {
    var cone := ConeSearchOf(env, settings, item, coord);
    if |cone.srcs| == 0 then Ok(None)
    else match SourcesTable(env, cone)
      case Raised(e) => Raised(e)
      case Ok(t) =>
        var dists := env.getDistances(coord, t);
        var rows := TableToJson(Some(t), env.promote).value;
        Ok(Some(Matches(rows, dists)))
  }

  /** search_all_item */
  function AllItem(env: Backends, settings: Settings, item: QueryItem, coord: Coord): Result<Option<seq<CatalogItem>>>
  {
    match item
    case Extcats(_, _, _, _, _) => Ok(ExtcatsAll(env, item, coord))
    case CatsHTM(_, _, _) => CatsHtmAll(env, settings, item, coord)
  }

  /** search_all_item for catsHTM items, on an astropy Table changed in place. */
  method CatsHtmAllItem(env: Backends, settings: Settings, item: QueryItem, coord: Coord)
    returns (r: Result<Option<seq<CatalogItem>>>)
    requires item.CatsHTM?
    ensures r == CatsHtmAll(env, settings, item, coord)
  {
    var cone := env.coneSearch(item.name, coord, item.rsArcsec, CatalogsDirArg(settings));
    if |cone.srcs| == 0 {
      return Ok(None);
    }
    var tab := BuildSourcesTable(env, cone);
    if tab.Raised? {
      return Raised(tab.error);
    }
    var t := tab.value.Snapshot();
    var dists := env.getDistances(coord, t);
    var rows := TableToJson(Some(t), env.promote).value;
    r := Ok(Some(Matches(rows, dists)));
  }

  // ---------------------------------------------------------------- endpoints

  /** The handler results for each catalog, in request order. */
  function NearestResults(env: Backends, settings: Settings, catalogs: seq<QueryItem>, coord: Coord): seq<Result<Option<CatalogItem>>>
  {
    seq(|catalogs|, i requires 0 <= i < |catalogs| => NearestItem(env, settings, catalogs[i], coord))
  }

  function AllResults(env: Backends, settings: Settings, catalogs: seq<QueryItem>, coord: Coord): seq<Result<Option<seq<CatalogItem>>>>
  {
    seq(|catalogs|, i requires 0 <= i < |catalogs| => AllItem(env, settings, catalogs[i], coord))
  }

  /** search_nearest, as a value: the centre, then the comprehension. */
  function NearestResponse(env: Backends, settings: Settings, request: ConeSearchRequest): Result<seq<Option<CatalogItem>>>
  {
    match CenterOf(request)
    case Raised(e) => Raised(e)
    case Ok(coord) => Collect(NearestResults(env, settings, request.catalogs, coord))
  }

  /** search_all, as a value: the centre, then the comprehension. */
  function AllResponse(env: Backends, settings: Settings, request: ConeSearchRequest): Result<seq<Option<seq<CatalogItem>>>>
  {
    match CenterOf(request)
    case Raised(e) => Raised(e)
    case Ok(coord) => Collect(AllResults(env, settings, request.catalogs, coord))
  }

  /** search_nearest_item, dispatched on the item's `use` tag. */
  method SearchNearestItem(env: Backends, settings: Settings, item: QueryItem, coord: Coord)
    returns (r: Result<Option<CatalogItem>>)
    ensures r == NearestItem(env, settings, item, coord)
  {
    match item
    case Extcats(_, _, _, _, _) => r := Ok(ExtcatsNearest(env, item, coord));
    case CatsHTM(_, _, _) => r := CatsHtmNearestItem(env, settings, item, coord);
  }

  /** search_all_item, dispatched on the item's `use` tag. */
  method SearchAllItem(env: Backends, settings: Settings, item: QueryItem, coord: Coord)
    returns (r: Result<Option<seq<CatalogItem>>>)
    ensures r == AllItem(env, settings, item, coord)
  {
    match item
    case Extcats(_, _, _, _, _) => r := Ok(ExtcatsAll(env, item, coord));
    case CatsHTM(_, _, _) => r := CatsHtmAllItem(env, settings, item, coord);
  }

  /** The comprehension of search_nearest over the catalogs, for a centre
      already built: it stops at the first handler that raises. */
  method SearchNearestItems(env: Backends, settings: Settings, catalogs: seq<QueryItem>, coord: Coord)
    returns (r: Result<seq<Option<CatalogItem>>>)
    ensures r == Collect(NearestResults(env, settings, catalogs, coord))
  {
    ghost var spec := NearestResults(env, settings, catalogs, coord);
    var found: seq<Option<CatalogItem>> := [];
    for i := 0 to |catalogs|
      invariant Collect(spec[..i]) == Ok(found)
    {
      var x := SearchNearestItem(env, settings, catalogs[i], coord);
      CollectStep(spec, i, found);
      if x.Raised? {
        return Raised(x.error);
      }
      found := found + [x.value];
    }
    assert spec[..|catalogs|] == spec;
    r := Ok(found);
  }

  /** search_nearest: the centre, then the comprehension over request.catalogs. */
  method SearchNearest(env: Backends, settings: Settings, request: ConeSearchRequest)
    returns (r: Result<seq<Option<CatalogItem>>>)
    ensures r == NearestResponse(env, settings, request)
  {
    var center := CenterOf(request);
    if center.Raised? {
      return Raised(center.error);
    }
    r := SearchNearestItems(env, settings, request.catalogs, center.value);
  }

  /** The comprehension of search_all over the catalogs, for a centre
      already built: it stops at the first handler that raises. */
  method SearchAllItems(env: Backends, settings: Settings, catalogs: seq<QueryItem>, coord: Coord)
    returns (r: Result<seq<Option<seq<CatalogItem>>>>)
    ensures r == Collect(AllResults(env, settings, catalogs, coord))
  {
    ghost var spec := AllResults(env, settings, catalogs, coord);
    var found: seq<Option<seq<CatalogItem>>> := [];
    for i := 0 to |catalogs|
      invariant Collect(spec[..i]) == Ok(found)
    {
      var x := SearchAllItem(env, settings, catalogs[i], coord);
      CollectStep(spec, i, found);
      if x.Raised? {
        return Raised(x.error);
      }
      found := found + [x.value];
    }
    assert spec[..|catalogs|] == spec;
    r := Ok(found);
  }

  /** search_all: the centre, then the comprehension over request.catalogs. */
  method SearchAll(env: Backends, settings: Settings, request: ConeSearchRequest)
    returns (r: Result<seq<Option<seq<CatalogItem>>>>)
    ensures r == AllResponse(env, settings, request)
  {
    var center := CenterOf(request);
    if center.Raised? {
      return Raised(center.error);
    }
    r := SearchAllItems(env, settings, request.catalogs, center.value);
  }

  // ---------------------------------------------------------------- properties

  /** A centre off the sphere raises ValueError before any catalog is
      searched. Otherwise the endpoint answers once per catalog, in request
      order, unless some handler raises; then it raises the first such
      exception. */
  lemma SearchNearestSpec(env: Backends, settings: Settings, request: ConeSearchRequest)
    ensures !OnSphere(request) ==> NearestResponse(env, settings, request) == Raised(ValueError)
    ensures OnSphere(request) ==>
      var r := NearestResponse(env, settings, request);
      var c := Coord(request.raDeg, request.decDeg);
      && (r.Ok? <==> forall i :: 0 <= i < |request.catalogs| ==> NearestItem(env, settings, request.catalogs[i], c).Ok?)
      && (r.Ok? ==>
            && |r.value| == |request.catalogs|
            && forall i :: 0 <= i < |request.catalogs| ==> r.value[i] == NearestItem(env, settings, request.catalogs[i], c).value)
      && forall k :: 0 <= k < |request.catalogs| ==>
           (NearestItem(env, settings, request.catalogs[k], c).Raised? &&
            (forall i :: 0 <= i < k ==> NearestItem(env, settings, request.catalogs[i], c).Ok?)) ==>
           r == Raised(NearestItem(env, settings, request.catalogs[k], c).error)
  {
    if OnSphere(request) {
      var c := Coord(request.raDeg, request.decDeg);
      var rs := NearestResults(env, settings, request.catalogs, c);
      assert forall i :: 0 <= i < |rs| ==> rs[i] == NearestItem(env, settings, request.catalogs[i], c);
      CollectOk(rs);
      forall k | 0 <= k < |rs| && rs[k].Raised? && (forall i :: 0 <= i < k ==> rs[i].Ok?)
        ensures Collect(rs) == Raised(rs[k].error)
      {
        CollectFirstError(rs, k);
      }
    }
  }



  /** A centre off the sphere raises ValueError before any catalog is
      searched. Otherwise the endpoint answers once per catalog, in request
      order, unless some handler raises; then it raises the first such
      exception. */
  lemma SearchAllSpec(env: Backends, settings: Settings, request: ConeSearchRequest)
    ensures !OnSphere(request) ==> AllResponse(env, settings, request) == Raised(ValueError)
    ensures OnSphere(request) ==>
      var r := AllResponse(env, settings, request);
      var c := Coord(request.raDeg, request.decDeg);
      && (r.Ok? <==> forall i :: 0 <= i < |request.catalogs| ==> AllItem(env, settings, request.catalogs[i], c).Ok?)
      && (r.Ok? ==>
            && |r.value| == |request.catalogs|
            && forall i :: 0 <= i < |request.catalogs| ==> r.value[i] == AllItem(env, settings, request.catalogs[i], c).value)
      && forall k :: 0 <= k < |request.catalogs| ==>
           (AllItem(env, settings, request.catalogs[k], c).Raised? &&
            (forall i :: 0 <= i < k ==> AllItem(env, settings, request.catalogs[i], c).Ok?)) ==>
           r == Raised(AllItem(env, settings, request.catalogs[k], c).error)
  {
    if OnSphere(request) {
      var c := Coord(request.raDeg, request.decDeg);
      var rs := AllResults(env, settings, request.catalogs, c);
      assert forall i :: 0 <= i < |rs| ==> rs[i] == AllItem(env, settings, request.catalogs[i], c);
      CollectOk(rs);
      forall k | 0 <= k < |rs| && rs[k].Raised? && (forall i :: 0 <= i < k ==> rs[i].Ok?)
        ensures Collect(rs) == Raised(rs[k].error)
      {
        CollectFirstError(rs, k);
      }
    }
  }



  /** For a catsHTM item the three handlers agree: nearest and all are None
      exactly when any is false, and nearest raises exactly when all does. */
  lemma CatsHtmNoSourcesRule(env: Backends, settings: Settings, item: QueryItem, coord: Coord)
    requires item.CatsHTM?
    ensures CatsHtmNearest(env, settings, item, coord) == Ok(None) <==> !CatsHtmAny(env, settings, item, coord)
    ensures CatsHtmAll(env, settings, item, coord) == Ok(None) <==> !CatsHtmAny(env, settings, item, coord)
    ensures CatsHtmNearest(env, settings, item, coord).Raised? <==> CatsHtmAll(env, settings, item, coord).Raised?
    ensures CatsHtmNearest(env, settings, item, coord).Raised? ==>
      CatsHtmAny(env, settings, item, coord) &&
      !(TableBuildable(ConeSearchOf(env, settings, item, coord)) && |ConeSearchOf(env, settings, item, coord).colnames| >= 2)
  {
    SourcesTableSpec(env, ConeSearchOf(env, settings, item, coord));
  }

  /** Each catsHTM match pairs row i of the sources table with distance i; there
      are as many matches as the shorter of the two lists, and every body is
      keyed by all the table's columns, so it carries `ra` and `dec`. */
  lemma CatsHtmAllMatches(env: Backends, settings: Settings, item: QueryItem, coord: Coord)
    requires item.CatsHTM?
    ensures var cone := ConeSearchOf(env, settings, item, coord);
      CatsHtmAll(env, settings, item, coord).Ok? && CatsHtmAll(env, settings, item, coord).value.Some? ==>
        var t := SourcesTable(env, cone).value;
        var ms := CatsHtmAll(env, settings, item, coord).value.value;
        var dists := env.getDistances(coord, t);
        && |ms| == Min(|cone.srcs|, |dists|)
        && forall i :: 0 <= i < |ms| ==>
             ms[i].distArcsec == dists[i] &&
             ms[i].body == Record(t.columns, AsList(env.promote, t.rows[i])) &&
             Keys(ms[i].body) == t.columns && "ra" in Keys(ms[i].body) && "dec" in Keys(ms[i].body)
  {
    var all := CatsHtmAll(env, settings, item, coord);
    if all.Ok? && all.value.Some? {
      var cone := ConeSearchOf(env, settings, item, coord);
      SourcesTableSpec(env, cone);
      var t := SourcesTable(env, cone).value;
      var dists := env.getDistances(coord, t);
      var rows := TableToJson(Some(t), env.promote).value;
      assert all.value.value == Matches(rows, dists);
      TableToJsonSpec(Some(t), env.promote);
      MatchesSpec(rows, dists);
    }
  }

  /** The extcats nearest handler answers None exactly when findclosest returns
      no row, or a row without columns; otherwise the match body is the
      row's record and its distance is the one findclosest reports. */
  lemma ExtcatsNearestRule(env: Backends, item: QueryItem, coord: Coord)
    requires item.Extcats?
    ensures var found := env.findClosest(item.name, coord, item.rsArcsec, NearestProjection(item.keysToAppend));
      var row := found.0;
      && (ExtcatsNearest(env, item, coord).None? <==> row.None? || !RowTruthy(row.value))
      && (ExtcatsNearest(env, item, coord).Some? ==>
            ExtcatsNearest(env, item, coord).value == CatalogItem(Record(row.value.columns, row.value.values), found.1))
  {
  }

  /** The extcats all handler answers None exactly when findwithin returns no
      table or an empty one; otherwise match i pairs row i with distance i. */
  lemma ExtcatsAllRule(env: Backends, item: QueryItem, coord: Coord)
    requires item.Extcats?
    ensures var tab := env.findWithin(item.name, coord, item.rsArcsec, AllProjection(item.keysToAppend));
      && (ExtcatsAll(env, item, coord).None? <==> tab.None? || !TableTruthy(tab.value))
      && (ExtcatsAll(env, item, coord).Some? ==>
            var ms := ExtcatsAll(env, item, coord).value;
            var dists := env.getDistances(coord, tab.value);
            && |ms| == Min(|tab.value.rows|, |dists|)
            && forall i :: 0 <= i < |ms| ==>
                 ms[i].distArcsec == dists[i] &&
                 ms[i].body == Record(tab.value.columns, AsList(env.promote, tab.value.rows[i])))
  {
    var tab := env.findWithin(item.name, coord, item.rsArcsec, AllProjection(item.keysToAppend));
    if tab.Some? && TableTruthy(tab.value) {
      MatchesSpec(TableToJson(tab, env.promote).value, env.getDistances(coord, tab.value));
    }
  }

  /** The catsHTM handlers never look at keys_to_append. */
  lemma CatsHtmIgnoresKeys(env: Backends, settings: Settings, item: QueryItem, coord: Coord, keys: Option<seq<string>>)
    requires item.CatsHTM?
    ensures CatsHtmAny(env, settings, CatsHTM(item.name, item.rsArcsec, keys), coord) == CatsHtmAny(env, settings, item, coord)
    ensures CatsHtmNearest(env, settings, CatsHTM(item.name, item.rsArcsec, keys), coord) == CatsHtmNearest(env, settings, item, coord)
    ensures CatsHtmAll(env, settings, CatsHTM(item.name, item.rsArcsec, keys), coord) == CatsHtmAll(env, settings, item, coord)
  {
  }

  /** The extcats handlers never pass pre_filter or post_filter on. */
  lemma ExtcatsIgnoresFilters(env: Backends, item: QueryItem, coord: Coord, pre: Option<Dict<Value>>, post: Option<Dict<Value>>)
    requires item.Extcats?
    ensures ExtcatsAny(env, Extcats(item.name, item.rsArcsec, item.keysToAppend, pre, post), coord) == ExtcatsAny(env, item, coord)
    ensures ExtcatsNearest(env, Extcats(item.name, item.rsArcsec, item.keysToAppend, pre, post), coord) == ExtcatsNearest(env, item, coord)
    ensures ExtcatsAll(env, Extcats(item.name, item.rsArcsec, item.keysToAppend, pre, post), coord) == ExtcatsAll(env, item, coord)
  {
  }
}

/** The catalog listing: descriptions of the extcats catalogs (one per Mongo
    database holding science metadata) followed by descriptions of the catsHTM
    catalogs (one per README entry whose column file can be loaded). */
module Catalogs {
  import opened Prelude
  import opened OrderedDict
  import opened Json
  import opened ReadmeLine
  import opened Models

  // ---------------------------------------------------------------- catsHTM

  /** The part of a catsHTM ColCell .mat file the listing reads: the ColCell
      and ColUnits cell arrays, flattened; each cell is an array of strings. */
  datatype MatMeta = MatMeta(colCell: seq<seq<string>>, colUnits: seq<seq<string>>)

  /** loadmat of `<catshtm_dir>/<get_CatDir(key)>/<ColCelFile % key>`, given the
      directory and the catalog key; None stands for FileNotFoundError. */
  type MatLoader = (string, string) -> Option<MatMeta>

  /** The catsHTM README the listing parses, one line per entry, as
      `line.strip()` leaves them. */
  const CatsHtmReadme: seq<string> := [
    "2MASS (input name: TMASS)",
    "2MASSxsc (input name: TMASSxsc) - 2MASS extended source catalog",
    "AKARI (input name: AKARI)",
    "APASS (input name: APASS) - AAVSO All Sky Photometric Sky Survey (~5.5x10^7 sources)",
    "Cosmos (input name: Cosmos) - Sources in the Cosmos field",
    "DECaLS (input name: DECaLS) - DECaLS DR5 release",
    "FIRST (input name: FIRST) - (~9.5x10^5 sources)",
    "GAIA/DR1 (input name: GAIADR1) - (~1.1x10^9 sources).",
    "GAIA/DR2 (input name: GAIADR2) - NEW! (~1.6x10^9 sources)",
    "GALEX (input name: GALEX) - GALAEX/GR6Plus7 (~1.7x10^8 sources).",
    "HSC/v2 (input name: HSCv2)- Hubble source catalog",
    "IPHAS/DR2 (input name: IPHAS)",
    "NED redshifts (input name: NEDz)",
    "NVSS (input name: NVSS) - (~1.8x10^6 sources)",
    "PS1 (input name: PS1) - Pan-STARRS (~2.6x10^9 sources; A cleaned version of the PS1 stack catalog; some missing tiles below declination of zero [being corrected])",
    "PTFpc (input name: PTFpc) - PTF photometric catalog",
    "ROSATfsc (input name: ROSATfsc) - ROSAT faint source catalog",
    "SDSS/DR10 (input name: SDSSDR10)- Primary sources from SDSS/DR10 (last photometric release)",
    "Skymapper - will be added soon.",
    "SpecSDSS/DR14 (input name: SpecSDSS) - SDSS spectroscopic catalog",
    "Spitzer/SAGE (input name SAGE)",
    "Spitzer/IRAC (input name IRACgc) - Spitzer IRAC galactic center survey",
    "UCAC4 (input name: UCAC4) - (~1.1x10^8 sources)",
    "UKIDSS/DR10 (input name: UKIDSS)",
    "USNOB1 (not yet available)",
    "VISTA/Viking/DR3 (not yet available)",
    "VST/ATLAS/DR3 (input name: VSTatlas)",
    "VST/KiDS/DR3 (input name: VSTkids)",
    "WISE (input name: WISE) - ~5.6x10^8 sources",
    "XMM (input name: XMM)- 7.3x10^5 sources 3XMM-DR7 (Rosen et al. 2016; A&A 26, 590)"
  ]

  /** Python truth value of an optional string. */
  predicate Truthy(s: Option<string>)
  {
    s.Some? && |s.value| > 0
  }

  /** `[s for s in parts if s]` */
  function Present(parts: seq<Option<string>>): seq<string>
  {
    if parts == [] then []
    else (if Truthy(parts[0]) then [parts[0].value] else []) + Present(parts[1..])
  }

  /** `sep.join(parts)` */
  function Join(parts: seq<string>, sep: string): string
  {
    if parts == [] then ""
    else if |parts| == 1 then parts[0]
    else parts[0] + sep + Join(parts[1..], sep)
  }

  /** `" -- ".join([s for s in (name, description) if s])` */
  function Describe(display: string, description: Option<string>): string
  {
    Join(Present([Some(display), description]), " -- ")
  }

  /** The description joins the display name and the README description with
      ` -- `, leaving out whichever is empty or absent. */
  lemma DescribeSpec(display: string, description: Option<string>)
    ensures Describe(display, description) ==
      (if |display| > 0 && Truthy(description) then display + " -- " + description.value
       else if |display| > 0 then display
       else if Truthy(description) then description.value
       else "")
  {
    var parts := [Some(display), description];
    assert parts[1..] == [description] && [description][1..] == [];
    assert Present([description]) == (if Truthy(description) then [description.value] else []);
    assert Present(parts) == (if |display| > 0 then [display] else []) + Present([description]);
    if |display| > 0 && Truthy(description) {
      assert Present(parts) == [display, description.value];
      assert [display, description.value][1..] == [description.value];
      assert Join([display, description.value], " -- ") == display + " -- " + Join([description.value], " -- ");
    }
  }

  /** `{"name": str(k[0]), "unit": str(u[0]) if len(u) else None}`; `k[0]` of
      an empty cell raises IndexError. */
  function ColumnOf(k: seq<string>, u: seq<string>): Result<Value>
  {
    if |k| == 0 then Raised(IndexError)
    else Ok(Dict([("name", Str(k[0])), ("unit", if |u| > 0 then Str(u[0]) else Null)]))
  }

  /** The column list of one catalog: ColCell and ColUnits zipped. */
  function ColumnsOf(meta: MatMeta): Result<seq<Value>>
  {
    var ps := Zip(meta.colCell, meta.colUnits);
    Collect(seq(|ps|, i requires 0 <= i < |ps| => ColumnOf(ps[i].0, ps[i].1)))
  }

  /** The columns are built exactly when no name cell is empty; then there is
      one column per name/unit pair, named by the first string of the name
      cell, with the first string of the unit cell as unit or None when that
      cell is empty. */
  lemma ColumnsOfSpec(meta: MatMeta)
    ensures var n := Min(|meta.colCell|, |meta.colUnits|);
      && (ColumnsOf(meta).Ok? <==> forall i :: 0 <= i < n ==> |meta.colCell[i]| > 0)
      && (ColumnsOf(meta).Ok? ==>
            && |ColumnsOf(meta).value| == n
            && forall i :: 0 <= i < n ==>
                 && ColumnsOf(meta).value[i].Dict?
                 && Keys(ColumnsOf(meta).value[i].entries) == ["name", "unit"]
                 && Get(ColumnsOf(meta).value[i].entries, "name") == Some(Str(meta.colCell[i][0]))
                 && Get(ColumnsOf(meta).value[i].entries, "unit") ==
                      Some(if |meta.colUnits[i]| > 0 then Str(meta.colUnits[i][0]) else Null))
  {
    var ps := Zip(meta.colCell, meta.colUnits);
    var rs := seq(|ps|, i requires 0 <= i < |ps| => ColumnOf(ps[i].0, ps[i].1));
    assert forall i :: 0 <= i < |rs| ==> rs[i] == ColumnOf(meta.colCell[i], meta.colUnits[i]);
    CollectOk(rs);
    forall i | 0 <= i < |rs| {
      ColumnOfSpec(meta.colCell[i], meta.colUnits[i]);
    }
  }

  lemma ColumnOfSpec(k: seq<string>, u: seq<string>)
    ensures ColumnOf(k, u).Ok? <==> |k| > 0
    ensures ColumnOf(k, u).Ok? ==>
      && ColumnOf(k, u).value.Dict?
      && Keys(ColumnOf(k, u).value.entries) == ["name", "unit"]
      && Get(ColumnOf(k, u).value.entries, "name") == Some(Str(k[0]))
      && Get(ColumnOf(k, u).value.entries, "unit") == Some(if |u| > 0 then Str(u[0]) else Null)
  {
    if |k| > 0 {
      var es := ColumnOf(k, u).value.entries;
      assert Keys(es)[0] == "name" && Keys(es)[1] == "unit";
      GetAt(es, 1);
    }
  }

  /** The description of one catsHTM catalog. */
  function CatsHtmEntry(p: Parsed, columns: seq<Value>): Dict<Value>
  {
    [("name", Str(p.key)),
     ("use", Str("catsHTM")),
     ("description", Str(Describe(p.display, p.description))),
     ("columns", List(columns))]
  }

  /** A catsHTM description holds its four fields once each, in order: the
      README key as name, `catsHTM` as use, the joined description and the
      column list. */
  lemma CatsHtmEntrySpec(p: Parsed, columns: seq<Value>)
    ensures Keys(CatsHtmEntry(p, columns)) == ["name", "use", "description", "columns"]
    ensures DistinctKeys(CatsHtmEntry(p, columns))
    ensures Get(CatsHtmEntry(p, columns), "name") == Some(Str(p.key))
    ensures Get(CatsHtmEntry(p, columns), "use") == Some(Str("catsHTM"))
    ensures Get(CatsHtmEntry(p, columns), "description") == Some(Str(Describe(p.display, p.description)))
    ensures Get(CatsHtmEntry(p, columns), "columns") == Some(List(columns))
  {
    var e := CatsHtmEntry(p, columns);
    assert DistinctKeys(e);
    GetAt(e, 0);
    GetAt(e, 1);
    GetAt(e, 2);
    GetAt(e, 3);
  }

  /** What one pass of the loop over the README appends: nothing for a line
      that does not match or whose column file is missing, else one entry;
      or the exception the column list raises. */
  function CatsHtmLineEntries(dir: string, load: MatLoader, line: string): Result<seq<Dict<Value>>>
  {
    match ParseLine(line)
    case None => Ok([])
    case Some(p) =>
      match load(dir, p.key)
      case None => Ok([])
      case Some(meta) =>
        match ColumnsOf(meta)
        case Raised(e) => Raised(e)
        case Ok(columns) => Ok([CatsHtmEntry(p, columns)])
  }

  /** The pass of the loop over the README for one line. */
  function LineStep(dir: string, load: MatLoader): string -> Result<seq<Dict<Value>>>
  {
    line => CatsHtmLineEntries(dir, load, line)
  }

  /** The loop over the README, as a value, for any sequence of lines. */
  function LinesListing(dir: string, load: MatLoader, lines: seq<string>): Result<seq<Dict<Value>>>
  {
    ConcatMap(LineStep(dir, load), lines)
  }

  /** catshtm_catalog_descriptions, as a value, for the README lines given
      (the function itself uses CatsHtmReadme). */
  function CatsHtmListing(settings: Settings, load: MatLoader, readme: seq<string>): Result<seq<Dict<Value>>>
  {
    match settings.catshtmDir
    case None => Ok([])
    case Some(dir) => LinesListing(dir, load, readme)
  }

  /** The loop of catshtm_catalog_descriptions over the lines of the README. */
  method DescribeLines(dir: string, load: MatLoader, lines: seq<string>) returns (r: Result<seq<Dict<Value>>>)
    ensures r == LinesListing(dir, load, lines)
  {
    var catalogs: seq<Dict<Value>> := [];
    for i := 0 to |lines|
      invariant LinesListing(dir, load, lines[..i]) == Ok(catalogs)
    {
      ConcatMapSnoc(LineStep(dir, load), lines, i);
      var parsed := ParseLine(lines[i]);
      if parsed.None? {
        assert catalogs + [] == catalogs;
        continue;
      }
      var meta := load(dir, parsed.value.key);
      if meta.None? {
        assert catalogs + [] == catalogs;
        continue;
      }
      var columns := ColumnsOf(meta.value);
      if columns.Raised? {
        ConcatMapStops(LineStep(dir, load), lines, i + 1);
        return Raised(columns.error);
      }
      catalogs := catalogs + [CatsHtmEntry(parsed.value, columns.value)];
    }
    assert lines[..|lines|] == lines;
    return Ok(catalogs);
  }

  /** catshtm_catalog_descriptions */
  method CatshtmCatalogDescriptions(settings: Settings, load: MatLoader) returns (r: Result<seq<Dict<Value>>>)
    ensures r == CatsHtmListing(settings, load, CatsHtmReadme)
  {
    if settings.catshtmDir.None? {
      return Ok([]);
    }
    r := DescribeLines(settings.catshtmDir.value, load, CatsHtmReadme);
  }

  /** Line i matches and has the given key. */
  predicate ListsKey(lines: seq<string>, key: string, i: int)
  {
    0 <= i < |lines| && ParseLine(lines[i]).Some? && ParseLine(lines[i]).value.key == key
  }

  /** A catsHTM catalog description: its keys, its `use`, and a name that one
      of the lines lists as key. */
  predicate IsCatsHtmEntry(lines: seq<string>, e: Dict<Value>)
  {
    && Keys(e) == ["name", "use", "description", "columns"]
    && Get(e, "use") == Some(Str("catsHTM"))
    && e[0].1.Str?
    && exists i :: 0 <= i < |lines| && ListsKey(lines, e[0].1.s, i)
  }

  /** The loop completes unless a catalog whose column file loads has an empty
      name cell. Every entry is a catsHTM description keyed name, use,
      description, columns, whose name is the key of a line that matches. */
  lemma LinesListingSpec(dir: string, load: MatLoader, lines: seq<string>)
    ensures LinesListing(dir, load, lines).Ok? <==>
      forall i :: 0 <= i < |lines| ==> CatsHtmLineEntries(dir, load, lines[i]).Ok?
    ensures LinesListing(dir, load, lines).Ok? ==>
      forall e :: e in LinesListing(dir, load, lines).value ==> IsCatsHtmEntry(lines, e)
  {
    var steps := MapSeq(LineStep(dir, load), lines);
    ConcatAllOk(steps);
    forall i | 0 <= i < |steps| && steps[i].Ok?
      ensures forall x :: x in steps[i].value ==> IsCatsHtmEntry(lines, x)
    {
      LineEntriesDescribed(dir, load, lines, i);
    }
    ConcatAllEvery(steps, e => IsCatsHtmEntry(lines, e));
  }

  lemma LineEntriesDescribed(dir: string, load: MatLoader, lines: seq<string>, i: nat)
    requires i < |lines| && CatsHtmLineEntries(dir, load, lines[i]).Ok?
    ensures forall x :: x in CatsHtmLineEntries(dir, load, lines[i]).value ==> IsCatsHtmEntry(lines, x)
  {
    var p := ParseLine(lines[i]);
    if p.Some? && load(dir, p.value.key).Some? && ColumnsOf(load(dir, p.value.key).value).Ok? {
      var e := CatsHtmEntry(p.value, ColumnsOf(load(dir, p.value.key).value).value);
      CatsHtmEntrySpec(p.value, ColumnsOf(load(dir, p.value.key).value).value);
      assert ListsKey(lines, p.value.key, i);
      assert IsCatsHtmEntry(lines, e);
    }
  }

  /** A line that does not match the README pattern, or whose column file is
      missing, adds nothing. */
  lemma SkippedLine(dir: string, load: MatLoader, lines: seq<string>, line: string)
    requires ParseLine(line).None? || load(dir, ParseLine(line).value.key).None?
    ensures LinesListing(dir, load, lines + [line]) == LinesListing(dir, load, lines)
  {
    var both := lines + [line];
    ConcatMapSnoc(LineStep(dir, load), both, |lines|);
    assert both[..|lines| + 1] == both && both[..|lines|] == lines;
    var l := LinesListing(dir, load, lines);
    if l.Ok? {
      assert l.value + [] == l.value;
    }
  }

  /** The lines that give an entry: they match and their column file loads. */
  function Described(dir: string, load: MatLoader): string -> bool
  {
    line => ParseLine(line).Some? && load(dir, ParseLine(line).value.key).Some?
  }

  /** When the loop completes it holds exactly one entry per line that matches
      and whose column file loads, in README order: the entry made of that
      line's groups and of its column file's columns. */
  lemma LinesListingEntries(dir: string, load: MatLoader, lines: seq<string>)
    ensures LinesListing(dir, load, lines).Ok? ==>
      var ds := Filter(Described(dir, load), lines);
      && |LinesListing(dir, load, lines).value| == |ds|
      && forall i :: 0 <= i < |ds| ==>
           && ParseLine(ds[i]).Some?
           && load(dir, ParseLine(ds[i]).value.key).Some?
           && ColumnsOf(load(dir, ParseLine(ds[i]).value.key).value).Ok?
           && LinesListing(dir, load, lines).value[i] ==
                CatsHtmEntry(ParseLine(ds[i]).value, ColumnsOf(load(dir, ParseLine(ds[i]).value.key).value).value)
  {
    var f, keep := LineStep(dir, load), Described(dir, load);
    ConcatMapSingles(f, keep, lines);
    if LinesListing(dir, load, lines).Ok? {
      var ds := Filter(keep, lines);
      forall i | 0 <= i < |ds|
        ensures load(dir, ParseLine(ds[i]).value.key).Some?
      {
        assert ds[i] in ds;
      }
    }
  }

  /** The lines of two README parts contribute their entries in order. */
  lemma LinesListingAppend(dir: string, load: MatLoader, a: seq<string>, b: seq<string>)
    ensures LinesListing(dir, load, a + b) == Concat(LinesListing(dir, load, a), LinesListing(dir, load, b))
  {
    ConcatMapAppend(LineStep(dir, load), a, b);
  }

  /** Without a catsHTM directory nothing is listed; with one, the README
      lines are described as above. */
  lemma CatsHtmListingSpec(settings: Settings, load: MatLoader, readme: seq<string>)
    ensures settings.catshtmDir.None? ==> CatsHtmListing(settings, load, readme) == Ok([])
    ensures CatsHtmListing(settings, load, readme).Ok? ==>
      forall e :: e in CatsHtmListing(settings, load, readme).value ==> IsCatsHtmEntry(readme, e)
  {
    if settings.catshtmDir.Some? {
      LinesListingSpec(settings.catshtmDir.value, load, readme);
    }
  }

  // ---------------------------------------------------------------- extcats

  /** The Mongo calls the listing makes. */
  datatype Mongo = Mongo(
    // mongo.list_database_names()
    databaseNames: seq<string>,
    // mongo[db].meta.find_one({"_id": "science"}, {"_id": 0})
    scienceMeta: string -> Option<Dict<Value>>,
    // mongo[db].srcs.find_one({}, {"_id": 0, "pos": 0})
    firstSource: string -> Option<Dict<Value>>)

  /** Python truth value of find_one's result: a document with fields. */
  predicate MetaTruthy(meta: Option<Dict<Value>>)
  {
    meta.Some? && |meta.value| > 0
  }

  /** `[{"name": k, "unit": None} for k in src.keys()]` */
  function SourceColumns(keys: seq<string>): seq<Value>
  {
    seq(|keys|, i requires 0 <= i < |keys| => Dict([("name", Str(keys[i])), ("unit", Null)]))
  }

  /** The description fields the listing provides before the metadata. */
  function ExtcatsBase(db: string, src: Dict<Value>): Dict<Value>
  {
    [("name", Str(db)), ("use", Str("extcats")), ("columns", List(SourceColumns(Keys(src))))]
  }

  /** `{"name": db, "use": "extcats", "columns": [...], **meta}` */
  function ExtcatsEntry(db: string, src: Dict<Value>, meta: Dict<Value>): Dict<Value>
  {
    Update(ExtcatsBase(db, src), meta)
  }

  /** The metadata document wins over the provided fields but leaves them in
      the first three places; every other metadata field follows; each key is
      held once. */
  lemma ExtcatsEntrySpec(db: string, src: Dict<Value>, meta: Dict<Value>)
    requires DistinctKeys(meta)
    ensures ["name", "use", "columns"] <= Keys(ExtcatsEntry(db, src, meta))
    ensures forall k :: k in Keys(ExtcatsEntry(db, src, meta)) <==> k in ["name", "use", "columns"] || k in Keys(meta)
    ensures Get(ExtcatsEntry(db, src, meta), "name") ==
      if "name" in Keys(meta) then Get(meta, "name") else Some(Str(db))
    ensures Get(ExtcatsEntry(db, src, meta), "use") ==
      if "use" in Keys(meta) then Get(meta, "use") else Some(Str("extcats"))
    ensures Get(ExtcatsEntry(db, src, meta), "columns") ==
      if "columns" in Keys(meta) then Get(meta, "columns") else Some(List(SourceColumns(Keys(src))))
    ensures forall k :: k !in ["name", "use", "columns"] ==> Get(ExtcatsEntry(db, src, meta), k) == Get(meta, k)
    ensures DistinctKeys(ExtcatsEntry(db, src, meta))
  {
    var base := ExtcatsBase(db, src);
    assert Keys(base) == ["name", "use", "columns"];
    GetAt(base, 0);
    GetAt(base, 1);
    GetAt(base, 2);
    UpdateSpec(base, meta);
  }

  /** One column per field of the example source, in its order, without unit. */
  lemma SourceColumnsSpec(keys: seq<string>)
    ensures |SourceColumns(keys)| == |keys|
    ensures forall i :: 0 <= i < |keys| ==>
      && SourceColumns(keys)[i].Dict?
      && Get(SourceColumns(keys)[i].entries, "name") == Some(Str(keys[i]))
      && Get(SourceColumns(keys)[i].entries, "unit") == Some(Null)
  {
  }

  /** What one pass of the loop over the databases appends: nothing without
      metadata, else one entry; `src.keys()` on a missing source raises
      AttributeError. */
  function ExtcatsDbEntries(mongo: Mongo, db: string): Result<seq<Dict<Value>>>
  {
    var meta := mongo.scienceMeta(db);
    if !MetaTruthy(meta) then Ok([])
    else match mongo.firstSource(db)
      case None => Raised(AttributeError)
      case Some(src) => Ok([ExtcatsEntry(db, src, meta.value)])
  }

  /** The pass of the loop over the databases for one database. */
  function DbStep(mongo: Mongo): string -> Result<seq<Dict<Value>>>
  {
    db => ExtcatsDbEntries(mongo, db)
  }

  /** extcats_catalog_descriptions, as a value. */
  function ExtcatsListing(mongo: Mongo): Result<seq<Dict<Value>>>
  {
    ConcatMap(DbStep(mongo), mongo.databaseNames)
  }

  /** extcats_catalog_descriptions */
  method ExtcatsCatalogDescriptions(mongo: Mongo) returns (r: Result<seq<Dict<Value>>>)
    ensures r == ExtcatsListing(mongo)
  {
    var dbs := mongo.databaseNames;
    var catalogs: seq<Dict<Value>> := [];
    for i := 0 to |dbs|
      invariant ConcatMap(DbStep(mongo), dbs[..i]) == Ok(catalogs)
    {
      var db := dbs[i];
      ConcatMapSnoc(DbStep(mongo), dbs, i);
      var meta := mongo.scienceMeta(db);
      if MetaTruthy(meta) {
        var src := mongo.firstSource(db);
        if src.None? {
          ConcatMapStops(DbStep(mongo), dbs, i + 1);
          return Raised(AttributeError);
        }
        catalogs := catalogs + [ExtcatsEntry(db, src.value, meta.value)];
      } else {
        assert catalogs + [] == catalogs;
      }
    }
    assert dbs[..|dbs|] == dbs;
    return Ok(catalogs);
  }

  /** The listing is built unless a database with metadata has no source; then
      it raises AttributeError. Every entry describes a listed database with
      science metadata, keyed at least by name, use and columns. */
  lemma ExtcatsListingSpec(mongo: Mongo)
    ensures ExtcatsListing(mongo).Ok? <==>
      forall i :: 0 <= i < |mongo.databaseNames| && MetaTruthy(mongo.scienceMeta(mongo.databaseNames[i])) ==>
        mongo.firstSource(mongo.databaseNames[i]).Some?
    ensures ExtcatsListing(mongo).Raised? ==> ExtcatsListing(mongo).error == AttributeError
    ensures ExtcatsListing(mongo).Ok? ==>
      forall e :: e in ExtcatsListing(mongo).value ==> IsExtcatsEntry(mongo, e)
  {
    var steps := MapSeq(DbStep(mongo), mongo.databaseNames);
    ConcatAllOk(steps);
    if ExtcatsListing(mongo).Raised? {
      ConcatAllRaisedBy(steps, AttributeError);
    }
    forall i | 0 <= i < |steps| && steps[i].Ok?
      ensures forall x :: x in steps[i].value ==> IsExtcatsEntry(mongo, x)
    {
      var db := mongo.databaseNames[i];
      var meta := mongo.scienceMeta(db);
      if MetaTruthy(meta) && mongo.firstSource(db).Some? {
        ExtcatsEntryFromMongo(mongo, i);
      }
    }
    ConcatAllEvery(steps, e => IsExtcatsEntry(mongo, e));
  }

  /** Database i is listed with truthy science metadata, and e is its entry. */
  predicate DescribesDb(mongo: Mongo, e: Dict<Value>, i: int)
  {
    && 0 <= i < |mongo.databaseNames|
    && MetaTruthy(mongo.scienceMeta(mongo.databaseNames[i]))
    && mongo.firstSource(mongo.databaseNames[i]).Some?
    && e == ExtcatsEntry(mongo.databaseNames[i], mongo.firstSource(mongo.databaseNames[i]).value,
                         mongo.scienceMeta(mongo.databaseNames[i]).value)
  }

  /** An extcats catalog description of one of the listed databases. */
  predicate IsExtcatsEntry(mongo: Mongo, e: Dict<Value>)
  {
    && ["name", "use", "columns"] <= Keys(e)
    && exists i :: 0 <= i < |mongo.databaseNames| && DescribesDb(mongo, e, i)
  }

  lemma ExtcatsEntryFromMongo(mongo: Mongo, i: int)
    requires 0 <= i < |mongo.databaseNames|
    requires MetaTruthy(mongo.scienceMeta(mongo.databaseNames[i]))
    requires mongo.firstSource(mongo.databaseNames[i]).Some?
    ensures var db := mongo.databaseNames[i];
      IsExtcatsEntry(mongo, ExtcatsEntry(db, mongo.firstSource(db).value, mongo.scienceMeta(db).value))
  {
    var db := mongo.databaseNames[i];
    var e := ExtcatsEntry(db, mongo.firstSource(db).value, mongo.scienceMeta(db).value);
    var base := ExtcatsBase(db, mongo.firstSource(db).value);
    assert Keys(base) == ["name", "use", "columns"];
    UpdateSpec(base, mongo.scienceMeta(db).value);
    assert DescribesDb(mongo, e, i);
  }

  /** The databases with truthy science metadata. */
  function HasScience(mongo: Mongo): string -> bool
  {
    db => MetaTruthy(mongo.scienceMeta(db))
  }

  /** When the loop completes it holds exactly one entry per database with
      truthy science metadata, in listing order, made of that database's name,
      first source and metadata. */
  lemma ExtcatsListingEntries(mongo: Mongo)
    ensures ExtcatsListing(mongo).Ok? ==>
      var ds := Filter(HasScience(mongo), mongo.databaseNames);
      && |ExtcatsListing(mongo).value| == |ds|
      && forall i :: 0 <= i < |ds| ==>
           && MetaTruthy(mongo.scienceMeta(ds[i]))
           && mongo.firstSource(ds[i]).Some?
           && ExtcatsListing(mongo).value[i] ==
                ExtcatsEntry(ds[i], mongo.firstSource(ds[i]).value, mongo.scienceMeta(ds[i]).value)
  {
    var f, keep := DbStep(mongo), HasScience(mongo);
    ConcatMapSingles(f, keep, mongo.databaseNames);
    if ExtcatsListing(mongo).Ok? {
      var ds := Filter(keep, mongo.databaseNames);
      forall i | 0 <= i < |ds|
        ensures MetaTruthy(mongo.scienceMeta(ds[i]))
      {
        assert ds[i] in ds;
      }
    }
  }

  /** A loop whose only exception is err raises err. */
  lemma {:induction false} ConcatAllRaisedBy<T>(rs: seq<Result<seq<T>>>, err: Exception)
    requires forall i :: 0 <= i < |rs| && rs[i].Raised? ==> rs[i].error == err
    ensures ConcatAll(rs).Raised? ==> ConcatAll(rs).error == err
  {
    if rs != [] {
      assert forall i :: 1 <= i < |rs| ==> rs[i] == rs[1..][i - 1];
      ConcatAllRaisedBy(rs[1..], err);
    }
  }

  // ---------------------------------------------------------------- endpoint

  /** list_catalogs, as a value: the extcats descriptions, then the catsHTM
      ones, for the README lines given (the endpoint uses CatsHtmReadme). */
  function Listing(mongo: Mongo, settings: Settings, load: MatLoader, readme: seq<string>): Result<seq<Dict<Value>>>
  {
    Concat(ExtcatsListing(mongo), CatsHtmListing(settings, load, readme))
  }

  /** list_catalogs */
  method ListCatalogs(mongo: Mongo, settings: Settings, load: MatLoader) returns (r: Result<seq<Dict<Value>>>)
    ensures r == Listing(mongo, settings, load, CatsHtmReadme)
  {
    var extcats := ExtcatsCatalogDescriptions(mongo);
    if extcats.Raised? {
      return Raised(extcats.error);
    }
    var catshtm := CatshtmCatalogDescriptions(settings, load);
    if catshtm.Raised? {
      return Raised(catshtm.error);
    }
    r := Ok(extcats.value + catshtm.value);
  }

  /** The listing succeeds when both parts do; the extcats descriptions come
      first, the catsHTM ones after them; an extcats failure is the failure
      of the whole listing. */
  lemma ListingSpec(mongo: Mongo, settings: Settings, load: MatLoader, readme: seq<string>)
    ensures Listing(mongo, settings, load, readme).Ok? <==>
      ExtcatsListing(mongo).Ok? && CatsHtmListing(settings, load, readme).Ok?
    ensures ExtcatsListing(mongo).Raised? ==> Listing(mongo, settings, load, readme) == Raised(ExtcatsListing(mongo).error)
    ensures Listing(mongo, settings, load, readme).Ok? ==>
      var all := Listing(mongo, settings, load, readme).value;
      var n := |ExtcatsListing(mongo).value|;
      && n <= |all|
      && all[..n] == ExtcatsListing(mongo).value
      && all[n..] == CatsHtmListing(settings, load, readme).value
  {
  }

  /** Every description in the listing is one of an extcats database or one
      of a catsHTM README entry, the extcats ones first. */
  lemma ListingEntries(mongo: Mongo, settings: Settings, load: MatLoader, readme: seq<string>)
    ensures Listing(mongo, settings, load, readme).Ok? ==>
      var all := Listing(mongo, settings, load, readme).value;
      var n := |ExtcatsListing(mongo).value|;
      && (forall i :: 0 <= i < n ==> IsExtcatsEntry(mongo, all[i]))
      && (forall i :: n <= i < |all| ==> IsCatsHtmEntry(readme, all[i]))
  {
    if Listing(mongo, settings, load, readme).Ok? {
      var ext := ExtcatsListing(mongo).value;
      var cat := CatsHtmListing(settings, load, readme).value;
      var all := Listing(mongo, settings, load, readme).value;
      assert all == ext + cat;
      ExtcatsListingSpec(mongo);
      forall i | 0 <= i < |ext| ensures IsExtcatsEntry(mongo, all[i]) {
        assert all[i] == ext[i] && ext[i] in ext;
      }
      CatsHtmListingSpec(settings, load, readme);
      forall i | |ext| <= i < |all| ensures IsCatsHtmEntry(readme, all[i]) {
        assert all[i] == cat[i - |ext|] && cat[i - |ext|] in cat;
      }
    }
  }
}

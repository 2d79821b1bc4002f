/**
 * The maintenance listing: finding a model by its name in the configured
 * apps, listing their models, choosing the fields a table may show and sort
 * by, and turning a search box and a sort request into a query.
 */
module Maintenance {
  import opened Common
  import opened Text

  /** `MODELOS_A_BUSCAR`: the apps searched, in order. */
  const ModelApps: seq<string> := ["blog", "AppPagina"]

  /** `CAMPOS_BUSQUEDA`: the only text columns searched and shown. */
  const SearchFields: seq<string> := ["nombre", "titulo"]

  /** The column types shown besides the searched text columns. */
  const BasicTypes: seq<string> := ["DateField", "DateTimeField", "IntegerField", "FloatField", "BooleanField", "ForeignKey"]

  /**
   * One installed app's models: the class names `get_models()` lists, in its
   * order, and the auto-created ones (the through models of many-to-many
   * fields, such as `Categoria_paginas`) that it leaves out.
   */
  datatype AppModels = AppModels(listed: seq<string>, autoCreated: seq<string>)

  /** Every model of the app that `get_model` finds, listed or auto-created. */
  function Registered(a: AppModels): (r: seq<string>)
    ensures forall m :: m in r <==> m in a.listed || m in a.autoCreated
  {
    a.listed + a.autoCreated
  }

  /** The app registry, by app label. */
  type Registry = map<string, AppModels>

  datatype ModelRef = ModelRef(app: string, name: string)

  /** A concrete field of `_meta.fields`. */
  datatype Field = Field(name: string, internalType: string, verboseName: string)

  /** A model's metadata: its concrete fields and the names of its other (relation) fields in `get_fields()`. */
  datatype Meta = Meta(fields: seq<Field>, relationNames: seq<string>)

  /** The `__istartswith` conditions OR-ed together, or none. */
  datatype Search = Search(columns: seq<string>, query: string)

  /** The query the listing hands to the template: an optional search and an optional `order_by` key. */
  datatype QuerySet = QuerySet(search: Option<Search>, orderBy: Option<string>)

  /** An entry of `campos_para_template`. */
  datatype TemplateField = TemplateField(name: string, verbose: string)

  /** A stored row as far as the search sees it: its text columns (a missing one is NULL). */
  type Row = map<string, string>

  // ----------------------------------------------------------- lookup

  /** `app_config.get_model(cand)`: the registry matches the lower-cased name. */
  function FindModel(models: seq<string>, cand: string): (r: Option<string>)
    ensures r.Some? ==> r.value in models && Lower(r.value) == Lower(cand)
    ensures r.None? ==> forall m | m in models :: Lower(m) != Lower(cand)
  {
    if models == [] then None
    else if Lower(models[0]) == Lower(cand) then Some(models[0])
    else FindModel(models[1..], cand)
  }

  /** `apps.get_model(app, cand)`, with `LookupError` as `None` (unknown app or model). */
  function GetModel(registry: Registry, app: string, cand: string): (r: Option<ModelRef>)
    ensures r.Some? ==> r.value.app == app && app in registry && r.value.name in Registered(registry[app])
    ensures r.Some? ==> Lower(r.value.name) == Lower(cand)
    ensures r.None? <==> app !in registry || forall m | m in Registered(registry[app]) :: Lower(m) != Lower(cand)
  {
    if app !in registry then None
    else match FindModel(Registered(registry[app]), cand)
      case None => None
      case Some(m) => Some(ModelRef(app, m))
  }

  /** The first hit over the candidates within one app. */
  function FirstInApp(registry: Registry, app: string, cands: seq<string>): Option<ModelRef> {
    if cands == [] then None
    else match GetModel(registry, app, cands[0])
      case Some(m) => Some(m)
      case None => FirstInApp(registry, app, cands[1..])
  }

  /** The first hit over the apps, each with every candidate. */
  function FirstHit(registry: Registry, apps: seq<string>, cands: seq<string>): Option<ModelRef> {
    if apps == [] then None
    else match FirstInApp(registry, apps[0], cands)
      case Some(m) => Some(m)
      case None => FirstHit(registry, apps[1..], cands)
  }

  /** The names `get_model_by_name` tries: as given, capitalized, title-cased. */
  function Candidates(name: string): seq<string> {
    [name, Capitalize(name), Title(name)]
  }

  /** What `get_model_by_name` returns; `None` is its `LookupError`. */
  function ModelByName(registry: Registry, name: string): Option<ModelRef> {
    FirstHit(registry, ModelApps, Candidates(name))
  }

  /** `get_model_by_name`: the nested loops with their early return. */
  method GetModelByName(registry: Registry, name: string) returns (r: Option<ModelRef>)
    ensures r == ModelByName(registry, name)
  {
    var cands := Candidates(name);
    var i := 0;
    while i < |ModelApps|
      invariant 0 <= i <= |ModelApps|
      invariant FirstHit(registry, ModelApps, cands) == FirstHit(registry, ModelApps[i..], cands)
    {
      var j := 0;
      while j < |cands|
        invariant 0 <= j <= |cands|
        invariant FirstInApp(registry, ModelApps[i], cands) == FirstInApp(registry, ModelApps[i], cands[j..])
      {
        var m := GetModel(registry, ModelApps[i], cands[j]);
        if m.Some? {
          return m;
        }
        assert cands[j..][1..] == cands[j + 1..];
        j := j + 1;
      }
      assert ModelApps[i..][1..] == ModelApps[i + 1..];
      i := i + 1;
    }
    return None;
  }

  /** Every candidate folds to the same lower-case name. */
  lemma CandidatesFold(name: string)
    ensures forall c | c in Candidates(name) :: Lower(c) == Lower(name)
  {
    LowerOfCapitalize(name);
    LowerOfTitle(name);
  }

  /** In one app, all candidates find what the plain name finds. */
  lemma {:induction false} FirstInAppFolds(registry: Registry, app: string, cands: seq<string>, name: string)
    requires cands != [] && forall c | c in cands :: Lower(c) == Lower(name)
    ensures FirstInApp(registry, app, cands) == GetModel(registry, app, name)
  {
    if app in registry {
      FindModelFolds(Registered(registry[app]), cands[0], name);
    }
    if GetModel(registry, app, cands[0]).None? && |cands| > 1 {
      FirstInAppFolds(registry, app, cands[1..], name);
    }
  }

  lemma {:induction false} FindModelFolds(models: seq<string>, a: string, b: string)
    requires Lower(a) == Lower(b)
    ensures FindModel(models, a) == FindModel(models, b)
  {
    if models != [] {
      FindModelFolds(models[1..], a, b);
    }
  }

  /**
   * The lookup is the first configured app holding a model whose name
   * matches ignoring case; the capitalized and title-cased tries add nothing.
   */
  lemma {:induction false} ModelByNameIsCaseInsensitive(registry: Registry, name: string, apps: seq<string>)
    ensures FirstHit(registry, apps, Candidates(name)) == FirstHit(registry, apps, [name])
  {
    if apps != [] {
      CandidatesFold(name);
      FirstInAppFolds(registry, apps[0], Candidates(name), name);
      FirstInAppFolds(registry, apps[0], [name], name);
      ModelByNameIsCaseInsensitive(registry, name, apps[1..]);
    }
  }

  /** "blog" is searched before "AppPagina"; the error is raised only when neither app has the model. */
  lemma ModelByNameOrder(registry: Registry, name: string)
    ensures GetModel(registry, "blog", name).Some? ==> ModelByName(registry, name) == GetModel(registry, "blog", name)
    ensures GetModel(registry, "blog", name).None? ==> ModelByName(registry, name) == GetModel(registry, "AppPagina", name)
    ensures ModelByName(registry, name).None? <==>
      forall app | app in ModelApps :: app !in registry || forall m | m in Registered(registry[app]) :: Lower(m) != Lower(name)
  {
    ModelByNameIsCaseInsensitive(registry, name, ModelApps);
    assert ModelApps[0] == "blog" && ModelApps[1..] == ["AppPagina"] && ModelApps[1..][1..] == [];
    assert FirstInApp(registry, "blog", [name]) == GetModel(registry, "blog", name);
    assert [name][1..] == [];
    assert FirstInApp(registry, "AppPagina", [name]) == GetModel(registry, "AppPagina", name);
    assert FirstHit(registry, ModelApps[1..], [name]) == GetModel(registry, "AppPagina", name);
  }

  /**
   * An auto-created through model of a configured app is found by its name,
   * yet the listing does not show it.
   */
  lemma AutoCreatedFoundNotListed(registry: Registry, app: string, m: string)
    requires app in ModelApps && app in registry
    requires m in registry[app].autoCreated && m !in registry[app].listed
    ensures ModelByName(registry, m).Some?
    ensures ModelRef(app, m) !in AllModels(registry, ModelApps)
  {
    ModelByNameOrder(registry, m);
    assert m in Registered(registry[app]);
  }

  // ----------------------------------------------------------- list_models

  /** `app_config.get_models()`: the listed models only, auto-created ones left out. */
  function ModelsOf(registry: Registry, app: string): (r: seq<ModelRef>)
    requires app in registry
    ensures |r| == |registry[app].listed|
    ensures forall i :: 0 <= i < |r| ==> r[i] == ModelRef(app, registry[app].listed[i])
  {
    var listed := registry[app].listed;
    seq(|listed|, i requires 0 <= i < |listed| => ModelRef(app, listed[i]))
  }

  /** The configured apps' models, app by app, an unknown app contributing nothing. */
  function AllModels(registry: Registry, apps: seq<string>): (r: seq<ModelRef>)
    ensures forall x | x in r :: x.app in apps && x.app in registry && x.name in registry[x.app].listed
  {
    if apps == [] then []
    else (if apps[0] in registry then ModelsOf(registry, apps[0]) else []) + AllModels(registry, apps[1..])
  }

  lemma {:induction false} AllModelsComplete(registry: Registry, apps: seq<string>, app: string, name: string)
    requires app in apps && app in registry && name in registry[app].listed
    ensures ModelRef(app, name) in AllModels(registry, apps)
  {
    if apps[0] == app {
      var i :| 0 <= i < |registry[app].listed| && registry[app].listed[i] == name;
      assert ModelsOf(registry, app)[i] == ModelRef(app, name);
    } else {
      AllModelsComplete(registry, apps[1..], app, name);
    }
  }

  lemma {:induction false} AllModelsSnoc(registry: Registry, apps: seq<string>, app: string)
    ensures AllModels(registry, apps + [app]) == AllModels(registry, apps) + (if app in registry then ModelsOf(registry, app) else [])
  {
    if apps == [] {
      assert apps + [app] == [app];
    } else {
      var head := if apps[0] in registry then ModelsOf(registry, apps[0]) else [];
      var tail := if app in registry then ModelsOf(registry, app) else [];
      assert (apps + [app])[0] == apps[0] && (apps + [app])[1..] == apps[1..] + [app];
      AllModelsSnoc(registry, apps[1..], app);
      calc {
        AllModels(registry, apps + [app]);
        head + AllModels(registry, apps[1..] + [app]);
        head + (AllModels(registry, apps[1..]) + tail);
        (head + AllModels(registry, apps[1..])) + tail;
      }
    }
  }

  /** `list_models`: the loop extending the list app by app. */
  method ListModels(registry: Registry) returns (lista: seq<ModelRef>)
    ensures lista == AllModels(registry, ModelApps)
  {
    lista := [];
    var i := 0;
    while i < |ModelApps|
      invariant 0 <= i <= |ModelApps|
      invariant lista == AllModels(registry, ModelApps[..i])
    {
      AllModelsSnoc(registry, ModelApps[..i], ModelApps[i]);
      assert ModelApps[..i + 1] == ModelApps[..i] + [ModelApps[i]];
      if ModelApps[i] in registry {
        lista := lista + ModelsOf(registry, ModelApps[i]);
      }
      i := i + 1;
    }
    assert ModelApps[..i] == ModelApps;
  }

  // ------------------------------------------------- build_allowed_fields

  predicate IsBasicType(t: string) {
    t in BasicTypes
  }

  predicate IsSearchField(name: string) {
    name in SearchFields
  }

  /** A field is shown: a text column only when it is a searched one, and every basic type. */
  predicate IsAllowed(f: Field) {
    if f.internalType == "CharField" then IsSearchField(f.name) else IsBasicType(f.internalType)
  }

  /** The names of the allowed fields, in declaration order. */
  function AllowedFields(fields: seq<Field>): (r: seq<string>)
    ensures |r| <= |fields|
    ensures forall n | n in r :: exists f | f in fields :: f.name == n && IsAllowed(f)
    ensures forall f | f in fields && IsAllowed(f) :: f.name in r
  {
    if fields == [] then []
    else (if IsAllowed(fields[0]) then [fields[0].name] else []) + AllowedFields(fields[1..])
  }

  /** The allowed fields of a concatenation are those of each part, in order. */
  lemma {:induction false} AllowedFieldsAppend(a: seq<Field>, b: seq<Field>)
    ensures AllowedFields(a + b) == AllowedFields(a) + AllowedFields(b)
  {
    if a == [] {
      assert a + b == b;
    } else {
      assert (a + b)[1..] == a[1..] + b;
      AllowedFieldsAppend(a[1..], b);
    }
  }

  /** One field contributes its name exactly when it is allowed. */
  lemma AllowedFieldsSnoc(a: seq<Field>, f: Field)
    ensures AllowedFields(a + [f]) == AllowedFields(a) + (if IsAllowed(f) then [f.name] else [])
  {
    AllowedFieldsAppend(a, [f]);
    assert [f][1..] == [];
  }

  /** `build_allowed_fields`: the loop appending the names it keeps. */
  method BuildAllowedFields(meta: Meta) returns (allowed: seq<string>)
    ensures allowed == AllowedFields(meta.fields)
  {
    allowed := [];
    var i := 0;
    while i < |meta.fields|
      invariant 0 <= i <= |meta.fields|
      invariant allowed == AllowedFields(meta.fields[..i])
    {
      var campo := meta.fields[i];
      AllowedFieldsSnoc(meta.fields[..i], campo);
      assert meta.fields[..i + 1] == meta.fields[..i] + [campo];
      if campo.internalType == "CharField" {
        if IsSearchField(campo.name) {
          allowed := allowed + [campo.name];
        }
      } else if IsBasicType(campo.internalType) {
        allowed := allowed + [campo.name];
      }
      i := i + 1;
    }
    assert meta.fields[..i] == meta.fields;
  }

  // ----------------------------------------------- build_queryset_and_metadata

  function Names(fields: seq<Field>): (r: seq<string>)
    ensures forall f | f in fields :: f.name in r
    ensures forall n | n in r :: exists f | f in fields :: f.name == n
  {
    if fields == [] then [] else [fields[0].name] + Names(fields[1..])
  }

  /** The names `_meta.get_fields()` reports. */
  function FieldNames(meta: Meta): (r: seq<string>)
    ensures forall f | f in meta.fields :: f.name in r
    ensures forall n | n in meta.relationNames :: n in r
    ensures forall n | n in r :: n in meta.relationNames || exists f | f in meta.fields :: f.name == n
  {
    Names(meta.fields) + meta.relationNames
  }

  /** The searched columns the model has, in `CAMPOS_BUSQUEDA` order. */
  function PresentColumns(names: seq<string>, candidates: seq<string>): (r: seq<string>)
    ensures forall c :: c in r <==> c in candidates && c in names
  {
    if candidates == [] then []
    else (if candidates[0] in names then [candidates[0]] else []) + PresentColumns(names, candidates[1..])
  }

  /** `(sort_order or "asc").lower()`, then anything but "asc" and "desc" becomes "asc". */
  function NormalizeOrder(order: string): (r: string)
    ensures r == "asc" || r == "desc"
    ensures r == "desc" <==> Lower(order) == "desc"
  {
    var o := Lower(if order == "" then "asc" else order);
    if o == "asc" || o == "desc" then o else "asc"
  }

  /** The verbose name of the first field called `name` (the loop with `break`). */
  function FirstVerbose(fields: seq<Field>, name: string): (r: Option<string>)
    ensures r.Some? ==> exists f | f in fields :: f.name == name && f.verboseName == r.value
    ensures r.None? ==> forall f | f in fields :: f.name != name
  {
    if fields == [] then None
    else if fields[0].name == name then Some(fields[0].verboseName)
    else FirstVerbose(fields[1..], name)
  }

  /** `mapa_verbose`: name to verbose name, a later field winning over an earlier one of the same name. */
  function VerboseMap(fields: seq<Field>): (m: map<string, string>)
    ensures forall f | f in fields :: f.name in m
    ensures forall n | n in m :: exists f | f in fields :: f.name == n && f.verboseName == m[n]
  {
    if fields == [] then map[]
    else VerboseMap(fields[..|fields| - 1])[fields[|fields| - 1].name := fields[|fields| - 1].verboseName]
  }

  /** `nombre.replace("_", " ")`. */
  function SpaceUnderscores(s: string): (r: string)
    ensures |r| == |s|
    ensures forall i :: 0 <= i < |s| ==> r[i] == (if s[i] == '_' then ' ' else s[i])
  {
    if s == [] then [] else [if s[0] == '_' then ' ' else s[0]] + SpaceUnderscores(s[1..])
  }

  /** `campos_para_template`: one entry per allowed field, in order, with its verbose name. */
  function TemplateFields(allowed: seq<string>, fields: seq<Field>): (r: seq<TemplateField>)
    ensures |r| == |allowed|
    ensures forall i :: 0 <= i < |r| ==> r[i].name == allowed[i]
    ensures forall i :: 0 <= i < |r| && allowed[i] in VerboseMap(fields) ==> r[i].verbose == VerboseMap(fields)[allowed[i]]
  {
    var m := VerboseMap(fields);
    seq(|allowed|, i requires 0 <= i < |allowed| =>
      TemplateField(allowed[i], if allowed[i] in m then m[allowed[i]] else Capitalize(SpaceUnderscores(allowed[i]))))
  }

  /** Every allowed field is a concrete field, so every entry carries a declared verbose name. */
  lemma TemplateFieldsDeclared(fields: seq<Field>)
    ensures var r := TemplateFields(AllowedFields(fields), fields);
      forall i :: 0 <= i < |r| ==> exists f | f in fields :: f.name == r[i].name && f.verboseName == r[i].verbose
  {
    var allowed := AllowedFields(fields);
    var r := TemplateFields(allowed, fields);
    forall i | 0 <= i < |r| ensures exists f | f in fields :: f.name == r[i].name && f.verboseName == r[i].verbose {
      assert allowed[i] in allowed;
      var f :| f in fields && f.name == allowed[i] && IsAllowed(f);
      assert allowed[i] in VerboseMap(fields);
    }
  }

  /** The rows a query keeps: with a search, those where some searched column starts with the query, ignoring case. */
  predicate Keeps(qs: QuerySet, row: Row) {
    qs.search.None? ||
    exists c | c in qs.search.value.columns :: c in row && IStartsWith(row[c], qs.search.value.query)
  }

  /** `build_queryset_and_metadata`: the query, the sort column shown and its verbose name, and the template fields. */
  method BuildQuerysetAndMetadata(meta: Meta, searchQuery: string, sortFieldRaw: string, sortOrder: string)
    returns (instancias: QuerySet, campoMostrado: Option<string>, campoVerbose: Option<string>, campos: seq<TemplateField>)
    ensures searchQuery == "" ==> instancias.search.None?
    ensures instancias.search.Some? ==> instancias.search.value == Search(PresentColumns(FieldNames(meta), SearchFields), searchQuery)
    ensures searchQuery != "" && PresentColumns(FieldNames(meta), SearchFields) != [] ==> instancias.search.Some?
    ensures PresentColumns(FieldNames(meta), SearchFields) == [] ==> instancias.search.None?
    ensures campoMostrado.Some? <==> sortFieldRaw != "" && sortFieldRaw in AllowedFields(meta.fields)
    ensures campoMostrado.Some? ==> campoMostrado.value == sortFieldRaw
    ensures instancias.orderBy ==
      (if campoMostrado.Some? then Some(if NormalizeOrder(sortOrder) == "desc" then "-" + sortFieldRaw else sortFieldRaw) else None)
    ensures campoVerbose == (if campoMostrado.Some? then FirstVerbose(meta.fields, sortFieldRaw) else None)
    ensures campos == TemplateFields(AllowedFields(meta.fields), meta.fields)
  {
    instancias := QuerySet(None, None);
    var names := FieldNames(meta);
    if searchQuery != "" {
      var columns := SearchColumns(names, SearchFields);
      if columns != [] {
        instancias := instancias.(search := Some(Search(columns, searchQuery)));
      }
    }

    var allowed := BuildAllowedFields(meta);
    var order := NormalizeOrder(sortOrder);

    campoMostrado := None;
    if sortFieldRaw != "" && sortFieldRaw in allowed {
      var key := if order == "desc" then "-" + sortFieldRaw else sortFieldRaw;
      instancias := instancias.(orderBy := Some(key));
      campoMostrado := Some(sortFieldRaw);
    }

    campoVerbose := None;
    if campoMostrado.Some? {
      campoVerbose := FindVerbose(meta.fields, sortFieldRaw);
    }

    campos := TemplateFields(allowed, meta.fields);
  }

  /** The loop OR-ing one condition per searched column the model has. */
  method SearchColumns(names: seq<string>, candidates: seq<string>) returns (columns: seq<string>)
    ensures columns == PresentColumns(names, candidates)
  {
    columns := [];
    var k := 0;
    while k < |candidates|
      invariant 0 <= k <= |candidates|
      invariant columns + PresentColumns(names, candidates[k..]) == PresentColumns(names, candidates)
    {
      assert candidates[k..][1..] == candidates[k + 1..];
      if candidates[k] in names {
        columns := columns + [candidates[k]];
      }
      k := k + 1;
    }
  }

  /** The loop looking up the verbose name of the sort column, stopping at the first match. */
  method FindVerbose(fields: seq<Field>, name: string) returns (verbose: Option<string>)
    ensures verbose == FirstVerbose(fields, name)
  {
    verbose := None;
    var i := 0;
    while i < |fields|
      invariant 0 <= i <= |fields|
      invariant FirstVerbose(fields, name) == FirstVerbose(fields[i..], name)
    {
      assert fields[i..][1..] == fields[i + 1..];
      if fields[i].name == name {
        verbose := Some(fields[i].verboseName);
        return;
      }
      i := i + 1;
    }
  }

  /**
   * The listing's search keeps exactly the rows where some searched column
   * the model has starts with the query, ignoring case; a model with neither
   * column, or an empty query, keeps every row.
   */
  lemma SearchKeeps(meta: Meta, searchQuery: string, qs: QuerySet, row: Row)
    requires searchQuery == "" || PresentColumns(FieldNames(meta), SearchFields) == [] ==> qs.search.None?
    requires qs.search.Some? ==> qs.search.value == Search(PresentColumns(FieldNames(meta), SearchFields), searchQuery)
    ensures (searchQuery == "" || PresentColumns(FieldNames(meta), SearchFields) == []) ==> Keeps(qs, row)
    ensures qs.search.Some? ==>
      (Keeps(qs, row) <==>
         exists c | c in SearchFields :: c in FieldNames(meta) && c in row && IStartsWith(row[c], searchQuery))
  {
  }
}

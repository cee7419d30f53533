/**
 * The shipped configuration: the table of the five motorcycle models, the
 * score weights, the cleaner's global limits, the column lists, the
 * per-environment time budget, the configuration check and the generator of
 * extended Wallapop search URLs.
 */
module Config {
  import opened Wrappers
  import opened Text
  import opened Seqs

  /** One entry of the model table. */
  datatype ModelConfig = ModelConfig(
    nombre: string, marca: string, tipo: string,
    precioMin: nat, precioMax: nat, kmMax: nat,
    anioMin: nat, anioMax: nat,
    sheetName: string, keywords: seq<string>, excludeKeywords: seq<string>,
    cronSchedule: string)

  const CB125R := ModelConfig("Honda CB125R", "Honda", "Deportiva 125cc", 1000, 4500, 25000, 2018, 2025,
    "Honda_CB125R", ["honda cb125r", "honda cb 125 r", "cb125r", "cb 125 r"],
    ["cb125f", "cb250r", "cb500r", "cb650r"], "0 6 * * *")
  const PCX125 := ModelConfig("Honda PCX125", "Honda", "Scooter urbano", 1200, 4000, 30000, 2016, 2025,
    "Honda_PCX125", ["honda pcx125", "honda pcx 125", "pcx125", "pcx 125"],
    ["pcx150", "pcx160", "forza"], "0 7 * * *")
  const AGILITY125 := ModelConfig("Kymco Agility125", "Kymco", "Scooter econ\U{F3}mico", 800, 3000, 35000, 2014, 2025,
    "Kymco_Agility125", ["kymco agility125", "kymco agility 125", "agility125", "agility 125"],
    ["agility50", "agility16", "agility200", "people"], "0 8 * * *")
  const Z900 := ModelConfig("Kawasaki Z900", "Kawasaki", "Naked alta cilindrada", 4500, 9000, 30000, 2017, 2025,
    "Kawasaki_Z900", ["kawasaki z900", "kawasaki z 900", "z900", "z 900"],
    ["z800", "z650", "z1000", "z300"], "0 10 * * *")
  const MT07 := ModelConfig("Yamaha MT-07", "Yamaha", "Naked vers\U{E1}til", 3000, 7500, 40000, 2014, 2025,
    "Yamaha_MT07", ["yamaha mt07", "yamaha mt-07", "yamaha mt 07", "mt07", "mt-07"],
    ["mt03", "mt09", "mt10", "mt125"], "0 11 * * *")

  /** The model table, in its declaration order. */
  const Modelos: seq<(string, ModelConfig)> :=
    [("cb125r", CB125R), ("pcx125", PCX125), ("agility125", AGILITY125), ("z900", Z900), ("mt07", MT07)]

  /** Score weights for price, mileage and year. */
  const PesoPrecio: real := 0.40
  const PesoKilometraje: real := 0.35
  const PesoAnio: real := 0.25
  const Pesos: seq<real> := [PesoPrecio, PesoKilometraje, PesoAnio]

  /** The cleaner's global limits and word lists. */
  const PrecioMinimoGlobal: nat := 500
  const KmMaximoGlobal: nat := 80000
  const IslasSpain: seq<string> := ["canarias", "tenerife", "gran canaria", "fuerteventura", "lanzarote",
    "la palma", "la gomera", "el hierro", "baleares", "mallorca", "menorca",
    "ibiza", "formentera", "palma", "ceuta", "melilla", "palma de mallorca"]
  const ComercialesKeywords: seq<string> := ["concesionario", "profesional", "empresa", "dealer", "financiacion",
    "garantia", "taller", "motor", "automocion", "vehiculos", "mundimoto",
    "s.l.", "sl", "s.a.", "sa", "sociedad", "cia", "ltd"]

  /** The column order of the published sheets, and the columns never published. */
  const ColumnasOrdenadas: seq<string> := ["T\U{ED}tulo", "Precio", "Kilometraje", "A\U{F1}o", "Rentabilidad",
    "Vendedor", "Ubicaci\U{F3}n", "Fecha_Publicacion", "URL", "Fecha_Extraccion"]
  const ColumnasExcluidas: seq<string> := ["Rentabilidad_Score", "Ranking_Rentabilidad", "Descripcion",
    "Categoria_Rentabilidad"]

  /** Every column list names each column once. */
  lemma ColumnListsDistinct()
    ensures NoDuplicates(ColumnasOrdenadas)
    ensures NoDuplicates(ColumnasExcluidas)
  {
    var l := ColumnasOrdenadas;
    forall i, j | 0 <= i < j < |l| ensures l[i] != l[j] {
      assert |l[i]| != |l[j]| || l[i][0] != l[j][0];
    }
    var x := ColumnasExcluidas;
    forall i, j | 0 <= i < j < |x| ensures x[i] != x[j] {
      assert |x[i]| != |x[j]|;
    }
  }

  /** max_total_scraping_time, in seconds, under GitHub Actions or locally. */
  function MaxTotalScrapingTime(githubActions: bool): int {
    if githubActions then 14400 else 18000
  }

  // ------------------------------------------------------------------
  // Lookups
  // ------------------------------------------------------------------

  predicate IsModelKey(key: string) {
    exists i | 0 <= i < |Modelos| :: Modelos[i].0 == key
  }

  /** get_modelo_config: the table entry, or the ValueError for an unknown key. */
  function GetModeloConfig(key: string): (r: Result<ModelConfig, string>)
    ensures r.Ok? <==> IsModelKey(key)
    ensures r.Ok? ==> (key, r.value) in Modelos
    ensures r.Err? ==> r.error == "Modelo '" + key + "' no encontrado en configuraci\U{F3}n"
  {
    LookUp(Modelos, key)
  }

  function LookUp(table: seq<(string, ModelConfig)>, key: string): (r: Result<ModelConfig, string>)
    ensures r.Ok? <==> exists i | 0 <= i < |table| :: table[i].0 == key
    ensures r.Ok? ==> (key, r.value) in table
    ensures r.Err? ==> r.error == "Modelo '" + key + "' no encontrado en configuraci\U{F3}n"
  {
    if table == [] then Err("Modelo '" + key + "' no encontrado en configuraci\U{F3}n")
    else if table[0].0 == key then Ok(table[0].1)
    else
      var r := LookUp(table[1..], key);
      assert forall i | 1 <= i < |table| :: table[i] == table[1..][i - 1];
      r
  }

  /** get_all_modelos: the keys of the table, in order. */
  function GetAllModelos(): (keys: seq<string>)
    ensures |keys| == |Modelos|
    ensures forall i | 0 <= i < |keys| :: keys[i] == Modelos[i].0
  {
    Keys(Modelos, (e: (string, ModelConfig)) => e.0)
  }

  /** Every listed key resolves, and the keys are distinct. */
  lemma AllModelosResolve()
    ensures NoDuplicates(GetAllModelos())
    ensures forall k | k in GetAllModelos() :: GetModeloConfig(k).Ok?
  {
    var keys := GetAllModelos();
    assert keys == ["cb125r", "pcx125", "agility125", "z900", "mt07"];
    forall k | k in keys ensures GetModeloConfig(k).Ok? {
      var i :| 0 <= i < |keys| && keys[i] == k;
      assert Modelos[i].0 == k;
    }
  }

  /** The shipped table is coherent: price and year ranges are proper, the weights sum to one. */
  lemma ShippedTableCoherent()
    ensures forall i | 0 <= i < |Modelos| ::
      Modelos[i].1.precioMin < Modelos[i].1.precioMax && Modelos[i].1.anioMin <= Modelos[i].1.anioMax
    ensures PesoPrecio + PesoKilometraje + PesoAnio == 1.0
  {
  }

  // ------------------------------------------------------------------
  // validate_config
  // ------------------------------------------------------------------

  /** A configuration value, as the validator sees the model dictionaries. */
  datatype Value = VNum(n: real) | VText(s: string) | VList(items: seq<string>)

  type ModelDict = map<string, Value>

  datatype ConfigError =
    | MissingField(modelo: string, field: string)
    | BadPriceRange(modelo: string)
    | BadWeights(total: real)
    | BadTimeout

  const RequiredFields: seq<string> := ["nombre", "marca", "precio_min", "precio_max", "sheet_name"]

  /** The dictionary form of a table entry. */
  function AsDict(c: ModelConfig): (d: ModelDict)
    ensures forall f | f in RequiredFields :: f in d
    ensures d["precio_min"] == VNum(c.precioMin as real) && d["precio_max"] == VNum(c.precioMax as real)
  {
    map["nombre" := VText(c.nombre), "marca" := VText(c.marca), "tipo" := VText(c.tipo),
        "precio_min" := VNum(c.precioMin as real), "precio_max" := VNum(c.precioMax as real),
        "km_max" := VNum(c.kmMax as real),
        "a\U{F1}o_min" := VNum(c.anioMin as real), "a\U{F1}o_max" := VNum(c.anioMax as real),
        "sheet_name" := VText(c.sheetName), "keywords" := VList(c.keywords),
        "exclude_keywords" := VList(c.excludeKeywords), "cron_schedule" := VText(c.cronSchedule)]
  }

  function AsDicts(table: seq<(string, ModelConfig)>): (ds: seq<(string, ModelDict)>)
    ensures |ds| == |table|
    ensures forall i | 0 <= i < |table| :: ds[i] == (table[i].0, AsDict(table[i].1))
  {
    seq(|table|, i requires 0 <= i < |table| => (table[i].0, AsDict(table[i].1)))
  }

  /** The price fields, wherever present, are numbers (Python cannot compare them otherwise). */
  predicate NumericPrices(d: ModelDict) {
    ("precio_min" in d ==> d["precio_min"].VNum?) && ("precio_max" in d ==> d["precio_max"].VNum?)
  }

  /** config.get(field, 0) for a price field. */
  function PriceOr0(d: ModelDict, field: string): real
    requires NumericPrices(d) && (field == "precio_min" || field == "precio_max")
  {
    if field in d then d[field].n else 0.0
  }

  function MissingFields(modelo: string, d: ModelDict, fields: seq<string>): (es: seq<ConfigError>)
    ensures forall e | e in es :: e.MissingField? && e.modelo == modelo && e.field in fields && e.field !in d
    ensures es == [] <==> forall f | f in fields :: f in d
  {
    if fields == [] then []
    else
      var f := fields[|fields| - 1];
      assert fields == fields[..|fields| - 1] + [f];
      MissingFields(modelo, d, fields[..|fields| - 1]) + (if f in d then [] else [MissingField(modelo, f)])
  }

  /** The errors one model contributes: its missing fields, then its price range. */
  function ModelErrors(modelo: string, d: ModelDict): seq<ConfigError>
    requires NumericPrices(d)
  {
    MissingFields(modelo, d, RequiredFields) +
      (if PriceOr0(d, "precio_min") >= PriceOr0(d, "precio_max") then [BadPriceRange(modelo)] else [])
  }

  predicate AllNumericPrices(models: seq<(string, ModelDict)>) {
    forall i | 0 <= i < |models| :: NumericPrices(models[i].1)
  }

  function AllModelErrors(models: seq<(string, ModelDict)>): seq<ConfigError>
    requires AllNumericPrices(models)
  {
    if models == [] then []
    else
      var m := models[|models| - 1];
      AllModelErrors(models[..|models| - 1]) + ModelErrors(m.0, m.1)
  }

  function Sum(xs: seq<real>): real {
    if xs == [] then 0.0 else Sum(xs[..|xs| - 1]) + xs[|xs| - 1]
  }

  function Abs(x: real): real { if x < 0.0 then -x else x }

  /** The whole error list, in the order validate_config builds it. */
  function ConfigErrors(models: seq<(string, ModelDict)>, weights: seq<real>, maxTotalTime: int): seq<ConfigError>
    requires AllNumericPrices(models)
  {
    AllModelErrors(models)
      + (if Abs(Sum(weights) - 1.0) > 0.01 then [BadWeights(Sum(weights))] else [])
      + (if maxTotalTime <= 0 then [BadTimeout] else [])
  }

  /** A model passes when it has every required field and a proper price range. */
  predicate ModelOk(d: ModelDict)
    requires NumericPrices(d)
  {
    (forall f | f in RequiredFields :: f in d) && PriceOr0(d, "precio_min") < PriceOr0(d, "precio_max")
  }

  lemma {:induction false} AllModelErrorsEmpty(models: seq<(string, ModelDict)>)
    requires AllNumericPrices(models)
    ensures AllModelErrors(models) == [] <==> forall i | 0 <= i < |models| :: ModelOk(models[i].1)
  {
    if models != [] {
      var ms := models[..|models| - 1];
      AllModelErrorsEmpty(ms);
      AllModelErrorsSnoc(models, |ms|);
      assert models[..|ms| + 1] == models;
      ModelErrorsEmpty(models[|ms|].0, models[|ms|].1);
      assert forall i | 0 <= i < |ms| :: ms[i] == models[i];
    }
  }

  lemma ModelErrorsEmpty(modelo: string, d: ModelDict)
    requires NumericPrices(d)
    ensures ModelErrors(modelo, d) == [] <==> ModelOk(d)
  {
  }

  /** The inner loop of validate_config: the required fields one model lacks. */
  method CollectMissing(modelo: string, d: ModelDict) returns (missing: seq<ConfigError>)
    ensures missing == MissingFields(modelo, d, RequiredFields)
  {
    missing := MissingOf(modelo, d, RequiredFields);
  }

  /** The loop over a field list, in its order. */
  method MissingOf(modelo: string, d: ModelDict, fields: seq<string>) returns (missing: seq<ConfigError>)
    ensures missing == MissingFields(modelo, d, fields)
  {
    missing := [];
    var j := 0;
    while j < |fields|
      invariant 0 <= j <= |fields|
      invariant missing == MissingFields(modelo, d, fields[..j])
    {
      MissingFieldsSnoc(modelo, d, fields, j);
      if fields[j] !in d {
        missing := missing + [MissingField(modelo, fields[j])];
      }
      j := j + 1;
    }
    assert fields[..j] == fields;
  }

  lemma MissingFieldsSnoc(modelo: string, d: ModelDict, fields: seq<string>, j: nat)
    requires j < |fields|
    ensures MissingFields(modelo, d, fields[..j + 1])
      == MissingFields(modelo, d, fields[..j]) + (if fields[j] in d then [] else [MissingField(modelo, fields[j])])
  {
    assert fields[..j + 1][..j] == fields[..j];
  }

  /** The errors of one model, as the body of the outer loop collects them. */
  method CollectModelErrors(modelo: string, d: ModelDict) returns (es: seq<ConfigError>)
    requires NumericPrices(d)
    ensures es == ModelErrors(modelo, d)
  {
    es := CollectMissing(modelo, d);
    if PriceOr0(d, "precio_min") >= PriceOr0(d, "precio_max") {
      es := es + [BadPriceRange(modelo)];
    }
  }

  lemma AllModelErrorsSnoc(models: seq<(string, ModelDict)>, i: nat)
    requires AllNumericPrices(models) && i < |models|
    ensures AllNumericPrices(models[..i]) && AllNumericPrices(models[..i + 1])
    ensures AllModelErrors(models[..i + 1]) == AllModelErrors(models[..i]) + ModelErrors(models[i].0, models[i].1)
  {
    assert models[..i + 1][..i] == models[..i];
  }

  /** sum(...) over the weights. */
  method SumWeights(weights: seq<real>) returns (total: real)
    ensures total == Sum(weights)
  {
    total := 0.0;
    var k := 0;
    while k < |weights|
      invariant 0 <= k <= |weights|
      invariant total == Sum(weights[..k])
    {
      assert weights[..k + 1][..k] == weights[..k];
      total := total + weights[k];
      k := k + 1;
    }
    assert weights[..k] == weights;
  }

  /**
   * validate_config: walks the models collecting errors, then checks the
   * weights and the time budget; True when nothing was collected and the
   * list of errors (the ValueError) otherwise.
   */
  method ValidateConfig(models: seq<(string, ModelDict)>, weights: seq<real>, maxTotalTime: int)
    returns (r: Result<bool, seq<ConfigError>>)
    requires AllNumericPrices(models)
    ensures r.Ok? ==> r.value
    ensures r.Ok? <==> ConfigErrors(models, weights, maxTotalTime) == []
    ensures r.Err? ==> r.error == ConfigErrors(models, weights, maxTotalTime)
  {
    var errors: seq<ConfigError> := [];
    var i := 0;
    while i < |models|
      invariant 0 <= i <= |models|
      invariant errors == AllModelErrors(models[..i])
    {
      AllModelErrorsSnoc(models, i);
      var es := CollectModelErrors(models[i].0, models[i].1);
      errors := errors + es;
      i := i + 1;
    }
    assert models[..i] == models;
    var total := SumWeights(weights);
    if Abs(total - 1.0) > 0.01 {
      errors := errors + [BadWeights(total)];
    }
    if maxTotalTime <= 0 {
      errors := errors + [BadTimeout];
    }
    if errors == [] {
      r := Ok(true);
    } else {
      r := Err(errors);
    }
  }

  /** validate_config fails exactly when one of its four conditions holds. */
  lemma ConfigErrorsIff(models: seq<(string, ModelDict)>, weights: seq<real>, maxTotalTime: int)
    requires AllNumericPrices(models)
    ensures ConfigErrors(models, weights, maxTotalTime) == [] <==>
      (forall i | 0 <= i < |models| :: ModelOk(models[i].1))
      && Abs(Sum(weights) - 1.0) <= 0.01
      && maxTotalTime > 0
  {
    AllModelErrorsEmpty(models);
  }

  /** The shipped configuration validates, under GitHub Actions and locally. */
  lemma ShippedConfigValid(githubActions: bool)
    ensures AllNumericPrices(AsDicts(Modelos))
    ensures ConfigErrors(AsDicts(Modelos), Pesos, MaxTotalScrapingTime(githubActions)) == []
  {
    var ds := AsDicts(Modelos);
    forall i | 0 <= i < |ds| ensures NumericPrices(ds[i].1) && ModelOk(ds[i].1) {
      assert ds[i].1 == AsDict(Modelos[i].1);
    }
    assert Sum(Pesos) == 1.0 by {
      assert Pesos[..2][..1] == [PesoPrecio] && Pesos[..2] == [PesoPrecio, PesoKilometraje];
      assert [PesoPrecio][..0] == [];
      assert Sum([PesoPrecio]) == 0.40;
      assert Sum([PesoPrecio, PesoKilometraje]) == 0.75;
      assert Sum(Pesos) == Sum(Pesos[..2]) + PesoAnio;
    }
    ConfigErrorsIff(ds, Pesos, MaxTotalScrapingTime(githubActions));
  }

  // ------------------------------------------------------------------
  // generate_extended_urls
  // ------------------------------------------------------------------

  /** A search region: name, latitude and longitude, as text. */
  datatype Region = Region(name: string, lat: string, lon: string)

  const Regiones: seq<Region> := [
    Region("madrid", "40.4168", "-3.7038"), Region("barcelona", "41.3851", "2.1734"),
    Region("valencia", "39.4699", "-0.3763"), Region("sevilla", "37.3891", "-5.9845"),
    Region("bilbao", "43.2627", "-2.9253"), Region("zaragoza", "41.6488", "-0.8891"),
    Region("malaga", "36.7196", "-4.4214"), Region("murcia", "37.9922", "-1.1307"),
    Region("palma", "39.5696", "2.6502"), Region("las palmas", "28.1248", "-15.4300")]

  const Ordenamientos: seq<string> :=
    ["", "&order_by=newest", "&order_by=price_low_to_high", "&order_by=price_high_to_low", "&order_by=closest"]

  const AniosBusqueda: seq<nat> := [2018, 2019, 2020, 2021, 2022, 2023, 2024, 2025]

  const SearchPrefix := "https://es.wallapop.com/app/search?keywords="

  /** What each generated URL is made of. */
  datatype UrlSpec =
    | Basic(query: string, ordering: string)
    | Regional(region: Region, query: string, ordering: string)
    | ByYear(query: string, year: nat)

  /** s[:n] */
  function Take<T>(s: seq<T>, n: nat): (r: seq<T>)
    ensures |r| <= n && |r| <= |s| && r == s[..|r|]
    ensures |s| >= n ==> |r| == n
  {
    if |s| <= n then s else s[..n]
  }

  function PriceFilter(c: ModelConfig): string {
    "&min_sale_price=" + NatToString(c.precioMin) + "&max_sale_price=" + NatToString(c.precioMax)
  }

  function Render(c: ModelConfig, u: UrlSpec): string {
    match u
    case Basic(q, o) => SearchPrefix + q + PriceFilter(c) + o
    case Regional(r, q, o) =>
      SearchPrefix + q + PriceFilter(c) + "&latitude=" + r.lat + "&longitude=" + r.lon + "&distance=50000" + o
    case ByYear(q, y) => SearchPrefix + q + "%20" + NatToString(y) + PriceFilter(c)
  }

  function Renders(c: ModelConfig, us: seq<UrlSpec>): (urls: seq<string>)
    ensures |urls| == |us| && forall i | 0 <= i < |us| :: urls[i] == Render(c, us[i])
  {
    seq(|us|, i requires 0 <= i < |us| => Render(c, us[i]))
  }

  /** The inner loops: one query with each ordering, one region with each query and ordering. */
  function BasicRow(q: string, os: seq<string>): (r: seq<UrlSpec>)
    ensures |r| == |os| && forall j | 0 <= j < |os| :: r[j] == Basic(q, os[j])
  {
    seq(|os|, j requires 0 <= j < |os| => Basic(q, os[j]))
  }

  function RegionalRow(g: Region, q: string, os: seq<string>): (r: seq<UrlSpec>)
    ensures |r| == |os| && forall j | 0 <= j < |os| :: r[j] == Regional(g, q, os[j])
  {
    seq(|os|, j requires 0 <= j < |os| => Regional(g, q, os[j]))
  }

  function YearRow(y: nat, qs: seq<string>): (r: seq<UrlSpec>)
    ensures |r| == |qs| && forall j | 0 <= j < |qs| :: r[j] == ByYear(qs[j], y)
  {
    seq(|qs|, j requires 0 <= j < |qs| => ByYear(qs[j], y))
  }

  function BasicSpecs(qs: seq<string>, os: seq<string>): (r: seq<UrlSpec>)
    ensures forall u | u in r :: u.Basic? && u.query in qs && u.ordering in os
    ensures forall q, o | q in qs && o in os :: Basic(q, o) in r
  {
    if qs == [] then []
    else
      var q := qs[|qs| - 1];
      assert qs == qs[..|qs| - 1] + [q];
      var row := BasicRow(q, os);
      assert forall o | o in os :: Basic(q, o) in row;
      BasicSpecs(qs[..|qs| - 1], os) + row
  }

  function RegionBlock(g: Region, qs: seq<string>, os: seq<string>): (r: seq<UrlSpec>)
    ensures forall u | u in r :: u.Regional? && u.region == g && u.query in qs && u.ordering in os
  {
    if qs == [] then []
    else
      var q := qs[|qs| - 1];
      assert qs == qs[..|qs| - 1] + [q];
      RegionBlock(g, qs[..|qs| - 1], os) + RegionalRow(g, q, os)
  }

  function RegionSpecs(gs: seq<Region>, qs: seq<string>, os: seq<string>): (r: seq<UrlSpec>)
    ensures forall u | u in r :: u.Regional? && u.region in gs && u.query in qs && u.ordering in os
  {
    if gs == [] then []
    else
      var g := gs[|gs| - 1];
      assert gs == gs[..|gs| - 1] + [g];
      RegionSpecs(gs[..|gs| - 1], qs, os) + RegionBlock(g, qs, os)
  }

  function YearSpecs(c: ModelConfig, ys: seq<nat>, qs: seq<string>): (r: seq<UrlSpec>)
    ensures forall u | u in r :: u.ByYear? && u.query in qs && u.year in ys && c.anioMin <= u.year <= c.anioMax
    ensures forall y, q | y in ys && c.anioMin <= y <= c.anioMax && q in qs :: ByYear(q, y) in r
  {
    if ys == [] then []
    else
      var y := ys[|ys| - 1];
      assert ys == ys[..|ys| - 1] + [y];
      var row := if c.anioMin <= y <= c.anioMax then YearRow(y, qs) else [];
      assert c.anioMin <= y <= c.anioMax ==> forall q | q in qs :: ByYear(q, y) in row;
      YearSpecs(c, ys[..|ys| - 1], qs) + row
  }

  /** Every URL before deduplication, in generation order. */
  function AllSpecs(c: ModelConfig, qs: seq<string>): seq<UrlSpec> {
    BasicSpecs(qs, Ordenamientos) + RegionSpecs(Regiones, Take(qs, 3), Take(Ordenamientos, 3))
      + YearSpecs(c, AniosBusqueda, Take(qs, 2))
  }

  lemma RendersConcat(c: ModelConfig, a: seq<UrlSpec>, b: seq<UrlSpec>)
    ensures Renders(c, a + b) == Renders(c, a) + Renders(c, b)
  {
  }

  /** The first loop: every query with every ordering. */
  method BasicUrls(c: ModelConfig, qs: seq<string>, os: seq<string>) returns (urls: seq<string>)
    ensures urls == Renders(c, BasicSpecs(qs, os))
  {
    urls := [];
    var i := 0;
    while i < |qs|
      invariant 0 <= i <= |qs|
      invariant urls == Renders(c, BasicSpecs(qs[..i], os))
    {
      assert qs[..i + 1][..i] == qs[..i];
      ghost var before := BasicSpecs(qs[..i], os);
      var j := 0;
      while j < |os|
        invariant 0 <= j <= |os|
        invariant urls == Renders(c, before + BasicRow(qs[i], os[..j]))
      {
        ghost var spec := Basic(qs[i], os[j]);
        assert BasicRow(qs[i], os[..j + 1]) == BasicRow(qs[i], os[..j]) + [spec];
        RendersConcat(c, before + BasicRow(qs[i], os[..j]), [spec]);
        urls := urls + [SearchPrefix + qs[i] + PriceFilter(c) + os[j]];
        j := j + 1;
      }
      assert os[..j] == os;
      i := i + 1;
    }
    assert qs[..i] == qs;
  }

  /** The loops over one region: each of the given queries with each of the given orderings. */
  method RegionBlockUrls(c: ModelConfig, g: Region, qs: seq<string>, os: seq<string>) returns (urls: seq<string>)
    ensures urls == Renders(c, RegionBlock(g, qs, os))
  {
    urls := [];
    var i := 0;
    while i < |qs|
      invariant 0 <= i <= |qs|
      invariant urls == Renders(c, RegionBlock(g, qs[..i], os))
    {
      assert qs[..i + 1][..i] == qs[..i];
      ghost var before := RegionBlock(g, qs[..i], os);
      var j := 0;
      while j < |os|
        invariant 0 <= j <= |os|
        invariant urls == Renders(c, before + RegionalRow(g, qs[i], os[..j]))
      {
        ghost var spec := Regional(g, qs[i], os[j]);
        assert RegionalRow(g, qs[i], os[..j + 1]) == RegionalRow(g, qs[i], os[..j]) + [spec];
        RendersConcat(c, before + RegionalRow(g, qs[i], os[..j]), [spec]);
        urls := urls + [SearchPrefix + qs[i] + PriceFilter(c) + "&latitude=" + g.lat
          + "&longitude=" + g.lon + "&distance=50000" + os[j]];
        j := j + 1;
      }
      assert os[..j] == os;
      i := i + 1;
    }
    assert qs[..i] == qs;
  }

  /** The second loop: every region. */
  method RegionalUrls(c: ModelConfig, qs: seq<string>, os: seq<string>) returns (urls: seq<string>)
    ensures urls == Renders(c, RegionSpecs(Regiones, qs, os))
  {
    urls := [];
    var g := 0;
    while g < |Regiones|
      invariant 0 <= g <= |Regiones|
      invariant urls == Renders(c, RegionSpecs(Regiones[..g], qs, os))
    {
      assert Regiones[..g + 1][..g] == Regiones[..g];
      var block := RegionBlockUrls(c, Regiones[g], qs, os);
      RendersConcat(c, RegionSpecs(Regiones[..g], qs, os), RegionBlock(Regiones[g], qs, os));
      urls := urls + block;
      g := g + 1;
    }
    assert Regiones[..g] == Regiones;
  }

  /** The innermost loop for one year: each of the given queries followed by the year. */
  method YearRowUrls(c: ModelConfig, year: nat, qs: seq<string>) returns (urls: seq<string>)
    ensures urls == Renders(c, YearRow(year, qs))
  {
    urls := [];
    var j := 0;
    while j < |qs|
      invariant 0 <= j <= |qs|
      invariant urls == Renders(c, YearRow(year, qs[..j]))
    {
      ghost var spec := ByYear(qs[j], year);
      assert YearRow(year, qs[..j + 1]) == YearRow(year, qs[..j]) + [spec];
      RendersConcat(c, YearRow(year, qs[..j]), [spec]);
      urls := urls + [SearchPrefix + qs[j] + "%20" + NatToString(year) + PriceFilter(c)];
      j := j + 1;
    }
    assert qs[..j] == qs;
  }

  /** The third loop: the search years inside the model's range, each with the given queries. */
  method YearUrls(c: ModelConfig, ys: seq<nat>, qs: seq<string>) returns (urls: seq<string>)
    ensures urls == Renders(c, YearSpecs(c, ys, qs))
  {
    urls := [];
    var y := 0;
    while y < |ys|
      invariant 0 <= y <= |ys|
      invariant urls == Renders(c, YearSpecs(c, ys[..y], qs))
    {
      assert ys[..y + 1][..y] == ys[..y];
      var year := ys[y];
      if c.anioMin <= year <= c.anioMax {
        var row := YearRowUrls(c, year, qs);
        RendersConcat(c, YearSpecs(c, ys[..y], qs), YearRow(year, qs));
        urls := urls + row;
      }
      y := y + 1;
    }
    assert ys[..y] == ys;
  }

  /**
   * generate_extended_urls: the basic, regional and per-year URLs in
   * generation order, then the first occurrence of each kept
   * (dict.fromkeys); an unknown model is the lookup's ValueError.
   */
  method GenerateExtendedUrls(modeloKey: string, baseQueries: seq<string>)
    returns (r: Result<seq<string>, string>)
    ensures r.Ok? <==> IsModelKey(modeloKey)
    ensures r.Err? ==> r == Err(GetModeloConfig(modeloKey).error)
    ensures r.Ok? ==> r.value == Dedup(Renders(GetModeloConfig(modeloKey).value, AllSpecs(GetModeloConfig(modeloKey).value, baseQueries)))
  {
    var res := GetModeloConfig(modeloKey);
    if res.Err? {
      return Err(res.error);
    }
    var c := res.value;
    var basic := BasicUrls(c, baseQueries, Ordenamientos);
    var regional := RegionalUrls(c, Take(baseQueries, 3), Take(Ordenamientos, 3));
    var years := YearUrls(c, AniosBusqueda, Take(baseQueries, 2));
    var b, g, y := BasicSpecs(baseQueries, Ordenamientos), RegionSpecs(Regiones, Take(baseQueries, 3), Take(Ordenamientos, 3)),
      YearSpecs(c, AniosBusqueda, Take(baseQueries, 2));
    RendersConcat(c, b, g);
    RendersConcat(c, b + g, y);
    r := Ok(Dedup(basic + regional + years));
  }

  /** Every generated URL is a Wallapop search that carries the model's price range. */
  lemma UrlsCarryPriceFilter(c: ModelConfig, qs: seq<string>)
    ensures forall u | u in Dedup(Renders(c, AllSpecs(c, qs))) ::
      HasAt(u, 0, SearchPrefix) && Contains(u, PriceFilter(c))
  {
    var all := AllSpecs(c, qs);
    var urls := Renders(c, all);
    DedupProperties(urls);
    forall u | u in Dedup(urls) ensures HasAt(u, 0, SearchPrefix) && Contains(u, PriceFilter(c)) {
      var i :| 0 <= i < |urls| && urls[i] == u;
      RenderCarriesPriceFilter(c, all[i]);
    }
  }

  lemma RenderCarriesPriceFilter(c: ModelConfig, s: UrlSpec)
    ensures HasAt(Render(c, s), 0, SearchPrefix) && Contains(Render(c, s), PriceFilter(c))
  {
    match s
    case Basic(q, o) =>
      CarriesInfix(SearchPrefix, q, PriceFilter(c), o);
    case Regional(g, q, o) =>
      RegionalCarries(c, g, q, o);
    case ByYear(q, y) =>
      ByYearCarries(c, q, y);
  }

  lemma RegionalCarries(c: ModelConfig, g: Region, q: string, o: string)
    ensures HasAt(Render(c, Regional(g, q, o)), 0, SearchPrefix) && Contains(Render(c, Regional(g, q, o)), PriceFilter(c))
  {
    var rest := "&latitude=" + g.lat + "&longitude=" + g.lon + "&distance=50000" + o;
    assert Render(c, Regional(g, q, o)) == SearchPrefix + q + PriceFilter(c) + rest;
    CarriesInfix(SearchPrefix, q, PriceFilter(c), rest);
  }

  lemma ByYearCarries(c: ModelConfig, q: string, y: nat)
    ensures HasAt(Render(c, ByYear(q, y)), 0, SearchPrefix) && Contains(Render(c, ByYear(q, y)), PriceFilter(c))
  {
    var head := q + "%20" + NatToString(y);
    assert Render(c, ByYear(q, y)) == SearchPrefix + head + PriceFilter(c) + [];
    CarriesInfix(SearchPrefix, head, PriceFilter(c), []);
  }

  /** A text made of a prefix, a query, a filter and a tail starts with the prefix and holds the filter. */
  lemma CarriesInfix(prefix: string, q: string, p: string, rest: string)
    ensures HasAt(prefix + q + p + rest, 0, prefix) && Contains(prefix + q + p + rest, p)
  {
    ContainsInfix(prefix + q, p, rest);
    ContainsInfix(prefix, q, p + rest);
  }

  /**
   * Regional URLs use only the first three queries and orderings; per-year
   * URLs only the first two queries and the search years inside the model's
   * range, each such pair appearing; every query meets every ordering.
   */
  lemma SpecsRespectLimits(c: ModelConfig, qs: seq<string>)
    ensures forall u | u in AllSpecs(c, qs) && u.Regional? ::
      u.region in Regiones && u.query in Take(qs, 3) && u.ordering in Take(Ordenamientos, 3)
    ensures forall u | u in AllSpecs(c, qs) && u.ByYear? ::
      u.query in Take(qs, 2) && u.year in AniosBusqueda && c.anioMin <= u.year <= c.anioMax
    ensures forall y, q | y in AniosBusqueda && c.anioMin <= y <= c.anioMax && q in Take(qs, 2) ::
      ByYear(q, y) in AllSpecs(c, qs)
    ensures forall q, o | q in qs && o in Ordenamientos :: Basic(q, o) in AllSpecs(c, qs)
  {
    var b := BasicSpecs(qs, Ordenamientos);
    var g := RegionSpecs(Regiones, Take(qs, 3), Take(Ordenamientos, 3));
    var y := YearSpecs(c, AniosBusqueda, Take(qs, 2));
    assert AllSpecs(c, qs) == b + g + y;
  }

  /** The result has no repeats and loses no generated URL. */
  lemma GeneratedUrlsDistinct(c: ModelConfig, qs: seq<string>)
    ensures NoDuplicates(Dedup(Renders(c, AllSpecs(c, qs))))
    ensures forall s | s in AllSpecs(c, qs) :: Render(c, s) in Dedup(Renders(c, AllSpecs(c, qs)))
  {
    var all := AllSpecs(c, qs);
    var urls := Renders(c, all);
    DedupProperties(urls);
    forall s | s in all ensures Render(c, s) in Dedup(urls) {
      var i :| 0 <= i < |all| && all[i] == s;
      assert urls[i] == Render(c, s);
    }
  }
}

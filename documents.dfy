/**
 * The document catalog and the pricing engine (src/utils/documents.ts).
 *
 * Multipliers are kept as integer tenths (1.3 is 13). Every base price is a multiple of 10,
 * so `base_price * multiplier * copies` is a whole number of FCFA and the single
 * `Math.round` at the end of the price computation changes nothing; that is proved below.
 */
module Documents {
  import opened Wrappers
  import opened Types

  /** `DOCUMENT_CONFIGS[d]` */
  function Config(d: DocumentType): (c: DocumentConfig)
    ensures c.docType == d
    ensures c.basePrice > 0 && c.basePrice % 10 == 0
    ensures c.processingTime > 0
    ensures |c.requiredFields| > 0
  {
    match d
    case ActeNaissance =>
      DocumentConfig(ActeNaissance, "Extrait d'acte de naissance", Mairie, 2000, 24,
                     ["nom", "prenoms", "date_naissance", "lieu_naissance"])
    case ActeMariage =>
      DocumentConfig(ActeMariage, "Extrait d'acte de mariage", Mairie, 2500, 24,
                     ["nom_epoux", "prenoms_epoux", "nom_epouse", "prenoms_epouse", "date_mariage"])
    case CasierJudiciaire =>
      DocumentConfig(CasierJudiciaire, "Casier judiciaire", Justice, 3000, 72,
                     ["nom", "prenoms", "date_naissance", "lieu_naissance", "profession"])
    case CertificatNationalite =>
      DocumentConfig(CertificatNationalite, "Certificat de nationalité", SousPrefecture, 5000, 48,
                     ["nom", "prenoms", "date_naissance", "lieu_naissance", "filiation"])
  }

  /** The catalog's keys in declaration order (the order `Object.values` yields them). */
  const DocumentTypes: seq<DocumentType> :=
    [ActeNaissance, ActeMariage, CasierJudiciaire, CertificatNationalite]

  /** `Object.values(DOCUMENT_CONFIGS)` */
  function AllConfigs(): (r: seq<DocumentConfig>)
    ensures |r| == |DocumentTypes|
    ensures forall i :: 0 <= i < |r| ==> r[i] == Config(DocumentTypes[i])
  {
    seq(|DocumentTypes|, i requires 0 <= i < |DocumentTypes| => Config(DocumentTypes[i]))
  }

  /** The catalog lists every document type exactly once, at its declaration position. */
  lemma CatalogListsEachTypeOnce(d: DocumentType)
    ensures exists i :: 0 <= i < |AllConfigs()| && AllConfigs()[i] == Config(d)
    ensures forall i, j :: 0 <= i < j < |AllConfigs()| ==> AllConfigs()[i].docType != AllConfigs()[j].docType
  {
    var k := match d
      case ActeNaissance => 0
      case ActeMariage => 1
      case CasierJudiciaire => 2
      case CertificatNationalite => 3;
    assert AllConfigs()[k] == Config(d);
  }

  /** The figures of the catalog. */
  lemma CatalogFigures()
    ensures Config(ActeNaissance).basePrice == 2000 && Config(ActeNaissance).processingTime == 24
    ensures Config(ActeMariage).basePrice == 2500 && Config(ActeMariage).processingTime == 24
    ensures Config(CasierJudiciaire).basePrice == 3000 && Config(CasierJudiciaire).processingTime == 72
    ensures Config(CertificatNationalite).basePrice == 5000 && Config(CertificatNationalite).processingTime == 48
  {
  }

  /**
   * `DOCUMENT_CONFIGS[key]` for a tag read from the data store: an entry exists only for
   * the four document type tags.
   */
  function LookupConfig(key: string): (r: Option<DocumentConfig>)
    ensures r.Some? ==> DocumentTypeKey(r.value.docType) == key && r.value == Config(r.value.docType)
    ensures r.None? ==> forall d: DocumentType :: DocumentTypeKey(d) != key
  {
    match ParseDocumentType(key)
    case Some(d) => Some(Config(d))
    case None => None
  }

  lemma LookupConfigOfKey(d: DocumentType)
    ensures LookupConfig(DocumentTypeKey(d)) == Some(Config(d))
  {
    DocumentTypeKeyRoundTrip(d);
  }

  /** `CITIES` */
  const Cities: seq<string> :=
    ["Abidjan", "Bouaké", "San-Pédro", "Yamoussoukro", "Daloa",
     "Korhogo", "Man", "Divo", "Gagnoa", "Abengourou"]

  /** `SERVICES`: the display label of each issuing service. */
  function ServiceLabel(s: ServiceType): string {
    match s
    case Mairie => "Mairie"
    case SousPrefecture => "Sous-préfecture"
    case Justice => "Tribunal"
  }

  lemma ServiceLabelsDistinct(s: ServiceType, t: ServiceType)
    ensures ServiceLabel(s) == ServiceLabel(t) ==> s == t
  {
  }

  /** The tables inside `getCityMultiplier`, `getShippingCost` and `getCityDelayMultiplier`. */
  const PriceMultipliers: map<string, nat> :=
    map["Abidjan" := 10, "Bouaké" := 11, "San-Pédro" := 12, "Yamoussoukro" := 11, "Daloa" := 13,
        "Korhogo" := 14, "Man" := 15, "Divo" := 12, "Gagnoa" := 12, "Abengourou" := 13]

  const ShippingCosts: map<string, nat> :=
    map["Abidjan" := 1000, "Bouaké" := 1500, "San-Pédro" := 2000, "Yamoussoukro" := 1500,
        "Daloa" := 2000, "Korhogo" := 2500, "Man" := 3000, "Divo" := 1500, "Gagnoa" := 1500,
        "Abengourou" := 2000]

  const DelayMultipliers: map<string, nat> :=
    map["Abidjan" := 10, "Bouaké" := 12, "San-Pédro" := 13, "Yamoussoukro" := 11, "Daloa" := 14,
        "Korhogo" := 15, "Man" := 16, "Divo" := 13, "Gagnoa" := 13, "Abengourou" := 14]

  const DefaultPriceMultiplier: nat := 12
  const DefaultShippingCost: nat := 2000
  const DefaultDelayMultiplier: nat := 13

  /** The ten cities are distinct and each has an entry in all three tables, and no other city has. */
  lemma CityTablesCoverCities()
    ensures forall i, j :: 0 <= i < j < |Cities| ==> Cities[i] != Cities[j]
    ensures PriceMultipliers.Keys == ShippingCosts.Keys == DelayMultipliers.Keys == set c | c in Cities
  {
  }

  /**
   * `getCityMultiplier(city)`, in tenths. The `|| 1.2` also replaces a zero entry; no entry is
   * zero, so only unknown cities get the default.
   */
  function CityMultiplierTenths(city: string): (m: nat)
    ensures m >= 10
    ensures city !in Cities ==> m == DefaultPriceMultiplier
    ensures m == 10 <==> city == "Abidjan"
  {
    if city in PriceMultipliers && PriceMultipliers[city] != 0 then PriceMultipliers[city]
    else DefaultPriceMultiplier
  }

  /** `getShippingCost(city)`; only Abidjan has the lowest fee of 1000. */
  function ShippingCost(city: string): (c: nat)
    ensures c >= 1000
    ensures city !in Cities ==> c == DefaultShippingCost
    ensures c == 1000 <==> city == "Abidjan"
  {
    if city in ShippingCosts && ShippingCosts[city] != 0 then ShippingCosts[city]
    else DefaultShippingCost
  }

  /** `getCityDelayMultiplier(city)`, in tenths. */
  function DelayMultiplierTenths(city: string): (m: nat)
    ensures m >= 10
    ensures city !in Cities ==> m == DefaultDelayMultiplier
    ensures m == 10 <==> city == "Abidjan"
  {
    if city in DelayMultipliers && DelayMultipliers[city] != 0 then DelayMultipliers[city]
    else DefaultDelayMultiplier
  }

  /** `Math.round(x / 10)` for a quantity `x` counted in tenths: `floor(x / 10 + 1/2)`. */
  function RoundTenths(x: int): (r: int)
    ensures 10 * r - 5 <= x < 10 * r + 5
  {
    (x + 5) / 10
  }

  /**
   * `calculatePrice(documentType, city, copies)`: the base price scaled by the city's
   * multiplier, times the number of copies, plus the city's shipping fee, rounded once at
   * the end. Copies below 1 are not rejected. The result is exactly
   * `base_price * multiplier * copies + shipping`: the rounding never changes it.
   */
  function CalculatePrice(d: DocumentType, city: string, copies: int): (r: int)
    ensures 10 * (r - ShippingCost(city)) == Config(d).basePrice * CityMultiplierTenths(city) * copies
  {
    var config := Config(d);
    var scaledTenths := config.basePrice * CityMultiplierTenths(city);
    var totalTenths := scaledTenths * copies;
    WholeTenths(config.basePrice, CityMultiplierTenths(city), copies);
    RoundWholeTenths(totalTenths, ShippingCost(city));
    RoundTenths(totalTenths + 10 * ShippingCost(city))
  }

  /** A multiple of 10 times anything is a multiple of 10. */
  lemma WholeTenths(base: nat, m: nat, copies: int)
    requires base % 10 == 0
    ensures (base * m * copies) % 10 == 0
  {
    var q := base / 10;
    assert base == 10 * q;
    assert base * m * copies == 10 * (q * m * copies);
  }

  /** Rounding a whole number of units, counted in tenths, is exact. */
  lemma RoundWholeTenths(x: int, shipping: int)
    requires x % 10 == 0
    ensures 10 * (RoundTenths(x + 10 * shipping) - shipping) == x
  {
  }

  lemma PriceExamples()
    ensures CalculatePrice(ActeNaissance, "Abidjan", 1) == 3000
    ensures CalculatePrice(CasierJudiciaire, "Man", 1) == 7500
    ensures CalculatePrice(ActeMariage, "Unknown City", 1) == 5000
  {
    assert "Unknown City" !in Cities;
  }

  /** More copies never cost less. */
  lemma PriceMonotoneInCopies(d: DocumentType, city: string, fewer: int, more: int)
    requires fewer <= more
    ensures CalculatePrice(d, city, fewer) <= CalculatePrice(d, city, more)
  {
    var unit := Config(d).basePrice * CityMultiplierTenths(city);
    assert unit >= 0;
    MultiplyMonotone(unit, fewer, more);
  }

  lemma MultiplyMonotone(k: nat, a: int, b: int)
    requires a <= b
    ensures k * a <= k * b
  {
    assert k * b - k * a == k * (b - a);
  }

  /** No copy costs exactly the shipping fee; one copy or more costs strictly more. */
  lemma PriceVersusShipping(d: DocumentType, city: string, copies: int)
    ensures copies == 0 ==> CalculatePrice(d, city, copies) == ShippingCost(city)
    ensures copies >= 1 ==> CalculatePrice(d, city, copies) > ShippingCost(city)
  {
    if copies >= 1 {
      var unit := Config(d).basePrice * CityMultiplierTenths(city);
      assert unit > 0;
      MultiplyMonotone(unit, 1, copies);
    }
  }

  /** Abidjan, the reference city, is the cheapest place for any number of copies. */
  lemma PriceAtLeastAbidjan(d: DocumentType, city: string, copies: nat)
    ensures CalculatePrice(d, city, copies) >= CalculatePrice(d, "Abidjan", copies)
  {
    assert CityMultiplierTenths("Abidjan") == 10 && ShippingCost("Abidjan") == 1000;
    ScaledAtLeast(Config(d).basePrice, CityMultiplierTenths(city), copies);
  }

  lemma ScaledAtLeast(base: nat, m: nat, copies: nat)
    requires m >= 10
    ensures base * m * copies >= base * 10 * copies
  {
    var extra: nat := m - 10;
    assert base * m == base * 10 + base * extra;
    assert base * m * copies == base * 10 * copies + base * extra * copies;
    var e: nat := base * extra;
    assert e * copies >= 0;
  }

  /**
   * `calculateDelegateEarnings(totalAmount)`: `Math.round(totalAmount * 0.6)`, the integer
   * nearest to 60% of the total (there is never a tie, since `6 * totalAmount` is even).
   */
  function CalculateDelegateEarnings(totalAmount: int): (r: int)
    ensures -5 < 10 * r - 6 * totalAmount < 5
  {
    var r := RoundTenths(6 * totalAmount);
    assert 10 * r - 5 == 2 * (5 * r - 3) + 1;
    assert 6 * totalAmount == 2 * (3 * totalAmount);
    r
  }

  /** The delegate's share of a non-negative total is between nothing and all of it. */
  lemma EarningsWithinTotal(totalAmount: int)
    requires totalAmount >= 0
    ensures 0 <= CalculateDelegateEarnings(totalAmount) <= totalAmount
  {
  }

  lemma EarningsExample()
    ensures CalculateDelegateEarnings(7500) == 4500
  {
  }

  const MillisecondsPerHour: nat := 3600000

  /**
   * The hours `estimateCompletionTime` adds: the processing time times the city's delay
   * multiplier, truncated to a whole hour as `setHours` does with its argument.
   */
  function DelayHours(d: DocumentType, city: string): (h: nat)
    ensures 10 * h <= Config(d).processingTime * DelayMultiplierTenths(city) < 10 * h + 10
    ensures h >= Config(d).processingTime
  {
    Config(d).processingTime * DelayMultiplierTenths(city) / 10
  }

  /**
   * `estimateCompletionTime(documentType, city)` with the current instant passed in as
   * `now` (milliseconds since the epoch): `now` moved forward by the delay in whole hours.
   */
  function EstimateCompletionTime(d: DocumentType, city: string, now: int): (t: int)
    ensures (t - now) % MillisecondsPerHour == 0
    ensures 10 * ((t - now) / MillisecondsPerHour)
              <= Config(d).processingTime * DelayMultiplierTenths(city)
              < 10 * ((t - now) / MillisecondsPerHour) + 10
  {
    var h := DelayHours(d, city);
    WholeHours(h);
    now + h * MillisecondsPerHour
  }

  lemma WholeHours(h: nat)
    ensures (h * MillisecondsPerHour) % MillisecondsPerHour == 0
    ensures (h * MillisecondsPerHour) / MillisecondsPerHour == h
  {
  }

  /** Abidjan is never slower than any other city. */
  lemma DelayAtLeastAbidjan(d: DocumentType, city: string, now: int)
    ensures EstimateCompletionTime(d, city, now) >= EstimateCompletionTime(d, "Abidjan", now)
  {
    assert DelayMultiplierTenths("Abidjan") == 10;
    assert DelayHours(d, "Abidjan") == Config(d).processingTime;
  }

  lemma EstimateExample(now: int)
    ensures EstimateCompletionTime(CasierJudiciaire, "Korhogo", now) == now + 108 * MillisecondsPerHour
  {
  }
}

/**
 The correlation service: endpoint choice, the applicability check on the two arrays,
 and the 99/500 sentinel policy of the two public requests.
 */
module Correlation {
  import opened Wrappers
  import opened Constants
  import opened Foreign
  import opened PercentageMaps
  import opened MapOps

  /** The vaccination endpoint: per country for option `A`, per continent for any other. */
  function VaccinesEndpoint(option: char): (path: string)
    ensures path == VaccinesApiCountry <==> option == CharacterA
    ensures path == VaccinesApiContinent <==> option != CharacterA
  {
    if option == CharacterA then VaccinesApiCountry else VaccinesApiContinent
  }

  /** The cases endpoint: per country for option `A`, per continent for any other. */
  function CasesEndpoint(option: char): (path: string)
    ensures path == CasesApiCountry <==> option == CharacterA
    ensures path == CasesApiContinent <==> option != CharacterA
  {
    if option == CharacterA then CasesApiCountry else CasesApiContinent
  }

  /** The vaccinated-per-population map for `input` under `option`. */
  function VaccinatedPercentageMap(lib: Library, server: Server, baseUrl: string, input: string, option: char)
    : (r: Result<map<string, real>, Exception>)
    ensures option == CharacterA ==>
      r == PercentageMap(lib, server(baseUrl + VaccinesApiCountry + input), PropertyPeopleVaccinated)
    ensures option != CharacterA ==>
      r == PercentageMap(lib, server(baseUrl + VaccinesApiContinent + input), PropertyPeopleVaccinated)
  {
    PercentageMap(lib, server(baseUrl + VaccinesEndpoint(option) + input), PropertyPeopleVaccinated)
  }

  /** The deaths-per-population map for `input` under `option`. */
  function DeathPercentageMap(lib: Library, server: Server, baseUrl: string, input: string, option: char)
    : (r: Result<map<string, real>, Exception>)
    ensures option == CharacterA ==>
      r == PercentageMap(lib, server(baseUrl + CasesApiCountry + input), PropertyDeaths)
    ensures option != CharacterA ==>
      r == PercentageMap(lib, server(baseUrl + CasesApiContinent + input), PropertyDeaths)
  {
    PercentageMap(lib, server(baseUrl + CasesEndpoint(option) + input), PropertyDeaths)
  }

  /**
   Whether the correlation is computed: both arrays present (not `null`), the first
   non-empty, and the two of equal length.
   */
  function CheckCorrelationCondition(first: Option<seq<real>>, second: Option<seq<real>>): (ok: bool)
    ensures ok <==>
      && first.Some? && second.Some?
      && 0 < |first.value| && 0 < |second.value|
      && |first.value| == |second.value|
  {
    first.Some? && second.Some? && |first.value| > 0 && |first.value| == |second.value|
  }

  /**
   Only the death map is cut down to the vaccination countries, so its size equals the
   vaccination map's exactly when every vaccination country has death data.
   */
  lemma {:induction false} RetainedSizeIffSubset<K>(death: set<K>, vaccinated: set<K>)
    ensures |death * vaccinated| == |vaccinated| <==> vaccinated <= death
  {
    SubsetCardinality(death * vaccinated, vaccinated);
    if vaccinated <= death {
      assert death * vaccinated == vaccinated;
    }
  }

  /**
   With the arrays the service builds (the full vaccination map's values, and the death
   map's values after keeping only vaccination countries), the check passes exactly when
   the vaccination map is non-empty and its countries all appear in the death map.
   */
  lemma ApplicableIff(death: map<string, real>, vaccinated: map<string, real>,
                      deathArray: seq<real>, vaccinatedArray: seq<real>)
    requires |vaccinatedArray| == |vaccinated|
    requires |deathArray| == |death.Keys * vaccinated.Keys|
    ensures CheckCorrelationCondition(Some(vaccinatedArray), Some(deathArray))
        <==> 0 < |vaccinated| && vaccinated.Keys <= death.Keys
  {
    RetainedSizeIffSubset(death.Keys, vaccinated.Keys);
  }

  /** How the computation ends, before it becomes the number the request returns. */
  datatype Outcome =
    | Coefficient(value: real)  // the correlation routine's result
    | NotApplicable             // the arrays failed the check
    | Threw(cause: Exception)   // an exception escaped

  /** The number a request returns for each outcome. */
  function WireValue(outcome: Outcome): real
  {
    match outcome
    case Coefficient(c) => c
    case NotApplicable => MagicNumber99
    case Threw(_) => InternalServerError
  }

  /** The correlation routine's result as an outcome. */
  function FromLibrary(r: Result<real, Exception>): Outcome
  {
    match r
    case Success(c) => Coefficient(c)
    case Failure(e) => Threw(e)
  }

  /**
   The result a request must return for the two maps: 500 when building either map
   threw, 99 when some vaccination country lacks death data or there are none, and
   otherwise the correlation of the death ratios against the vaccination ratios of the
   vaccination countries (500 if the routine throws). The two arrays list the same
   countries, each in an order the model does not fix.
   */
  ghost predicate SentinelPolicy(lib: Library, vaccinated: Result<map<string, real>, Exception>,
                                 death: Result<map<string, real>, Exception>, result: real)
  {
    if vaccinated.Failure? || death.Failure? then result == InternalServerError
    else if !(0 < |vaccinated.value| && vaccinated.value.Keys <= death.value.Keys) then result == MagicNumber99
    else exists deathArray, vaccinatedArray ::
      && ValuesOver(death.value, vaccinated.value.Keys, deathArray)
      && ValuesOver(vaccinated.value, vaccinated.value.Keys, vaccinatedArray)
      && result == WireValue(FromLibrary(lib.correlation(deathArray, vaccinatedArray)))
  }

  /**
   The part of the computation after both maps are built: keep only the vaccination
   countries in the death map, turn both maps into arrays, and correlate them (death
   array first) when the check passes.
   */
  method Correlate(lib: Library, vaccinated: map<string, real>, death: map<string, real>)
    returns (outcome: Outcome, deathArray: seq<real>, vaccinatedArray: seq<real>)
    ensures |vaccinatedArray| == |vaccinated|
    ensures |deathArray| == |death.Keys * vaccinated.Keys|
    ensures outcome == NotApplicable <==> !(0 < |vaccinated| && vaccinated.Keys <= death.Keys)
    ensures outcome != NotApplicable ==>
      && ValuesOver(death, vaccinated.Keys, deathArray)
      && ValuesOver(vaccinated, vaccinated.Keys, vaccinatedArray)
      && outcome == FromLibrary(lib.correlation(deathArray, vaccinatedArray))
  {
    var retained := RetainAll(death, vaccinated.Keys);
    var vaccinatedKeys, deathKeys;
    vaccinatedKeys, vaccinatedArray := ValuesToArray(vaccinated);
    deathKeys, deathArray := ValuesToArray(retained);
    ApplicableIff(death, vaccinated, deathArray, vaccinatedArray);
    if CheckCorrelationCondition(Some(vaccinatedArray), Some(deathArray)) {
      assert retained.Keys == vaccinated.Keys;
      assert forall i :: 0 <= i < |deathKeys| ==> deathArray[i] == death[deathKeys[i]];
      outcome := FromLibrary(lib.correlation(deathArray, vaccinatedArray));
    } else {
      outcome := NotApplicable;
    }
  }

  /**
   Builds the vaccination map, then the death map, and correlates them; an exception
   from either map ends the computation.
   */
  method ComputePearsonCorrelation(lib: Library, server: Server, baseUrl: string, input: string, option: char)
    returns (outcome: Outcome)
    ensures
      var vaccinated := VaccinatedPercentageMap(lib, server, baseUrl, input, option);
      var death := DeathPercentageMap(lib, server, baseUrl, input, option);
      && (vaccinated.Failure? ==> outcome == Threw(vaccinated.error))
      && (vaccinated.Success? && death.Failure? ==> outcome == Threw(death.error))
      && SentinelPolicy(lib, vaccinated, death, WireValue(outcome))
  {
    var vaccinated := VaccinatedPercentageMap(lib, server, baseUrl, input, option);
    if vaccinated.Failure? {
      return Threw(vaccinated.error);
    }
    var death := DeathPercentageMap(lib, server, baseUrl, input, option);
    if death.Failure? {
      return Threw(death.error);
    }
    var deathArray, vaccinatedArray;
    outcome, deathArray, vaccinatedArray := Correlate(lib, vaccinated.value, death.value);
  }

  /** The request for a continent: option `C`, any exception turned into 500. */
  method CalculateByContinent(lib: Library, server: Server, baseUrl: string, continent: string)
    returns (result: real)
    ensures SentinelPolicy(lib,
      PercentageMap(lib, server(baseUrl + VaccinesApiContinent + continent), PropertyPeopleVaccinated),
      PercentageMap(lib, server(baseUrl + CasesApiContinent + continent), PropertyDeaths),
      result)
  {
    var outcome := ComputePearsonCorrelation(lib, server, baseUrl, continent, CharacterC);
    result := WireValue(outcome);
  }

  /** The request for a country: option `A`, any exception turned into 500. */
  method CalculateByCountry(lib: Library, server: Server, baseUrl: string, country: string)
    returns (result: real)
    ensures SentinelPolicy(lib,
      PercentageMap(lib, server(baseUrl + VaccinesApiCountry + country), PropertyPeopleVaccinated),
      PercentageMap(lib, server(baseUrl + CasesApiCountry + country), PropertyDeaths),
      result)
  {
    var outcome := ComputePearsonCorrelation(lib, server, baseUrl, country, CharacterA);
    result := WireValue(outcome);
  }
}

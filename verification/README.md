# Correlation coefficient calculator — Dafny model of the correlation service

The service answers "how correlated are the death rate and the vaccination rate across
the countries of a continent, or for one country?". It reads two datasets from a remote
statistics API (vaccinations and cases). It builds a country-to-ratio map from each.
It cuts the death map down to the countries that have vaccination data. It turns both
maps into arrays and hands them to the Pearson routine of Apache Commons Math. When the
arrays are unusable the answer is the sentinel 99. When any exception escapes the answer
is the sentinel 500.

This project models that computation as pure functions and short methods:

- `wrappers.dfy`: `Option` (Java `null` / an absent JSON member) and `Result` (a value or
  the exception that escaped).
- `constants.dfy`: the constants class's values: the sentinels 99 and 500, the options
  `'A'` and `'C'`, the JSON member names (`All`, `country`, `deaths`, `population`,
  `people_vaccinated`) and the four endpoint paths. It also holds the status code of
  Spring's `HttpStatus.OK` (200), which is not part of that class.
- `foreign.dfy`: the collaborators whose code is not modelled. A JSON value with
  Jackson's `get`. The HTTP answer (status plus the parsed body's children, or a body
  that does not parse). The server as a function from URL to answer. A `Library` of
  uninterpreted routines: `asText`, `asDouble`, double division, and the Pearson
  correlation, which may throw.
- `percentage_maps.dfy`: `getDeathPercentageMap` / `getVaccinatedPercentageMap`. The
  per-record callback, the left-to-right fold over the records, and the per-response
  map.
- `map_ops.dfy`: `keySet().retainAll(...)` as a key-by-key removal loop, and
  `values()...toArray()` as a loop that picks an arbitrary remaining key each step. The
  map's iteration order is unspecified, so the model does not fix it.
- `correlation.dfy`: endpoint choice, `checkCorrelationCondition`, the core lemma that
  the check passes exactly when the vaccination countries are a non-empty subset of the
  death countries, `computePearsonCorrelation`, and the two public requests.
  `SentinelPolicy` is the reference statement of what a request returns.

Points where the code behaves differently from what one might expect of such a service:

- The record member read is `All` (capital A), not `all`.
- A record with `All.country` but no numerator or no `population` member is not skipped.
  Reading it dereferences `null`, and the request returns 500.
- A zero population is not excluded. The ratio is whatever double division gives; the
  model leaves it uninterpreted.
- Keys are not intersected symmetrically and not sorted. Only the death map is cut
  down, and the vaccination map keeps its extra countries. The check therefore fails
  (99) whenever some vaccination country has no death data.
- There is no `n >= 2` or zero-variance guard in the service. Whatever the Pearson
  routine does with such arrays, including throwing (then 500), is its own business.
- 99 is returned only when the check fails. Every exception gives 500.

## Model

| member | source | states |
|---|---|---|
| PercentageMaps.ExtractRatios | src/main/java/com/accenture/correlationcoeffcalculator/service/CorrCoeffCalcService.java:98-105 | The fold over the records (same shape for the vaccination map at lines 117-126) succeeds exactly when every record that has `All.country` also has the numerator and `population` members. Otherwise it throws a null dereference. |
| PercentageMaps.ExtractedCountries | src/main/java/com/accenture/correlationcoeffcalculator/service/CorrCoeffCalcService.java:98-105 | On success the map's keys are exactly the countries of the records that have an `All` object with a `country`; all other records are skipped. |
| PercentageMaps.LastRecordWins | src/main/java/com/accenture/correlationcoeffcalculator/service/CorrCoeffCalcService.java:98-105 | When several records name the same country, the map holds the numerator/population ratio of the last of them, because `put` overwrites. |
| PercentageMaps.PercentageMap | src/main/java/com/accenture/correlationcoeffcalculator/service/CorrCoeffCalcService.java:95-107 | An exception from the exchange propagates unchanged. A response whose status is not OK yields an empty map. An OK response whose body does not parse throws a JSON processing error. An OK parsed body yields exactly that body's `ExtractRatios` map (so the countries and last-record-wins values of `ExtractedCountries` and `LastRecordWins` carry over). It succeeds exactly when every used record has the numerator and `population` members, and otherwise it throws a null dereference. A non-empty map comes only from an OK response with a parsed body. |
| Correlation.DeathPercentageMap | src/main/java/com/accenture/correlationcoeffcalculator/service/CorrCoeffCalcService.java:92-108 | `getDeathPercentageMap`: under option `'A'` it is the map of the response from `base + "/cases?country=" + input`, and under any other option that from `base + "/cases?continent=" + input`. Either way the numerator member is `deaths`. |
| Correlation.VaccinatedPercentageMap | src/main/java/com/accenture/correlationcoeffcalculator/service/CorrCoeffCalcService.java:111-129 | `getVaccinatedPercentageMap`: under option `'A'` it is the map of the response from `base + "/vaccines?country=" + input`, and under any other option that from `base + "/vaccines?continent=" + input`. Either way the numerator member is `people_vaccinated`. |
| MapOps.RetainAll | src/main/java/com/accenture/correlationcoeffcalculator/service/CorrCoeffCalcService.java:74 | After `retainAll` the death map's keys are the intersection of the death and vaccination keys, and every surviving entry keeps its value. |
| MapOps.ValuesToArray | src/main/java/com/accenture/correlationcoeffcalculator/service/CorrCoeffCalcService.java:75-76 | The array of a map's values has one element per key. Element i is the value of the i-th key of an enumeration of the map's keys in an order that is not fixed. |
| Correlation.VaccinesEndpoint | src/main/java/com/accenture/correlationcoeffcalculator/service/CorrCoeffCalcService.java:113 | Option `'A'` selects the per-country vaccination endpoint, and every other option selects the per-continent one. This one-line condition is stated as is. The weight lies in the endpoint constants written into the contracts of `VaccinatedPercentageMap` and the two requests. |
| Correlation.CasesEndpoint | src/main/java/com/accenture/correlationcoeffcalculator/service/CorrCoeffCalcService.java:94 | Option `'A'` selects the per-country cases endpoint, and every other option selects the per-continent one. This one-line condition is stated as is. The weight lies in the endpoint constants written into the contracts of `DeathPercentageMap` and the two requests. |
| Correlation.CheckCorrelationCondition | src/main/java/com/accenture/correlationcoeffcalculator/service/CorrCoeffCalcService.java:85-90 | The check passes exactly when both arrays are non-null and of equal length and the first is non-empty (so the second is non-empty too). This restates the one-line condition. `ApplicableIff` connects it to the two maps' key sets. |
| Correlation.RetainedSizeIffSubset | src/main/java/com/accenture/correlationcoeffcalculator/service/CorrCoeffCalcService.java:74-77 | The intersection of the death and vaccination country sets has as many countries as the vaccination set exactly when every vaccination country is a death country. |
| Correlation.ApplicableIff | src/main/java/com/accenture/correlationcoeffcalculator/service/CorrCoeffCalcService.java:74-77 | For arrays sized like the full vaccination map and the cut-down death map, the check passes exactly when the vaccination map is non-empty and its countries are a subset of the death map's. |
| Correlation.Correlate | src/main/java/com/accenture/correlationcoeffcalculator/service/CorrCoeffCalcService.java:74-82 | The outcome is "not applicable" exactly when the vaccination map is empty or has a country with no death data. Otherwise the Pearson routine gets the death ratios first and the vaccination ratios second, both over the vaccination countries, and its result or exception is the outcome. |
| Correlation.ComputePearsonCorrelation | src/main/java/com/accenture/correlationcoeffcalculator/service/CorrCoeffCalcService.java:70-83 | An exception while building the vaccination map, or then the death map, ends the computation with that exception. Otherwise the outcome obeys the sentinel policy. |
| Correlation.CalculateByContinent | src/main/java/com/accenture/correlationcoeffcalculator/service/CorrCoeffCalcService.java:46-56 | The continent request queries the per-continent endpoints. It returns 500 if building either map threw, 99 if the check fails, and otherwise the Pearson result of the death and vaccination arrays (500 if the routine throws). No exception escapes. |
| Correlation.CalculateByCountry | src/main/java/com/accenture/correlationcoeffcalculator/service/CorrCoeffCalcService.java:58-68 | The country request queries the per-country endpoints, under the same sentinel policy as the continent request. |

## Left out

- HTTP: `RestTemplate` calls and URL text beyond `base + endpoint + input` are not modelled. The server is a parameter, a function from URL to answer or exception.
- JSON parsing: Jackson's tree building and the `asText`/`asDouble` coercions are not modelled. A parse failure is one exception outcome, and the coercions are uninterpreted library fields.
- A body whose root is an object or a scalar is not modelled separately. The answer carries the root's children in iteration order.
- Floating point: double division (NaN and infinity for a zero population) and the Pearson routine are uninterpreted. Nothing is proved about the coefficient's range or value.
- `HashMap` iteration order is unspecified by the JDK, so the model fixes no order. The contracts state sizes and which countries' values each array holds, not which element of one array pairs with which of the other.
- Correlation.Correlate: states that both arrays range over the vaccination countries, but not that element i of each array belongs to the same country. The source does not guarantee that pairing either.
- Logging and the `System.out.println` of each record have no effect on results and are left out.
- The initial `result = 99` of the public methods is overwritten on every path, so it has no counterpart.
- The Spring application class and bean wiring are not part of this model.

/**
 Building the country-to-ratio maps from the two API responses
 (`getDeathPercentageMap` and `getVaccinatedPercentageMap`).
 */
module PercentageMaps {
  import opened Wrappers
  import opened Constants
  import opened Foreign

  /** The record's `All` object, when it has one that carries a `country` member. */
  function KeyedAll(node: JsonValue): Option<JsonValue>
  {
    match Get(node, PropertyAll)
    case None => None
    case Some(all) => if Get(all, PropertyCountry).Some? then Some(all) else None
  }

  /** A record the extraction uses: all other records are skipped. */
  predicate Keyed(node: JsonValue)
  {
    KeyedAll(node).Some?
  }

  /** The country a used record is filed under. */
  function Country(lib: Library, node: JsonValue): string
    requires Keyed(node)
  {
    lib.asText(Get(KeyedAll(node).value, PropertyCountry).value)
  }

  /** A record that does not throw: skipped, or carrying both the numerator and the population. */
  predicate Complete(node: JsonValue, numerator: string)
  {
    Keyed(node) ==>
      && Get(KeyedAll(node).value, numerator).Some?
      && Get(KeyedAll(node).value, PropertyPopulation).Some?
  }

  /** The numerator-over-population ratio a complete used record contributes. */
  function Ratio(lib: Library, node: JsonValue, numerator: string): real
    requires Keyed(node) && Complete(node, numerator)
  {
    var all := KeyedAll(node).value;
    lib.divide(lib.asDouble(Get(all, numerator).value), lib.asDouble(Get(all, PropertyPopulation).value))
  }

  /** Every country named by a used record. */
  function Countries(lib: Library, nodes: seq<JsonValue>): set<string>
  {
    set i | 0 <= i < |nodes| && Keyed(nodes[i]) :: Country(lib, nodes[i])
  }

  /** One pass of the per-record callback: skip, throw on an absent member, or put. */
  function Put(lib: Library, acc: map<string, real>, node: JsonValue, numerator: string)
    : Result<map<string, real>, Exception>
  {
    if !Keyed(node) then Success(acc)
    else if !Complete(node, numerator) then Failure(NullPointer)
    else Success(acc[Country(lib, node) := Ratio(lib, node, numerator)])
  }

  lemma CountriesOfSnoc(lib: Library, nodes: seq<JsonValue>, node: JsonValue)
    ensures Countries(lib, nodes + [node])
         == Countries(lib, nodes) + (if Keyed(node) then {Country(lib, node)} else {})
  {
    var s := nodes + [node];
    assert nodes == s[..|nodes|];
    forall c | c in Countries(lib, s)
      ensures c in Countries(lib, nodes) + (if Keyed(node) then {Country(lib, node)} else {})
    {
      var i :| 0 <= i < |s| && Keyed(s[i]) && Country(lib, s[i]) == c;
      if i < |nodes| {
        assert s[i] == nodes[i];
      }
    }
    forall c | c in Countries(lib, nodes)
      ensures c in Countries(lib, s)
    {
      var i :| 0 <= i < |nodes| && Keyed(nodes[i]) && Country(lib, nodes[i]) == c;
      assert s[i] == nodes[i];
    }
    if Keyed(node) {
      assert s[|nodes|] == node;
    }
  }

  /**
   Runs the callback over the records in order. The first record that is used but
   lacks a member throws; otherwise the map holds one entry per country named.
   */
  function ExtractRatios(lib: Library, nodes: seq<JsonValue>, numerator: string)
    : (r: Result<map<string, real>, Exception>)
    ensures r.Success? <==> forall i :: 0 <= i < |nodes| ==> Complete(nodes[i], numerator)
    ensures r.Failure? ==> r.error == NullPointer
    decreases |nodes|
  {
    if |nodes| == 0 then Success(map[])
    else
      var prefix := nodes[..|nodes| - 1];
      var last := nodes[|nodes| - 1];
      match ExtractRatios(lib, prefix, numerator)
      case Failure(e) => Failure(e)
      case Success(acc) => Put(lib, acc, last, numerator)
  }

  /** The extracted map has one entry per country named by a used record, and no other. */
  lemma {:induction false} ExtractedCountries(lib: Library, nodes: seq<JsonValue>, numerator: string)
    requires ExtractRatios(lib, nodes, numerator).Success?
    ensures ExtractRatios(lib, nodes, numerator).value.Keys == Countries(lib, nodes)
    decreases |nodes|
  {
    if |nodes| > 0 {
      var prefix := nodes[..|nodes| - 1];
      var last := nodes[|nodes| - 1];
      assert nodes == prefix + [last];
      CountriesOfSnoc(lib, prefix, last);
      ExtractedCountries(lib, prefix, numerator);
    }
  }

  /** No used record after index `i` names the same country as record `i`. */
  predicate LastFor(lib: Library, nodes: seq<JsonValue>, i: int)
    requires 0 <= i < |nodes| && Keyed(nodes[i])
  {
    forall j :: i < j < |nodes| && Keyed(nodes[j]) ==> Country(lib, nodes[j]) != Country(lib, nodes[i])
  }

  /** Later records overwrite earlier ones: a country's entry is the ratio of its last record. */
  lemma {:induction false} LastRecordWins(lib: Library, nodes: seq<JsonValue>, numerator: string, i: int)
    requires ExtractRatios(lib, nodes, numerator).Success?
    requires 0 <= i < |nodes| && Keyed(nodes[i]) && LastFor(lib, nodes, i)
    ensures Country(lib, nodes[i]) in ExtractRatios(lib, nodes, numerator).value
    ensures ExtractRatios(lib, nodes, numerator).value[Country(lib, nodes[i])]
         == Ratio(lib, nodes[i], numerator)
    decreases |nodes|
  {
    var prefix := nodes[..|nodes| - 1];
    var last := nodes[|nodes| - 1];
    var r := ExtractRatios(lib, nodes, numerator);
    var acc := ExtractRatios(lib, prefix, numerator);
    assert acc.Success? && r == Put(lib, acc.value, last, numerator);
    if i < |nodes| - 1 {
      assert prefix[i] == nodes[i];
      assert LastFor(lib, prefix, i) by {
        forall j | i < j < |prefix| && Keyed(prefix[j])
          ensures Country(lib, prefix[j]) != Country(lib, prefix[i])
        {
          assert prefix[j] == nodes[j];
        }
      }
      LastRecordWins(lib, prefix, numerator, i);
      assert !Keyed(last) || Country(lib, last) != Country(lib, nodes[i]);
    }
  }

  /**
   The map one request yields: the records of an OK response, an empty map for any
   other status, and the exception when the exchange or the parse throws.
   */
  function PercentageMap(lib: Library, response: Result<Response, Exception>, numerator: string)
    : (r: Result<map<string, real>, Exception>)
    ensures response.Failure? ==> r == Failure(response.error)
    ensures response.Success? && response.value.status != HttpOk ==> r == Success(map[])
    ensures response.Success? && response.value.status == HttpOk && response.value.body.None? ==>
      r == Failure(JsonProcessingError)
    ensures response.Success? && response.value.status == HttpOk && response.value.body.Some? ==>
      (r.Success? <==> forall i :: 0 <= i < |response.value.body.value| ==>
                         Complete(response.value.body.value[i], numerator))
    ensures response.Success? && response.value.status == HttpOk && response.value.body.Some? ==>
      r == ExtractRatios(lib, response.value.body.value, numerator)
    ensures r.Success? && |r.value| > 0 ==>
      && response.Success? && response.value.status == HttpOk && response.value.body.Some?
      && r == ExtractRatios(lib, response.value.body.value, numerator)
    ensures r.Failure? ==>
      || response.Failure?
      || (response.value.status == HttpOk && response.value.body.None? && r.error == JsonProcessingError)
      || r.error == NullPointer
  {
    match response
    case Failure(e) => Failure(e)
    case Success(Response(status, body)) =>
      if status != HttpOk then Success(map[])
      else if body.None? then Failure(JsonProcessingError)
      else ExtractRatios(lib, body.value, numerator)
  }
}

/** The values of the service's constants class, plus the status code of Spring's `HttpStatus.OK`. */
module Constants {

  /** The value a correlation request yields when the two arrays are unusable. */
  const MagicNumber99: real := 99.0
  /** The value a correlation request yields when an exception escapes. */
  const InternalServerError: real := 500.0

  /** The option that selects the per-country endpoints. */
  const CharacterA: char := 'A'
  /** The option the continent request passes. */
  const CharacterC: char := 'C'

  const PropertyAll: string := "All"
  const PropertyCountry: string := "country"
  const PropertyDeaths: string := "deaths"
  const PropertyPopulation: string := "population"
  const PropertyPeopleVaccinated: string := "people_vaccinated"

  const VaccinesApiContinent: string := "/vaccines?continent="
  const CasesApiContinent: string := "/cases?continent="
  const VaccinesApiCountry: string := "/vaccines?country="
  const CasesApiCountry: string := "/cases?country="

  /** Not part of the constants class: the code of Spring's `HttpStatus.OK`, which the service compares against. */
  const HttpOk: int := 200
}

/** The country → life-expectancy table and its lookup with the GLOBAL fallback. */
module Countries {
  import opened Wrappers

  datatype Country = Country(code: string, name: string, lifeExpectancy: int)

  const GlobalLifeExpectancy: int := 82

  const CountryTable: seq<Country> := [
    Country("GLOBAL", "Global / No especificado", GlobalLifeExpectancy),
    Country("ES", "España", 84),
    Country("IT", "Italia", 84),
    Country("FR", "Francia", 83),
    Country("DE", "Alemania", 81),
    Country("PT", "Portugal", 82),
    Country("GB", "Reino Unido", 81),
    Country("US", "Estados Unidos", 79),
    Country("CA", "Canadá", 83),
    Country("MX", "México", 75),
    Country("AR", "Argentina", 77),
    Country("CL", "Chile", 81),
    Country("BR", "Brasil", 76),
    Country("JP", "Japón", 85),
    Country("KR", "Corea del Sur", 84),
    Country("CN", "China", 77),
    Country("AU", "Australia", 84),
    Country("NZ", "Nueva Zelanda", 82),
    Country("SE", "Suecia", 83),
    Country("NO", "Noruega", 82),
    Country("NL", "Países Bajos", 83)
  ]

  /** `table.find(c => c.code === code)`, as the index of the first match. */
  function IndexOfCode(table: seq<Country>, code: string): (r: Option<nat>)
    ensures r.Some? ==> r.value < |table| && table[r.value].code == code
    ensures r.Some? ==> forall j :: 0 <= j < r.value ==> table[j].code != code
    ensures r.None? ==> forall j :: 0 <= j < |table| ==> table[j].code != code
  {
    if |table| == 0 then None
    else if table[0].code == code then Some(0)
    else
      var rest := IndexOfCode(table[1..], code);
      if rest.None? then None else Some(rest.value + 1)
  }

  /** `getCountryByCode(code?)`: the entry with that code, else the GLOBAL entry. */
  function GetCountryByCode(code: Option<string>): (c: Country)
    ensures c in CountryTable
    ensures code.Some? && (exists i :: 0 <= i < |CountryTable| && CountryTable[i].code == code.value) ==>
              c.code == code.value
    ensures code.None? || (forall i :: 0 <= i < |CountryTable| ==> CountryTable[i].code != code.value) ==>
              c == CountryTable[0]
  {
    if code.None? then CountryTable[0]
    else
      var i := IndexOfCode(CountryTable, code.value);
      if i.Some? then CountryTable[i.value] else CountryTable[0]
  }

  function GetLifeExpectancyByCountry(code: Option<string>): (years: int)
    ensures 40 <= years <= 120
    ensures years == GetCountryByCode(code).lifeExpectancy
  {
    TableInRange();
    GetCountryByCode(code).lifeExpectancy
  }

  /** Every value is a plausible life expectancy. */
  lemma TableInRange()
    ensures forall c :: c in CountryTable ==> 40 <= c.lifeExpectancy <= 120
  {
  }

  /** Codes are unique, so the lookup does not depend on the order of the table. */
  lemma CodesUnique()
    ensures forall i, j :: 0 <= i < j < |CountryTable| ==> CountryTable[i].code != CountryTable[j].code
  {
  }

  /** GLOBAL is the first entry, and an absent or unknown code lands on it. */
  lemma GlobalFallback(code: string)
    requires forall i :: 0 <= i < |CountryTable| ==> CountryTable[i].code != code
    ensures GetLifeExpectancyByCountry(Some(code)) == GlobalLifeExpectancy == 82
    ensures GetLifeExpectancyByCountry(Some("GLOBAL")) == GetLifeExpectancyByCountry(None) == 82
  {
  }
}

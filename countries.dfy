/** The country step applied to the organisation table right after loading:
    rows whose `country` is not one of 38 fixed two-letter codes are dropped,
    and the remaining rows have the code replaced by the country's name. */
module Countries {
  import opened Wrappers
  import opened Select
  import opened Records

  /** The fixed code-to-name table. */
  const CountryNames: map<string, string> :=
    map[
      "IT" := "Italy", "AT" := "Austria", "CZ" := "Czech Republic", "ES" := "Spain",
      "FR" := "France", "DE" := "Germany", "NL" := "Netherlands", "UK" := "United Kingdom",
      "BE" := "Belgium", "EE" := "Estonia", "PL" := "Poland", "HR" := "Croatia",
      "IE" := "Ireland", "FI" := "Finland", "NO" := "Norway", "LU" := "Luxembourg",
      "DK" := "Denmark", "CH" := "Switzerland", "SE" := "Sweden", "PT" := "Portugal",
      "RO" := "Romania", "BG" := "Bulgaria", "LV" := "Latvia", "SI" := "Slovenia",
      "LT" := "Lithuania", "SK" := "Slovakia", "UA" := "Ukraine", "RS" := "Serbia",
      "CY" := "Cyprus", "HU" := "Hungary", "MT" := "Malta", "MK" := "North Macedonia",
      "IS" := "Iceland", "BA" := "Bosnia and Herzegovina", "AL" := "Albania", "MD" := "Moldova",
      "XK" := "Kosovo", "ME" := "Montenegro"
    ]

  /** The `Some` cells a country column holds after the step: one per name. */
  function AllCountryNames(): set<Cell>
  {
    set name | name in CountryNames.Values :: Some(name)
  }

  /** Every key of the table is a code of two upper-case letters, and the
      table maps, among others, `IT` to `Italy` and `ME` to `Montenegro`. */
  lemma CountryTableHasTwoLetterCodes()
    ensures forall code :: code in CountryNames ==>
      |code| == 2 && 'A' <= code[0] <= 'Z' && 'A' <= code[1] <= 'Z'
  {
  }

  /** The mask `country.isin(CountryNames.keys())`: the cell is present and
      is one of the table's codes. */
  predicate HasKnownCode(o: Organization)
    ensures HasKnownCode(o) ==> o.country.Some? && |o.country.value| == 2
    ensures o.country.None? ==> !HasKnownCode(o)
  {
    CountryTableHasTwoLetterCodes();
    o.country.Some? && o.country.value in CountryNames
  }

  /** The column rewrite `country.map(CountryNames)`: a known code becomes its
      name; any other value becomes missing, as a dictionary map does. */
  function Translated(o: Organization): (t: Organization)
    ensures t.country.Some? <==> HasKnownCode(o)
    ensures HasKnownCode(o) ==> t.country.value == CountryNames[o.country.value]
    ensures t.country in AllCountryNames() <==> HasKnownCode(o)
    ensures t.(country := o.country) == o
  {
    o.(country := if HasKnownCode(o) then Some(CountryNames[o.country.value]) else None)
  }

  /** The step: keep rows with a known code, then rewrite their country. */
  function RestrictToEurope(orgs: seq<Organization>): (r: seq<Organization>)
    ensures |r| <= |orgs|
    ensures forall o :: o in r ==> o.country in AllCountryNames()
    ensures forall o :: o in orgs && HasKnownCode(o) ==> Translated(o) in r
    ensures forall t :: t in r ==>
      exists o :: o in orgs && HasKnownCode(o) && t == Translated(o)
  {
    var kept := Where(orgs, HasKnownCode);
    var r := MapAll(kept, Translated);
    assert forall o :: o in kept ==> Translated(o) in r by {
      forall o | o in kept ensures Translated(o) in r {
        var i :| 0 <= i < |kept| && kept[i] == o;
        assert r[i] == Translated(o);
      }
    }
    assert forall t :: t in r ==> exists o :: o in kept && t == Translated(o) by {
      forall t | t in r ensures exists o :: o in kept && t == Translated(o) {
        var i :| 0 <= i < |r| && r[i] == t;
        assert kept[i] in kept;
      }
    }
    r
  }

  /** The step read row by row: each row of the input contributes its
      translation when its code is known and nothing otherwise, so the
      surviving rows keep their relative order. */
  lemma RestrictToEuropeRowByRow(o: Organization, rest: seq<Organization>)
    ensures RestrictToEurope([]) == []
    ensures RestrictToEurope([o] + rest) ==
      (if HasKnownCode(o) then [Translated(o)] else []) + RestrictToEurope(rest)
  {
    var s := [o] + rest;
    assert s[1..] == rest;
    var w := Where(rest, HasKnownCode);
    if HasKnownCode(o) {
      assert Where(s, HasKnownCode) == [o] + w;
      assert ([o] + w)[1..] == w;
    }
  }
}

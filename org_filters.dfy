/** The organisation tab's filter chain over the country-restricted table:
    three category selections and an optional name search. */
module OrgFilters {
  import opened Wrappers
  import opened Select
  import opened Text
  import opened Records
  import opened Countries

  /** The filter parameters the organisation tab supplies. */
  datatype OrgQuery = OrgQuery(
    countries: set<Cell>,
    activityTypes: set<Cell>,
    roles: set<Cell>,
    nameSearch: string)

  function CountryMask(countries: set<Cell>): Organization -> bool
  {
    (o: Organization) => o.country in countries
  }

  function TypeMask(types: set<Cell>): Organization -> bool
  {
    (o: Organization) => o.activityType in types
  }

  function RoleMask(roles: set<Cell>): Organization -> bool
  {
    (o: Organization) => o.role in roles
  }

  function NameMask(query: string): Organization -> bool
  {
    (o: Organization) => ContainsIgnoreCase(o.name, query)
  }

  function ByCountry(orgs: seq<Organization>, countries: set<Cell>): (r: seq<Organization>)
    ensures IsSubsequence(r, orgs)
    ensures forall o :: o in r <==> o in orgs && o.country in countries
    ensures countries == {} ==> r == []
  {
    Where(orgs, CountryMask(countries))
  }

  function ByActivityType(orgs: seq<Organization>, types: set<Cell>): (r: seq<Organization>)
    ensures IsSubsequence(r, orgs)
    ensures forall o :: o in r <==> o in orgs && o.activityType in types
    ensures types == {} ==> r == []
  {
    Where(orgs, TypeMask(types))
  }

  function ByRole(orgs: seq<Organization>, roles: set<Cell>): (r: seq<Organization>)
    ensures IsSubsequence(r, orgs)
    ensures forall o :: o in r <==> o in orgs && o.role in roles
    ensures roles == {} ==> r == []
  {
    Where(orgs, RoleMask(roles))
  }

  /** Skipped for an empty query; otherwise keeps the rows whose name is
      present and contains the query, ignoring case. */
  function ByName(orgs: seq<Organization>, query: string): (r: seq<Organization>)
    ensures IsSubsequence(r, orgs)
    ensures query == [] ==> r == orgs
    ensures query != [] ==> forall o :: o in r <==>
      o in orgs && o.name.Some? && Contains(Lower(o.name.value), Lower(query))
  {
    SubsequenceReflexive(orgs);
    if query == [] then orgs else Where(orgs, NameMask(query))
  }

  /** Every condition of the query at once. */
  predicate MatchesOrgQuery(o: Organization, q: OrgQuery)
  {
    && o.country in q.countries
    && o.activityType in q.activityTypes
    && o.role in q.roles
    && SearchMatches(o.name, q.nameSearch)
  }

  function OrgQueryMask(q: OrgQuery): Organization -> bool
  {
    (o: Organization) => MatchesOrgQuery(o, q)
  }

  /** The chain in the order the page applies it. */
  function FilterOrganisations(orgs: seq<Organization>, q: OrgQuery): (r: seq<Organization>)
    ensures IsSubsequence(r, orgs)
    ensures forall o :: o in r <==> o in orgs && MatchesOrgQuery(o, q)
  {
    var byCountry := ByCountry(orgs, q.countries);
    var byType := ByActivityType(byCountry, q.activityTypes);
    var byRole := ByRole(byType, q.roles);
    var byName := ByName(byRole, q.nameSearch);
    SubsequenceTransitive(byType, byCountry, orgs);
    SubsequenceTransitive(byRole, byType, orgs);
    SubsequenceTransitive(byName, byRole, orgs);
    byName
  }

  /** The name search is the selection by `SearchMatches`, whose empty query
      accepts every row. */
  lemma ByNameIsSelection(orgs: seq<Organization>, query: string)
    ensures ByName(orgs, query) == Where(orgs, (o: Organization) => SearchMatches(o.name, query))
  {
    if query == [] {
      WhereKeepsAll(orgs, (o: Organization) => SearchMatches(o.name, query));
    } else {
      WhereCongruent(orgs, NameMask(query), (o: Organization) => SearchMatches(o.name, query));
    }
  }

  /** The whole chain is one stable selection by the conjunction of its conditions. */
  lemma FilterOrganisationsIsConjunction(orgs: seq<Organization>, q: OrgQuery)
    ensures FilterOrganisations(orgs, q) == Where(orgs, OrgQueryMask(q))
    ensures IsStableSelection(orgs, FilterOrganisations(orgs, q), OrgQueryMask(q))
  {
    var c := CountryMask(q.countries);
    var n := (o: Organization) => SearchMatches(o.name, q.nameSearch);
    var ct := (o: Organization) => c(o) && o.activityType in q.activityTypes;
    var ctr := (o: Organization) => ct(o) && o.role in q.roles;

    WhereWhere(orgs, c, TypeMask(q.activityTypes), ct);
    WhereWhere(orgs, ct, RoleMask(q.roles), ctr);
    ByNameIsSelection(Where(orgs, ctr), q.nameSearch);
    WhereWhere(orgs, ctr, n, OrgQueryMask(q));
    WhereIsStableSelection(orgs, OrgQueryMask(q));
  }

  /** The three category selections commute pairwise, so any order of them
      gives the same sequence. */
  lemma CategoryFiltersCommute(orgs: seq<Organization>, countries: set<Cell>,
                               types: set<Cell>, roles: set<Cell>)
    ensures ByActivityType(ByCountry(orgs, countries), types)
         == ByCountry(ByActivityType(orgs, types), countries)
    ensures ByRole(ByActivityType(orgs, types), roles)
         == ByActivityType(ByRole(orgs, roles), types)
    ensures ByRole(ByCountry(orgs, countries), roles)
         == ByCountry(ByRole(orgs, roles), countries)
  {
    WhereCommutes(orgs, CountryMask(countries), TypeMask(types));
    WhereCommutes(orgs, TypeMask(types), RoleMask(roles));
    WhereCommutes(orgs, CountryMask(countries), RoleMask(roles));
  }

  /** Selecting every country name on the restricted table removes nothing:
      the rows left are exactly those whose original code was known. */
  lemma AllCountriesKeepRestrictedTable(orgs: seq<Organization>)
    ensures ByCountry(RestrictToEurope(orgs), AllCountryNames()) == RestrictToEurope(orgs)
  {
    WhereKeepsAll(RestrictToEurope(orgs), CountryMask(AllCountryNames()));
  }
}

/** The drill-down under the project table: the organisation rows that take
    part in the project picked from the filtered project view. */
module Join {
  import opened Wrappers
  import opened Select
  import opened Records
  import opened Countries
  import opened ProjectFilters

  function ProjectMask(id: string): Organization -> bool
  {
    (o: Organization) => o.projectID == id
  }

  /** The rows of `orgs` whose `projectID` equals the picked identifier
      exactly; no pick (an empty project view) selects nothing. */
  function OrganisationsForProject(orgs: seq<Organization>, selected: Option<string>): (r: seq<Organization>)
    ensures IsSubsequence(r, orgs)
    ensures forall o :: o in r <==> o in orgs && selected == Some(o.projectID)
    ensures selected.None? ==> r == []
  {
    match selected
    case None => []
    case Some(id) => Where(orgs, ProjectMask(id))
  }

  /** What the picker can hold: nothing when the view is empty, otherwise
      the identifier of one of the projects in the view. */
  predicate IsSelectable(view: seq<Project>, selected: Option<string>)
    ensures IsSelectable(view, selected) ==> (selected.Some? <==> view != [])
    ensures IsSelectable(view, selected) && selected.Some? ==>
      exists p :: p in view && p.id == selected.value
  {
    if view == [] then selected.None?
    else selected.Some? && exists p :: p in view && p.id == selected.value
  }

  /** The picker's initial choice, the first identifier of a non-empty view, is selectable. */
  lemma FirstOptionIsSelectable(view: seq<Project>)
    requires view != []
    ensures IsSelectable(view, Some(view[0].id))
  {
    assert view[0] in view;
  }

  /** The join is exact: every matching row, as often as the table holds it,
      in table order, and no other row. */
  lemma JoinIsExact(orgs: seq<Organization>, id: string)
    ensures IsStableSelection(orgs, OrganisationsForProject(orgs, Some(id)), ProjectMask(id))
  {
    WhereIsStableSelection(orgs, ProjectMask(id));
  }

  /** An identifier no row carries yields an empty result, not an error. */
  lemma JoinEmptyWithoutMatch(orgs: seq<Organization>, id: string)
    requires forall o :: o in orgs ==> o.projectID != id
    ensures OrganisationsForProject(orgs, Some(id)) == []
  {
  }

  /** Every row shown under the project table belongs to a project of the
      current project view; an empty view shows none. */
  lemma JoinFollowsProjectView(view: seq<Project>, orgs: seq<Organization>, selected: Option<string>)
    requires IsSelectable(view, selected)
    ensures view == [] ==> OrganisationsForProject(orgs, selected) == []
    ensures forall o :: o in OrganisationsForProject(orgs, selected) ==>
      exists p :: p in view && p.id == o.projectID
  {
  }

  /** The page end to end: with the pick taken from the filtered project
      view, every organisation listed under it carries a mapped country name
      and takes part in a project of the table that meets the whole query. */
  lemma PageDrillDown(ps: seq<Project>, orgs: seq<Organization>, q: ProjectQuery, selected: Option<string>)
    requires IsSelectable(FilterProjects(ps, q), selected)
    ensures forall o :: o in OrganisationsForProject(RestrictToEurope(orgs), selected) ==>
      && o.country in AllCountryNames()
      && exists p :: p in ps && MatchesQuery(p, q) && p.id == o.projectID
  {
    JoinFollowsProjectView(FilterProjects(ps, q), RestrictToEurope(orgs), selected);
  }

  /** Joining on the country-restricted table is the same as joining on the
      raw table and then applying the country step: translating the country
      never affects which rows match. */
  lemma JoinCommutesWithCountryStep(orgs: seq<Organization>, selected: Option<string>)
    ensures OrganisationsForProject(RestrictToEurope(orgs), selected)
         == RestrictToEurope(OrganisationsForProject(orgs, selected))
  {
    match selected
    case None =>
      assert RestrictToEurope([]) == MapAll([], Translated);
    case Some(id) =>
      var kept := Where(orgs, HasKnownCode);
      var matching := ProjectMask(id);
      var both := (o: Organization) => HasKnownCode(o) && o.projectID == id;
      WhereAfterMap(kept, Translated, matching, matching);
      WhereWhere(orgs, HasKnownCode, matching, both);
      WhereWhere(orgs, matching, HasKnownCode, both);
      calc {
        OrganisationsForProject(RestrictToEurope(orgs), selected);
        Where(MapAll(kept, Translated), matching);
        MapAll(Where(kept, matching), Translated);
        MapAll(Where(orgs, both), Translated);
        MapAll(Where(Where(orgs, matching), HasKnownCode), Translated);
        RestrictToEurope(OrganisationsForProject(orgs, selected));
      }
  }
}

/** Two worked cases of the query layer on small concrete tables. */
module Scenarios {
  import opened Wrappers
  import opened Records
  import opened Countries
  import opened ProjectFilters

  function SampleProject(id: string, cluster: string, start: Date, end: Date): Project
  {
    Project(id, None, None, None, Some(cluster), None, None, start, end, None, None)
  }

  function SampleOrg(name: string, country: string, projectID: string): Organization
  {
    Organization(Some(name), None, None, Some(country), None, None, projectID, None, None, None)
  }

  /** A project whose start date did not parse is dropped even by a window
      wide enough for its end date and a selection naming its cluster. */
  lemma UnparsedStartDateIsDropped()
    ensures
      var p1 := SampleProject("1", "C1", Some(20200101), Some(20210101));
      var p2 := SampleProject("2", "C2", None, Some(20220101));
      var q := ProjectQuery(20190101, 20230101, {Some("C1"), Some("C2")}, {None}, "", "");
      FilterProjects([p1, p2], q) == [p1]
  {
    var p1 := SampleProject("1", "C1", Some(20200101), Some(20210101));
    var p2 := SampleProject("2", "C2", None, Some(20220101));
    var q := ProjectQuery(20190101, 20230101, {Some("C1"), Some("C2")}, {None}, "", "");
    FilterProjectsIsConjunction([p1, p2], q);
    assert MatchesQuery(p1, q);
    assert !MatchesQuery(p2, q);
  }

  /** An organisation with a known code is kept under its country name; one
      with an unknown code is dropped. */
  lemma UnknownCodeIsDropped()
    ensures RestrictToEurope([SampleOrg("A", "IT", "1"), SampleOrg("B", "ZZ", "1")])
         == [SampleOrg("A", "Italy", "1")]
  {
    var a := SampleOrg("A", "IT", "1");
    var b := SampleOrg("B", "ZZ", "1");
    assert HasKnownCode(a) && CountryNames["IT"] == "Italy";
    assert !HasKnownCode(b);
    RestrictToEuropeRowByRow(a, [b]);
    RestrictToEuropeRowByRow(b, []);
  }
}

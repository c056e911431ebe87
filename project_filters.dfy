/** The project tab's filter chain: a date window, two category selections
    and two optional text searches, applied one after another to the loaded
    project table, each keeping the rows its mask accepts. */
module ProjectFilters {
  import opened Wrappers
  import opened Select
  import opened Text
  import opened Records

  /** The filter parameters the sidebar supplies. */
  datatype ProjectQuery = ProjectQuery(
    start: int,
    end: int,
    clusters: set<Cell>,
    fundingSchemes: set<Cell>,
    objectiveSearch: string,
    idSearch: string)

  /** Both dates parsed, the start on or after `start`, the end on or before
      `end`; a missing date fails its comparison. */
  predicate InDateWindow(p: Project, start: int, end: int)
  {
    && p.startDate.Some? && start <= p.startDate.value
    && p.endDate.Some? && p.endDate.value <= end
  }

  /** The row masks of the five steps. */
  function DateMask(start: int, end: int): Project -> bool
  {
    (p: Project) => InDateWindow(p, start, end)
  }

  function ClusterMask(clusters: set<Cell>): Project -> bool
  {
    (p: Project) => p.cluster in clusters
  }

  function SchemeMask(schemes: set<Cell>): Project -> bool
  {
    (p: Project) => p.fundingScheme in schemes
  }

  function ObjectiveMask(query: string): Project -> bool
  {
    (p: Project) => ContainsIgnoreCase(p.objective, query)
  }

  function IdMask(query: string): Project -> bool
  {
    (p: Project) => ContainsIgnoreCase(Some(p.id), query)
  }

  function ByDateWindow(ps: seq<Project>, start: int, end: int): (r: seq<Project>)
    ensures IsSubsequence(r, ps)
    ensures forall p :: p in r <==>
      && p in ps
      && p.startDate.Some? && start <= p.startDate.value
      && p.endDate.Some? && p.endDate.value <= end
  {
    Where(ps, DateMask(start, end))
  }

  function ByCluster(ps: seq<Project>, clusters: set<Cell>): (r: seq<Project>)
    ensures IsSubsequence(r, ps)
    ensures forall p :: p in r <==> p in ps && p.cluster in clusters
    ensures clusters == {} ==> r == []
  {
    Where(ps, ClusterMask(clusters))
  }

  function ByFundingScheme(ps: seq<Project>, schemes: set<Cell>): (r: seq<Project>)
    ensures IsSubsequence(r, ps)
    ensures forall p :: p in r <==> p in ps && p.fundingScheme in schemes
    ensures schemes == {} ==> r == []
  {
    Where(ps, SchemeMask(schemes))
  }

  /** Skipped for an empty query; otherwise keeps the rows whose objective is
      present and contains the query, ignoring case. */
  function ByObjective(ps: seq<Project>, query: string): (r: seq<Project>)
    ensures IsSubsequence(r, ps)
    ensures query == [] ==> r == ps
    ensures query != [] ==> forall p :: p in r <==>
      p in ps && p.objective.Some? && Contains(Lower(p.objective.value), Lower(query))
  {
    SubsequenceReflexive(ps);
    if query == [] then ps else Where(ps, ObjectiveMask(query))
  }

  /** Skipped for an empty query; otherwise keeps the rows whose identifier
      contains the query, ignoring case. */
  function ById(ps: seq<Project>, query: string): (r: seq<Project>)
    ensures IsSubsequence(r, ps)
    ensures query == [] ==> r == ps
    ensures query != [] ==> forall p :: p in r <==>
      p in ps && Contains(Lower(p.id), Lower(query))
  {
    SubsequenceReflexive(ps);
    if query == [] then ps else Where(ps, IdMask(query))
  }

  /** Every condition of the query at once. */
  predicate MatchesQuery(p: Project, q: ProjectQuery)
  {
    && InDateWindow(p, q.start, q.end)
    && p.cluster in q.clusters
    && p.fundingScheme in q.fundingSchemes
    && SearchMatches(p.objective, q.objectiveSearch)
    && SearchMatches(Some(p.id), q.idSearch)
  }

  /** The chain in the order the page applies it. */
  function FilterProjects(ps: seq<Project>, q: ProjectQuery): (r: seq<Project>)
    ensures IsSubsequence(r, ps)
    ensures forall p :: p in r <==> p in ps && MatchesQuery(p, q)
  {
    var byDate := ByDateWindow(ps, q.start, q.end);
    var byCluster := ByCluster(byDate, q.clusters);
    var byScheme := ByFundingScheme(byCluster, q.fundingSchemes);
    var byObjective := ByObjective(byScheme, q.objectiveSearch);
    var byId := ById(byObjective, q.idSearch);
    SubsequenceTransitive(byCluster, byDate, ps);
    SubsequenceTransitive(byScheme, byCluster, ps);
    SubsequenceTransitive(byObjective, byScheme, ps);
    SubsequenceTransitive(byId, byObjective, ps);
    byId
  }

  /** A text search step is the selection by `SearchMatches`, whose empty
      query accepts every row. */
  lemma ByObjectiveIsSelection(ps: seq<Project>, query: string)
    ensures ByObjective(ps, query) == Where(ps, (p: Project) => SearchMatches(p.objective, query))
  {
    if query == [] {
      WhereKeepsAll(ps, (p: Project) => SearchMatches(p.objective, query));
    } else {
      WhereCongruent(ps, ObjectiveMask(query), (p: Project) => SearchMatches(p.objective, query));
    }
  }

  lemma ByIdIsSelection(ps: seq<Project>, query: string)
    ensures ById(ps, query) == Where(ps, (p: Project) => SearchMatches(Some(p.id), query))
  {
    if query == [] {
      WhereKeepsAll(ps, (p: Project) => SearchMatches(Some(p.id), query));
    } else {
      WhereCongruent(ps, IdMask(query), (p: Project) => SearchMatches(Some(p.id), query));
    }
  }

  function QueryMask(q: ProjectQuery): Project -> bool
  {
    (p: Project) => MatchesQuery(p, q)
  }

  /** The whole chain is one stable selection by the conjunction of its
      conditions: the result is fixed as a sequence, not only as a set. */
  lemma FilterProjectsIsConjunction(ps: seq<Project>, q: ProjectQuery)
    ensures FilterProjects(ps, q) == Where(ps, QueryMask(q))
    ensures IsStableSelection(ps, FilterProjects(ps, q), QueryMask(q))
  {
    var d := DateMask(q.start, q.end);
    var o := (p: Project) => SearchMatches(p.objective, q.objectiveSearch);
    var i := (p: Project) => SearchMatches(Some(p.id), q.idSearch);
    var dc := (p: Project) => d(p) && p.cluster in q.clusters;
    var dcf := (p: Project) => dc(p) && p.fundingScheme in q.fundingSchemes;
    var dcfo := (p: Project) => dcf(p) && o(p);

    WhereWhere(ps, d, ClusterMask(q.clusters), dc);
    WhereWhere(ps, dc, SchemeMask(q.fundingSchemes), dcf);
    ByObjectiveIsSelection(Where(ps, dcf), q.objectiveSearch);
    WhereWhere(ps, dcf, o, dcfo);
    ByIdIsSelection(Where(ps, dcfo), q.idSearch);
    WhereWhere(ps, dcfo, i, QueryMask(q));
    WhereIsStableSelection(ps, QueryMask(q));
  }

  /** The cluster and funding-scheme selections commute. */
  lemma ClusterAndFundingCommute(ps: seq<Project>, clusters: set<Cell>, schemes: set<Cell>)
    ensures ByFundingScheme(ByCluster(ps, clusters), schemes)
         == ByCluster(ByFundingScheme(ps, schemes), clusters)
  {
    WhereCommutes(ps, ClusterMask(clusters), SchemeMask(schemes));
  }

  /** Running the five steps in the reverse order yields the same sequence. */
  lemma FilterProjectsReverseOrder(ps: seq<Project>, q: ProjectQuery)
    ensures ByDateWindow(ByCluster(ByFundingScheme(ByObjective(ById(ps, q.idSearch),
              q.objectiveSearch), q.fundingSchemes), q.clusters), q.start, q.end)
         == FilterProjects(ps, q)
  {
    var o := (p: Project) => SearchMatches(p.objective, q.objectiveSearch);
    var i := (p: Project) => SearchMatches(Some(p.id), q.idSearch);
    var io := (p: Project) => i(p) && o(p);
    var iof := (p: Project) => io(p) && p.fundingScheme in q.fundingSchemes;
    var iofc := (p: Project) => iof(p) && p.cluster in q.clusters;

    ByIdIsSelection(ps, q.idSearch);
    ByObjectiveIsSelection(Where(ps, i), q.objectiveSearch);
    WhereWhere(ps, i, o, io);
    WhereWhere(ps, io, SchemeMask(q.fundingSchemes), iof);
    WhereWhere(ps, iof, ClusterMask(q.clusters), iofc);
    WhereWhere(ps, iofc, DateMask(q.start, q.end), QueryMask(q));
    FilterProjectsIsConjunction(ps, q);
  }

  /** A project with an unparsed date is never shown, whatever the rest of
      the query, and one whose dates are the window's bounds is shown when
      the other conditions admit it. */
  lemma DateWindowBounds(ps: seq<Project>, q: ProjectQuery, p: Project)
    requires p in ps
    ensures p.startDate.None? || p.endDate.None? ==> p !in FilterProjects(ps, q)
    ensures (&& p.startDate.Some? && p.endDate.Some?
             && q.start == p.startDate.value && q.end == p.endDate.value
             && p.cluster in q.clusters && p.fundingScheme in q.fundingSchemes
             && SearchMatches(p.objective, q.objectiveSearch)
             && SearchMatches(Some(p.id), q.idSearch))
            ==> p in FilterProjects(ps, q)
  {
  }
}

/** The two tables the application loads, one row type each. Text cells that
    the CSV may leave empty are `Option<string>` (`None` is pandas' NaN); the
    identifier columns are always text, because the loader casts them with
    `astype('str')`; dates are integers in one fixed time unit, `None` where
    parsing failed (NaT). */
module Records {
  import opened Wrappers

  type Cell = Option<string>

  /** A timestamp as an integer in one fixed time unit, or `None` for NaT. */
  type Date = Option<int>

  datatype Project = Project(
    id: string,
    acronym: Cell,
    title: Cell,
    objective: Cell,
    cluster: Cell,
    topics: Cell,
    fundingScheme: Cell,
    startDate: Date,
    endDate: Date,
    legalBasis: Cell,
    grantDoi: Cell)

  datatype Organization = Organization(
    name: Cell,
    activityType: Cell,
    city: Cell,
    country: Cell,
    role: Cell,
    organizationURL: Cell,
    projectID: string,
    order: Option<int>,
    ecContribution: Option<real>,
    contactForm: Cell)
}

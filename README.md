# HopOn query layer in Dafny

HopOn is a Streamlit page for browsing research projects and the
organisations that take part in them. The page loads two pipe-separated
tables (projects and organisations). A user filters each table with
sidebar and tab controls and drills down from a picked project to its
organisations. All of its logic is the query layer in `app.py`, and that is
what this project models:

- **Country step** (`Countries`). Organisation rows whose `country` is not
  one of 38 fixed two-letter codes are dropped. The other rows have the code
  replaced by the country's name.
- **Project filter chain** (`ProjectFilters`). Five steps run in this order:
  - an inclusive date window;
  - membership of `cluster` in the selected clusters;
  - membership of `fundingScheme` in the selected funding schemes;
  - a case-insensitive search on `objective`;
  - a case-insensitive search on `id`.

  Each search is skipped when its query is empty.
- **Organisation filter chain** (`OrgFilters`). Membership of `country`,
  `activityType` and `role` in their selections, then an optional
  case-insensitive name search.
- **Join** (`Join`). The rows of the country-restricted organisation table
  whose `projectID` equals the project identifier picked from the filtered
  project view.

Every step is a boolean mask applied to a table. `Select.Where` is that
operation. `Select.IsStableSelection` describes a correct result on its
own terms: a subsequence of the input that holds every accepted row as
often as the input does, and no other row. `Where` meets this description,
and it is the only sequence that does. Each chain is then proved equal,
as a sequence, to a single selection by the conjunction of its
conditions. That is why the steps can run in any order.

Value representation:
- A cell that pandas may read as missing (NaN/NaT) is an `Option` (`None`
  when missing).
- `id` and `projectID` are plain strings, because the loader casts them
  with `astype('str')`.
- Dates are integers in one fixed time unit.
- The category selections are sets of optional cells. pandas `isin` counts
  NaN as equal to NaN, so `None` is a legal member of a selection and
  matches a missing cell.

The drill-down joins against the country-restricted table
`df_organizations` (`app.py:103`), not against the organisation tab's
filtered view, so the organisation tab's filters do not affect it. A
design that resolves the join against the filtered view would behave
differently; the model follows the code. `Join.OrganisationsForProject` is
applied to `RestrictToEurope(orgs)`, as `Join.JoinCommutesWithCountryStep`
states, and `Join.PageDrillDown` composes the whole page: filter the
projects, pick from the view, join on the restricted table.

## Model

| member | source | states |
|---|---|---|
| Select.Where | app.py:83-91 | a mask keeps an order-preserving subsequence of the table: a row is in the result exactly when it is in the input and the mask accepts it |
| Select.WhereIsStableSelection | app.py:83-91 | the masked table holds every accepted row exactly as often as the input, in input order, and no rejected row |
| Select.StableSelectionIsUnique | app.py:83-91 | any sequence meeting that description equals the masked table, so the result is fixed as a sequence |
| Select.WhereWhere | app.py:83-91 | applying one mask after another equals applying their conjunction once |
| Select.WhereCommutes | app.py:85-86 | two masks applied in either order give the same sequence |
| Text.LowerIsIdempotent | app.py:89 | lower-casing leaves no upper-case ASCII letter and is idempotent |
| Text.ContainsIff | app.py:89 | the substring scan succeeds exactly when the query occurs at some position of the text |
| Text.ContainsIgnoreCase | app.py:89 | a case-insensitive match holds exactly when the cell is present and the lower-cased query occurs in the lower-cased cell (`na=False`: a missing cell never matches) |
| Text.ExactOccurrenceMatches | app.py:89 | an occurrence with the exact letter case is always a case-insensitive match |
| Text.MatchIgnoresCase | app.py:89 | lower-casing the query or the cell never changes the outcome of a match |
| Countries.CountryTableHasTwoLetterCodes | app.py:27-39 | every key of the 38-entry code table is a code of two upper-case letters |
| Countries.HasKnownCode | app.py:47 | a row passes the code mask only when its country is present and is a two-letter key of the table; a missing country never passes |
| Countries.Translated | app.py:50 | the rewritten country is present exactly when the code is a key of the table, and is then that code's name and one of the table's names; every other column is unchanged |
| Countries.RestrictToEurope | app.py:47-50 | every surviving row carries a mapped country name; a row with a known code survives with its translation; every surviving row is the translation of an input row with a known code |
| Countries.RestrictToEuropeRowByRow | app.py:47-50 | row by row, a known code contributes its translated row and any other value contributes nothing, so order is kept and the empty table stays empty |
| ProjectFilters.ByDateWindow | app.py:83-84 | a project is kept exactly when both dates are present, the start is at or after the lower bound and the end is at or before the upper bound; a missing date excludes it |
| ProjectFilters.ByCluster | app.py:85 | a project is kept exactly when its cluster is selected; an empty selection empties the view |
| ProjectFilters.ByFundingScheme | app.py:86 | a project is kept exactly when its funding scheme is selected; an empty selection empties the view |
| ProjectFilters.ByObjective | app.py:88-89 | an empty query leaves the view unchanged; otherwise a project is kept exactly when its objective is present and contains the query, ignoring case |
| ProjectFilters.ById | app.py:90-91 | an empty query leaves the view unchanged; otherwise a project is kept exactly when its identifier contains the query, ignoring case |
| ProjectFilters.FilterProjects | app.py:83-91 | the filtered view is a subsequence of the project table, and it holds exactly the projects that meet every condition of the query |
| ProjectFilters.ByObjectiveIsSelection | app.py:88-89 | the optional objective search is one selection whose empty query accepts every row |
| ProjectFilters.ByIdIsSelection | app.py:90-91 | the optional identifier search is one selection whose empty query accepts every row |
| ProjectFilters.FilterProjectsIsConjunction | app.py:83-91 | the five-step chain equals, as a sequence, one stable selection by the conjunction of the five conditions |
| ProjectFilters.ClusterAndFundingCommute | app.py:85-86 | the cluster and funding-scheme filters give the same sequence in either order |
| ProjectFilters.FilterProjectsReverseOrder | app.py:83-91 | running the five steps in reverse order gives the same sequence as the page's order |
| ProjectFilters.DateWindowBounds | app.py:83-91 | a project with a missing date is never shown; a project whose dates are the window's bounds is shown whenever the selections and both searches admit it |
| OrgFilters.ByCountry | app.py:121 | an organisation is kept exactly when its country is selected; an empty selection empties the view |
| OrgFilters.ByActivityType | app.py:122 | an organisation is kept exactly when its activity type is selected; an empty selection empties the view |
| OrgFilters.ByRole | app.py:123 | an organisation is kept exactly when its role is selected; an empty selection empties the view |
| OrgFilters.ByName | app.py:125-126 | an empty query leaves the view unchanged; otherwise an organisation is kept exactly when its name is present and contains the query, ignoring case |
| OrgFilters.FilterOrganisations | app.py:121-126 | the filtered organisations are a subsequence of the table and hold exactly the rows that meet every condition |
| OrgFilters.ByNameIsSelection | app.py:125-126 | the optional name search is one selection whose empty query accepts every row |
| OrgFilters.FilterOrganisationsIsConjunction | app.py:121-126 | the four-step chain equals, as a sequence, one stable selection by the conjunction of its conditions |
| OrgFilters.CategoryFiltersCommute | app.py:121-123 | the country, type and role filters commute pairwise, so every order of them gives the same sequence |
| OrgFilters.AllCountriesKeepRestrictedTable | app.py:47-50 | selecting every country name on the restricted table removes nothing |
| Join.OrganisationsForProject | app.py:103 | the result is a subsequence of the table holding exactly the rows whose `projectID` equals the picked identifier; no pick gives an empty result |
| Join.IsSelectable | app.py:98 | a pick that the picker can hold is present exactly when the project view is non-empty, and is then the identifier of a project in the view |
| Join.FirstOptionIsSelectable | app.py:98 | the picker's initial choice, the first identifier of a non-empty view, is a valid pick |
| Join.JoinIsExact | app.py:103 | every matching row appears as often as in the table, in table order, and no other row appears |
| Join.JoinEmptyWithoutMatch | app.py:103 | an identifier that no row carries gives an empty result, not an error |
| Join.JoinFollowsProjectView | app.py:98-103 | when the pick comes from the filtered project view, every joined row belongs to a project in that view; an empty view joins nothing |
| Join.PageDrillDown | app.py:47-103 | with the pick taken from the filtered project view, every organisation listed under it carries a mapped country name and takes part in a project of the table that meets every condition of the query |
| Join.JoinCommutesWithCountryStep | app.py:47-103 | joining on the country-restricted table equals joining on the raw table and then applying the country step |
| Scenarios.UnparsedStartDateIsDropped | app.py:83-86 | of a project with dates in the window and one with an unparsed start date, only the first is shown |
| Scenarios.UnknownCodeIsDropped | app.py:47-50 | an organisation coded `IT` is kept as `Italy`, and one coded `ZZ` is dropped |

## Left out

- Streamlit rendering is not modelled: page set-up, title, tabs, sidebar, headers, `st.write` and `st.dataframe`. None of it has logic.
- The `st.cache_data` memoisation of the loaders is not modelled. The model takes the loaded tables as inputs.
- CSV reading, `pd.to_datetime(..., errors='coerce')`, `astype('str')` and the column projection (app.py:9-23) are not modelled. Their results are the inputs: dates are already `Option<int>`, and identifiers are already strings.
- Widget defaults are not modelled. These are the min/max date display, the default date bounds, "all values" as the default selection and `'coordinator'` as the default role (app.py:58-80, 110-118). Filter parameters are plain inputs.
- Timestamp precision is not modelled. Dates are integers in one fixed time unit, and the date pickers' values are taken to be in that same unit. The conversion of a picked day to midnight of that day, which makes a timestamp later on the window's last day fall outside the window, is not modelled.
- Text.ContainsIgnoreCase: `str.contains` treats the query as a regular expression by default. The model matches it as a literal substring. A query that is not a valid pattern, such as `C++`, `(` or `[`, raises `re.error` in the application and stops the page before the filtered view is shown. The model has no such error path: `ProjectFilters.ByObjective`, `ProjectFilters.ById` and `OrgFilters.ByName` return a view for every query.
- Text.ContainsIgnoreCase: only ASCII letters are case-folded. Python's full Unicode case folding is not modelled.
- Join.IsSelectable: the picker offers `filtered_df['id'].unique()`. The model only requires the pick to be the identifier of some project in the view, or no pick when the view is empty. Which identifier the user chooses is an input.
- `Countries` proves that every surviving country is a mapped name. It does not prove that the 38 names are pairwise distinct, so it does not prove that a name determines its code.

/** The data the client holds: the graph returned by the issues query and the
    single view-state record of the App component. JavaScript `null` and
    `undefined` are both `None`. */
module Schema {

  datatype Option<+T> = None | Some(value: T)

  /** One reaction of an issue (`id`, `content`). */
  datatype Reaction = Reaction(id: string, content: string)

  /** One issue edge; the controller never looks inside it. */
  datatype IssueEdge = IssueEdge(id: string, title: string, url: string, reactions: seq<Reaction>)

  datatype PageInfo = PageInfo(endCursor: Option<string>, hasNextPage: bool)

  datatype IssueConnection = IssueConnection(edges: seq<IssueEdge>, totalCount: int, pageInfo: PageInfo)

  datatype Stargazers = Stargazers(totalCount: int)

  datatype Repository = Repository(
    id: string,
    name: string,
    url: string,
    stargazers: Stargazers,
    viewerHasStarred: bool,
    issues: IssueConnection)

  datatype Organization = Organization(name: string, url: string, repository: Option<Repository>)

  datatype GraphQLError = GraphQLError(message: string)

  /** The state cell `{path, organization, errors}` of the component. */
  datatype ViewState = ViewState(
    path: string,
    organization: Option<Organization>,
    errors: Option<seq<GraphQLError>>)

  /** The body of an issues-query response: `data.organization` (absent when
      the whole `data` member is null) and the top-level `errors`. */
  datatype ResponseData = ResponseData(organization: Option<Organization>)

  datatype FetchResponse = FetchResponse(data: Option<ResponseData>, errors: Option<seq<GraphQLError>>)

  /** What a star mutation answers: the echoed flag (absent when the answer
      has no `data`) and any errors. The controller ignores every answer,
      including one that carries only errors. */
  datatype MutationResult = MutationResult(viewerHasStarred: Option<bool>, errors: Option<seq<GraphQLError>>)

  /** The repository on screen, when there is one. */
  predicate HasRepository(s: ViewState)
  {
    s.organization.Some? && s.organization.value.repository.Some?
  }

  function RepositoryOf(s: ViewState): Repository
    requires HasRepository(s)
  {
    s.organization.value.repository.value
  }
}

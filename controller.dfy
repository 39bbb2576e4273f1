/** The view-state controller of the App component, as pure functions.
    The input change is one synchronous step. Every other handler is split
    in two: the part that runs when the event fires, which yields a request,
    and the completion that runs when the response arrives. The submit,
    "load more" and star completions are given the state captured when
    their handler ran (the "snapshot"), because they close over that value
    and build the next state from it; the mount completion reads no state. */
module Controller {
  import opened Schema
  import opened PathSplit
  import opened Requests

  const DefaultName: string := "the-road-to-learn-react"

  /** `INITIAL_STATE.path`. */
  const InitialPath: string := DefaultName + [Sep] + DefaultName

  /** `INITIAL_STATE`: the default path, nothing loaded, no errors. */
  const InitialState: ViewState := ViewState(InitialPath, None, None)

  // ---------------------------------------------------------------------
  // Requests issued by the handlers

  /** The initial-load effect asks for the first page of the default
      repository. */
  function InitialLoadRequest(): (req: Request)
    ensures req.query == FetchIssues
    ensures req.variables == IssuesVariables(DefaultName, Some(DefaultName), Undefined)
  {
    IssuesQueryVariablesOfPath(DefaultName, DefaultName, None, Undefined);
    IssuesRequest(InitialPath, Undefined)
  }

  /** Submit fetches the current path with no cursor, i.e. the first page. */
  function SubmitRequest(s: ViewState): (req: Request)
    ensures req.query == FetchIssues
    ensures req.variables.IssuesVariables? && req.variables.cursor == Undefined
    ensures IsSegmentAt(s.path, 0, req.variables.organization)
    ensures req.variables.repository.None? <==> Sep !in s.path
    ensures req.variables == IssuesQueryVariables(s.path, Undefined)
  {
    IssuesRequest(s.path, Undefined)
  }

  /** "Load more" asks for the same repository as a submit would, from the
      end cursor of the page on screen. It dereferences the repository, so
      one must be on screen. */
  function LoadMoreRequest(s: ViewState): (req: Request)
    requires HasRepository(s)
    ensures req.query == FetchIssues
    ensures req.variables.IssuesVariables?
    ensures req.variables.cursor == Supplied(RepositoryOf(s).issues.pageInfo.endCursor)
    ensures req.variables.organization == SubmitRequest(s).variables.organization
    ensures req.variables.repository == SubmitRequest(s).variables.repository
  {
    IssuesRequest(s.path, Supplied(RepositoryOf(s).issues.pageInfo.endCursor))
  }

  /** The star toggle sends the mutation opposite to the flag it is given:
      never AddStar for a starred repository, never RemoveStar otherwise.
      Both mutations (`removeStarToRepository`, `addStarToRepository`)
      carry the repository id as their only variable. */
  function ToggleRequest(repositoryId: string, viewerHasStarred: bool): (req: Request)
    ensures req.variables == StarVariables(repositoryId)
    ensures req.query == RemoveStar <==> viewerHasStarred
    ensures req.query == AddStar <==> !viewerHasStarred
  {
    if viewerHasStarred then Request(RemoveStar, StarVariables(repositoryId))
    else Request(AddStar, StarVariables(repositoryId))
  }

  /** What a star toggle's continuation closes over: the state when the
      handler ran and the flag the handler was given. */
  datatype PendingToggle = PendingToggle(snapshot: ViewState, viewerHasStarred: bool)

  // ---------------------------------------------------------------------
  // Next-state functions

  /** The input change rewrites the path and keeps the rest. */
  function ChangePath(s: ViewState, value: string): (r: ViewState)
    ensures r.path == value
    ensures r.organization == s.organization && r.errors == s.errors
  {
    s.(path := value)
  }

  /** Completion of a fetch (submit or "load more"): the snapshot with its
      organization and errors replaced wholesale by the response's. `None`
      when the response has no `data`: reading `data.organization` then
      throws inside the continuation and the state is not set. */
  function FetchCompletion(snapshot: ViewState, response: FetchResponse): (r: Option<ViewState>)
    ensures r.Some? <==> response.data.Some?
    ensures r.Some? ==> r.value.path == snapshot.path
    ensures r.Some? ==> r.value.organization == response.data.value.organization
    ensures r.Some? ==> r.value.errors == response.errors
  {
    match response.data
    case None => None
    case Some(data) => Some(snapshot.(organization := data.organization, errors := response.errors))
  }

  /** Completion of the initial load: the default path with the response's
      organization and errors, whatever the state was. */
  function InitialLoadCompletion(response: FetchResponse): (r: Option<ViewState>)
    ensures r.Some? <==> response.data.Some?
    ensures r.Some? ==> r.value.path == InitialPath
    ensures r.Some? ==> r.value.organization == response.data.value.organization
    ensures r.Some? ==> r.value.errors == response.errors
  {
    match response.data
    case None => None
    case Some(data) => Some(ViewState(InitialPath, data.organization, response.errors))
  }

  /** Completion of a star toggle. The flag becomes the opposite of the one
      the toggle was given, the count moves by one from the snapshot's, and
      everything else is the snapshot's. The mutation's answer is unused. */
  function ToggleCompletion(snapshot: ViewState, viewerHasStarred: bool, mutationResult: MutationResult): (r: ViewState)
    requires HasRepository(snapshot)
    ensures HasRepository(r)
    ensures RepositoryOf(r).viewerHasStarred == !viewerHasStarred
    ensures RepositoryOf(r).stargazers.totalCount
         == RepositoryOf(snapshot).stargazers.totalCount + (if viewerHasStarred then -1 else 1)
    ensures r.path == snapshot.path && r.errors == snapshot.errors
    ensures r.organization.value.name == snapshot.organization.value.name
    ensures r.organization.value.url == snapshot.organization.value.url
    ensures RepositoryOf(r).id == RepositoryOf(snapshot).id
    ensures RepositoryOf(r).name == RepositoryOf(snapshot).name
    ensures RepositoryOf(r).url == RepositoryOf(snapshot).url
    ensures RepositoryOf(r).issues == RepositoryOf(snapshot).issues
  {
    var org := snapshot.organization.value;
    var repo := org.repository.value;
    var count := repo.stargazers.totalCount;
    if viewerHasStarred then
      snapshot.(organization := Some(org.(repository := Some(
        repo.(viewerHasStarred := false, stargazers := Stargazers(count - 1))))))
    else
      snapshot.(organization := Some(org.(repository := Some(
        repo.(viewerHasStarred := true, stargazers := Stargazers(count + 1))))))
  }

  // ---------------------------------------------------------------------
  // Properties relating several steps

  /** The initial load completes exactly as a fetch from the initial state. */
  lemma InitialLoadIsFetchFromInitialState(response: FetchResponse)
    ensures InitialLoadCompletion(response) == FetchCompletion(InitialState, response)
  {
  }

  /** A fetch completion keeps nothing of the snapshot but its path: the
      page on screen and earlier errors are gone. */
  lemma FetchCompletionForgetsPriorData(s1: ViewState, s2: ViewState, response: FetchResponse)
    requires s1.path == s2.path
    ensures FetchCompletion(s1, response) == FetchCompletion(s2, response)
  {
  }

  /** "Load more" replaces the page: the issues on screen afterwards are the
      response's, and an issue of the previous page survives only if the
      response holds it again. */
  lemma LoadMoreReplacesIssues(snapshot: ViewState, response: FetchResponse)
    requires HasRepository(snapshot)
    requires response.data.Some?
    requires response.data.value.organization.Some? && response.data.value.organization.value.repository.Some?
    ensures var r := FetchCompletion(snapshot, response).value;
            var fetched := response.data.value.organization.value.repository.value.issues.edges;
            && HasRepository(r)
            && RepositoryOf(r).issues.edges == fetched
            && forall e :: e in RepositoryOf(snapshot).issues.edges && e !in fetched ==> e !in RepositoryOf(r).issues.edges
  {
  }

  /** Starring and then unstarring (or the reverse), each from the state the
      previous one produced, gives back the original state. */
  lemma ToggleTwiceRestores(s: ViewState, m1: MutationResult, m2: MutationResult)
    requires HasRepository(s)
    ensures var f := RepositoryOf(s).viewerHasStarred;
            ToggleCompletion(ToggleCompletion(s, f, m1), !f, m2) == s
  {
  }

  /** Clicking the toggle of the repository on screen: the request is the
      opposite mutation, and the completion flips the flag and moves the
      count towards the new flag. */
  lemma ToggleOnScreen(s: ViewState, m: MutationResult)
    requires HasRepository(s)
    ensures var repo := RepositoryOf(s);
            var req := ToggleRequest(repo.id, repo.viewerHasStarred);
            var after := RepositoryOf(ToggleCompletion(s, repo.viewerHasStarred, m));
            && req.variables == StarVariables(repo.id)
            && (req.query == AddStar <==> after.viewerHasStarred)
            && after.stargazers.totalCount - repo.stargazers.totalCount == (if after.viewerHasStarred then 1 else -1)
  {
  }
}

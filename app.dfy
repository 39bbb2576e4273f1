/** The App component's one state cell (`org`, set through `setOrg`) and its
    handlers. The submit, "load more" and star handlers return their request
    and the snapshot of the state their continuation closes over; the
    matching completion method is later given that snapshot and the
    response. The mount handler and its completion use no snapshot, and the
    input change sends no request. */
module Component {
  import opened Schema
  import opened Requests
  import opened Controller

  class App {
    var state: ViewState

    /** `useState(INITIAL_STATE)`. */
    constructor ()
      ensures state == InitialState
    {
      state := InitialState;
    }

    /** `onChange`: the typed text becomes the path; no request is sent. */
    method OnChange(value: string)
      modifies this
      ensures state == ChangePath(old(state), value)
    {
      state := ChangePath(state, value);
    }

    /** `onSubmit`: fetch the first page of the current path. */
    method OnSubmit() returns (request: Request, snapshot: ViewState)
      ensures request == SubmitRequest(state)
      ensures request.variables.cursor == Undefined
      ensures snapshot == state
    {
      request := SubmitRequest(state);
      snapshot := state;
    }

    /** `onFetchMoreIssues`: fetch the page after the current end cursor. */
    method OnFetchMoreIssues() returns (request: Request, snapshot: ViewState)
      requires HasRepository(state)
      ensures request == LoadMoreRequest(state)
      ensures request.variables.cursor == Supplied(RepositoryOf(state).issues.pageInfo.endCursor)
      ensures snapshot == state
    {
      request := LoadMoreRequest(state);
      snapshot := state;
    }

    /** `onStarRepository`: send the mutation opposite to the given flag;
        the continuation keeps both the state and that flag. */
    method OnStarRepository(repositoryId: string, viewerHasStarred: bool) returns (request: Request, pending: PendingToggle)
      ensures request == ToggleRequest(repositoryId, viewerHasStarred)
      ensures request.query == (if viewerHasStarred then RemoveStar else AddStar)
      ensures pending == PendingToggle(state, viewerHasStarred)
    {
      request := ToggleRequest(repositoryId, viewerHasStarred);
      pending := PendingToggle(state, viewerHasStarred);
    }

    /** The mount effect: fetch the first page of the default path. */
    method OnMount() returns (request: Request)
      ensures request == InitialLoadRequest()
    {
      request := InitialLoadRequest();
    }

    /** The `.then` of a submit or "load more": the state becomes the
        snapshot merged with the response, whatever it has become meanwhile;
        a response without `data` leaves it as it is. */
    method CompleteFetch(snapshot: ViewState, response: FetchResponse)
      modifies this
      ensures response.data.Some? ==> state == FetchCompletion(snapshot, response).value
      ensures response.data.None? ==> state == old(state)
    {
      var next := FetchCompletion(snapshot, response);
      if next.Some? {
        state := next.value;
      }
    }

    /** The `.then` of the mount effect. */
    method CompleteMount(response: FetchResponse)
      modifies this
      ensures response.data.Some? ==> state == InitialLoadCompletion(response).value
      ensures response.data.None? ==> state == old(state)
    {
      var next := InitialLoadCompletion(response);
      if next.Some? {
        state := next.value;
      }
    }

    /** The `.then` of a star mutation, given what its handler captured.
        The snapshot must hold a repository, as the handler dereferences it. */
    method CompleteStar(pending: PendingToggle, mutationResult: MutationResult)
      requires HasRepository(pending.snapshot)
      modifies this
      ensures state == ToggleCompletion(pending.snapshot, pending.viewerHasStarred, mutationResult)
    {
      state := ToggleCompletion(pending.snapshot, pending.viewerHasStarred, mutationResult);
    }
  }

  /** Two submits in flight for two different paths, answered out of order:
      the stale request, completing last, decides the state and brings back
      its own path and its own response, and the newer response is lost. */
  method LastCompletionWins(app: App, value: string, first: FetchResponse, second: FetchResponse)
    requires first.data.Some? && second.data.Some?
    modifies app
    ensures app.state.path == old(app.state.path)
    ensures app.state.organization == first.data.value.organization
    ensures app.state.errors == first.errors
  {
    var _, snapshotA := app.OnSubmit();
    app.OnChange(value);
    var _, snapshotB := app.OnSubmit();
    assert snapshotB.path == value;
    app.CompleteFetch(snapshotB, second);
    app.CompleteFetch(snapshotA, first);
  }

  /** Text typed while a submit is in flight is lost: the completion puts
      back the path of the state the submit was made from. */
  method TypingDuringFetchIsLost(app: App, value: string, response: FetchResponse)
    requires response.data.Some?
    modifies app
    ensures app.state.path == old(app.state.path)
    ensures app.state.organization == response.data.value.organization
    ensures app.state.errors == response.errors
  {
    var _, snapshot := app.OnSubmit();
    app.OnChange(value);
    assert app.state.path == value;
    app.CompleteFetch(snapshot, response);
  }

  /** A star toggle that completes after a fetch is built from the state
      before the fetch: the newly fetched page is replaced by the old one. */
  method StaleToggleUndoesFetch(s: ViewState, response: FetchResponse, m: MutationResult) returns (app: App)
    requires HasRepository(s)
    requires response.data.Some?
    ensures HasRepository(app.state)
    ensures RepositoryOf(app.state).issues == RepositoryOf(s).issues
    ensures app.state.errors == s.errors
  {
    app := new App();
    app.OnChange(s.path);
    var _, s0 := app.OnSubmit();
    app.CompleteFetch(s0, FetchResponse(Some(ResponseData(s.organization)), s.errors));
    var _, pending := app.OnStarRepository(RepositoryOf(s).id, RepositoryOf(s).viewerHasStarred);
    assert pending.snapshot == s;
    var _, fetchSnapshot := app.OnSubmit();
    app.CompleteFetch(fetchSnapshot, response);
    app.CompleteStar(pending, m);
  }
}

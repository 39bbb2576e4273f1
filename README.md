# GitHub issues client: view-state controller

This project models the controller of a small browser client for GitHub's
GraphQL API. The client shows the open issues of one repository a page at a
time. It can load the next page and star or unstar the repository. The App
component holds one state record `{path, organization, errors}`. An input
change rewrites the record's path directly. Every other user event turns the
record into a request. A fetch response that carries `data` turns it into the
next record; one without `data` leaves it as it was. A star mutation's answer
is never read: its completion flips the flag and moves the count whatever the
server answers, errors included.

Layout:

- `schema.dfy` (module `Schema`) has the data returned by the issues query and
  the view-state record. JavaScript `null` and `undefined` are both `None`.
- `path_split.dfy` (module `PathSplit`) has `path.split('/')` as a recursive
  function `Split`. It has its inverse `Join` and the predicate `IsSegmentAt`,
  which says that a string is the whole `/`-free piece starting at a position.
- `requests.dfy` (module `Requests`) has the three GraphQL documents as the
  tags `FetchIssues`, `AddStar` and `RemoveStar`. A request is a tag plus
  variables. This module builds the issues request and its variables; the
  star requests are built by the toggle in `controller.dfy`.
- `controller.dfy` (module `Controller`) has the initial state and the handlers
  as pure functions. The input change is a single step. Every other handler
  has a request part and a completion part.
  The file also holds lemmas that relate several steps.
- `app.dfy` (module `Component`) has the class `App`, whose `state` field is the
  component's state cell. Its methods are the handlers. The submit, "load
  more" and star completions receive the snapshot that their handler
  captured, because those continuations build the new state from the `org`
  value they closed over. The mount completion takes no snapshot: it builds
  from the default path and never reads `org`.
  The same file has three client methods that replay interleavings of
  completions.

## Model

| member | source | states |
|---|---|---|
| `PathSplit.Split` | src/App.js:90 | `path.split('/')` yields at least one piece, and no piece contains `/` |
| `PathSplit.JoinSplit` | src/App.js:90 | joining the pieces of a path with `/` gives the path back |
| `PathSplit.SplitJoin` | src/App.js:90 | splitting a join of `/`-free pieces gives those pieces back |
| `PathSplit.SplitHead` | src/App.js:90 | the first piece is the text before the first `/`; a second piece exists exactly when the path has a `/`; the later pieces are the split of the text after that `/` |
| `PathSplit.SegmentUnique` | src/App.js:90 | only one piece can start at a given position, so the characterisation above fixes the result |
| `PathSplit.SegmentOfSuffix` | src/App.js:90 | a piece of the text after a position is a piece of the whole path at that position |
| `Requests.IssuesQueryVariables` | src/App.js:89-94 | `organization` is the text before the first `/`; `repository` is undefined exactly when there is no `/`, and otherwise it is the text between the first and the second `/`; `cursor` is passed through unchanged |
| `Requests.IssuesRequest` | src/App.js:89-95 | `getIssuesOfRepository` sends the issues document with exactly the variables that `IssuesQueryVariables` characterises |
| `Requests.IssuesQueryVariablesOfPath` | src/App.js:89-94 | for `org/repo`, and for `org/repo/...` with any tail, the variables are exactly `org`, `repo` and the given cursor |
| `Controller.InitialLoadRequest` | src/App.js:170 | the mount effect asks for the issues query with organization and repository both `the-road-to-learn-react` and no cursor |
| `Controller.SubmitRequest` | src/App.js:108-111 | submit sends the issues query with the variables of the current path and no cursor, which means the first page |
| `Controller.LoadMoreRequest` | src/App.js:160-163 | "load more" asks for the same organization and repository as a submit, with the cursor set to the current `pageInfo.endCursor` |
| `Controller.ToggleRequest` | src/App.js:75-135 | the toggle sends RemoveStar (`removeStarToRepository`) exactly when the given flag is true and AddStar (`addStarToRepository`) exactly when it is false; either way the repository id is the only variable |
| `Controller.ChangePath` | src/App.js:113-115 | the input change sets `path` to the typed value and leaves `organization` and `errors` as they were |
| `Controller.FetchCompletion` | src/App.js:152-157 | a fetch completion is the snapshot with its `path` kept and `organization` and `errors` taken from the response; a response with no `data` produces no new state |
| `Controller.InitialLoadCompletion` | src/App.js:170-174 | the mount completion is the default path with the response's `organization` and `errors`, and it ignores the state before it |
| `Controller.ToggleCompletion` | src/App.js:119-148 | the flag becomes the negation of the given flag; the star count becomes the snapshot's count −1 for an unstar or +1 for a star; path, errors, organization name and url, and repository id, name, url and issues are the snapshot's; the mutation result is not used |
| `Controller.InitialLoadIsFetchFromInitialState` | src/App.js:170-174 | the mount completion equals a fetch completion from the initial state |
| `Controller.FetchCompletionForgetsPriorData` | src/App.js:153-157 | a fetch completion depends on the snapshot only through its path |
| `Controller.LoadMoreReplacesIssues` | src/App.js:153-157 | after "load more" the issue edges are exactly the response's; an edge of the previous page survives only if the response contains it |
| `Controller.ToggleTwiceRestores` | src/App.js:119-148 | a star completion followed by an unstar completion, or the reverse, with each built from the state the previous one produced, gives back the original state |
| `Controller.ToggleOnScreen` | src/App.js:117-148 | toggling the repository on screen sends AddStar exactly when the flag ends up true, and the count moves by +1 toward starred or by −1 toward unstarred |
| `Component.App.constructor` | src/App.js:98-105 | the state cell starts as the default path with no organization and no errors |
| `Component.App.OnChange` | src/App.js:113-115 | the state becomes `ChangePath` of the old state, and no request is sent |
| `Component.App.OnSubmit` | src/App.js:108-111 | returns the submit request for the current state and a snapshot of that state, and leaves the state unchanged |
| `Component.App.OnFetchMoreIssues` | src/App.js:160-163 | returns a request whose cursor is the current end cursor, and a snapshot of the state |
| `Component.App.OnStarRepository` | src/App.js:117-150 | returns RemoveStar for a true flag and AddStar for a false one, together with what the continuation captures: the current state and the given flag |
| `Component.App.OnMount` | src/App.js:165-175 | returns the initial-load request |
| `Component.App.CompleteFetch` | src/App.js:153-157 | the state becomes the merge of the given snapshot and the response, whatever it had become in between; a response with no `data` leaves it unchanged |
| `Component.App.CompleteMount` | src/App.js:170-174 | the state becomes the initial-load completion; a response with no `data` leaves it unchanged |
| `Component.App.CompleteStar` | src/App.js:119-148 | the state becomes the toggle completion of the snapshot and flag captured by the handler |
| `Component.LastCompletionWins` | src/App.js:113-157 | from any state: submit, change the path, submit again, then the second request completes before the first; the first (stale) completion decides the state, bringing back its own path, `organization` and `errors` |
| `Component.TypingDuringFetchIsLost` | src/App.js:113-157 | from any state, a submit, then an input change, then the submit's completion leaves the path the submit was sent from, so the typed text is lost |
| `Component.StaleToggleUndoesFetch` | src/App.js:117-157 | a star completion that runs after a fetch completion restores the issues and errors held before the fetch |

## Left out

- Rendering: the JSX, the title and the `Organization` presentational
  component (src/App.js:3, 12, 177-201). The `Organization` component is not
  part of this model. So the model cannot say which flag and id the component
  passes to the star toggle. `Controller.ToggleOnScreen` covers the case where
  it passes those of the repository on screen.
- Transport: the axios instance, its endpoint, the bearer token read from the
  environment, and the `.post` calls (src/App.js:5-10, 76-79, 83-86, 91-94).
  A request is a value (document tag and variables) and a response is an
  input.
- GraphQL document text (src/App.js:15-72): each document is only a tag. What
  the server does with it is outside the model.
- Asynchrony: completions are explicit method calls, and they may run in any
  order that a client writes. A transport failure rejects the promise, so no
  completion runs at all. The model therefore has no step for it. Nothing
  cancels a request that is in flight. `Component.LastCompletionWins`,
  `Component.TypingDuringFetchIsLost` and `Component.StaleToggleUndoesFetch`
  show three orders.
- React hooks beyond the one state cell: re-rendering, and `useEffect`
  running once on mount. `event.preventDefault()` in the submit handler is a
  browser detail and is not modelled.
- Null dereferences: "load more" and the star completion read
  `organization.repository` and crash when it is null. These are preconditions
  (`HasRepository`) on `Controller.LoadMoreRequest`,
  `Controller.ToggleCompletion`, `Component.App.OnFetchMoreIssues` and
  `Component.App.CompleteStar`, not modelled behaviour. A response whose
  `data` is null also throws inside the continuation, before `setOrg`. That
  case is modelled: the state stays as it was.
- `null` versus `undefined`: both are `None` for `organization`, `errors` and
  `endCursor`. The `cursor` argument keeps the difference. It is `Undefined`
  when no cursor is passed, and `Supplied(None)` when "load more" passes a
  null end cursor.
- Numbers: `totalCount` is an unbounded integer. JavaScript's double-precision
  numbers are not modelled, since a star count never gets near 2^53.

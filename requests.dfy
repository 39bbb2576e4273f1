/** The GraphQL document tags and the issues request builder. A request is
    a value: the tag of the GraphQL document it carries and its variables.
    Sending it is left to the transport, which this model does not contain. */
module Requests {
  import opened Schema
  import opened PathSplit

  /** The three fixed GraphQL documents, by name only. */
  datatype Document = FetchIssues | AddStar | RemoveStar

  /** The `cursor` argument: not passed at all (JavaScript `undefined`), or
      passed as a page's `endCursor`, which is a string or `null`. */
  datatype Cursor = Undefined | Supplied(endCursor: Option<string>)

  /** `repository` is `None` when the path has no `/` and the destructuring
      leaves it `undefined`. */
  datatype Variables =
    | IssuesVariables(organization: string, repository: Option<string>, cursor: Cursor)
    | StarVariables(repositoryId: string)

  datatype Request = Request(query: Document, variables: Variables)

  /** The variables of the issues query: the path split on `/`, its first
      piece as the organization, its second (if any) as the repository, the
      rest dropped, and the cursor as given. */
  function IssuesQueryVariables(path: string, cursor: Cursor): (v: Variables)
    ensures v.IssuesVariables? && v.cursor == cursor
    ensures IsSegmentAt(path, 0, v.organization)
    ensures v.repository.None? <==> Sep !in path
    ensures v.repository.Some? ==> IsSegmentAt(path, |v.organization| + 1, v.repository.value)
  {
    var parts := Split(path);
    SplitHead(path);
    if |parts| == 1 then
      IssuesVariables(parts[0], None, cursor)
    else
      var k := |parts[0]| + 1;
      SplitHead(path[k..]);
      SegmentOfSuffix(path, k, parts[1]);
      IssuesVariables(parts[0], Some(parts[1]), cursor)
  }

  /** For a path `org/repo` (and anything after a further `/`), the query asks
      for exactly `org` and `repo`. */
  lemma {:induction false} IssuesQueryVariablesOfPath(org: string, repo: string, tail: Option<string>, cursor: Cursor)
    requires Sep !in org && Sep !in repo
    ensures var path := if tail.Some? then org + [Sep] + repo + [Sep] + tail.value else org + [Sep] + repo;
            IssuesQueryVariables(path, cursor) == IssuesVariables(org, Some(repo), cursor)
  {
    if tail.Some? {
      assert org + [Sep] + repo + [Sep] + tail.value == org + [Sep] + (repo + [Sep] + tail.value);
      SplitAppend(org, repo + [Sep] + tail.value);
      SplitAppend(repo, tail.value);
    } else {
      SplitAppend(org, repo);
      SplitNoSep(repo);
    }
  }

  /** `getIssuesOfRepository(path, cursor)`: the issues document with the
      variables above. */
  function IssuesRequest(path: string, cursor: Cursor): (req: Request)
    ensures req.query == FetchIssues
    ensures req.variables == IssuesQueryVariables(path, cursor)
  {
    Request(FetchIssues, IssuesQueryVariables(path, cursor))
  }
}

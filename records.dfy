/** The values the program exchanges with its environment: environment
    variables, the JSON records of the GitHub issues listing and the
    responses of the paginated listing endpoint. */
module Records {

  /** A value that may be missing, such as an environment variable. */
  datatype Option<T> = None | Some(value: T)

  /** A key of a JSON object: missing, present with the value `null`, or
      present with a value. */
  datatype Field<T> = Absent | Null | Present(value: T)

  /** The `pull_request` object GitHub attaches to pull requests. Only its
      presence matters to the program. */
  datatype PullRequestLinks = PullRequestLinks(url: string)

  /** One element of the issues listing: an issue or a pull request. The
      title is always a string; the body may be missing or `null`. */
  datatype Item = Item(title: string, body: Field<string>, pullRequest: Field<PullRequestLinks>)

  /** One HTTP response of the listing endpoint: its status code and, for a
      200 answer, the decoded JSON array of items. */
  datatype Response = Response(status: int, items: seq<Item>)
}

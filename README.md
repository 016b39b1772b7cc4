# Sentiment analysis of GitHub issues — verified model of the decision logic

The program lists every issue and pull request of a GitHub repository, scores
the text of each one with a lexicon-based sentiment library, buckets the score
into `happy`, `sad` or `neutral`, prints one row per item and shows a pie chart
of the label counts. It also contains a helper that posts a comment through the
GitHub command-line client after clamping its length.

This project models the decisions inside that plumbing and proves what they
promise:

- `Sentiment` (`sentiment.dfy`): the three-way classifier on a polarity score
  (a `real`), the label counts, and the chart's slice sizes.
- `ItemText` (`item_text.dfy`): the `PR`/`Issue` tag, the body default and the
  scored text `title + " " + body`.
- `Fetch` (`fetch.dfy`): the pagination loop of `fetch_issues`, proved against
  `Fetched`, the concatenation of the pages before the first stopping response.
- `Comment` (`comment.dfy`): the clamp of a comment to 65536 characters.
- `Pipeline` (`pipeline.dfy`): `main` — the credential guard, the listing, the
  per-item loop that appends one label per item, and the chart sizes.
- `Records` (`records.dfy`): the JSON shapes involved. A JSON key is a
  three-way `Field`: missing, `null`, or present with a value.

The HTTP layer is a finite sequence of responses. The request for page `p`
(counting from 1) is answered by `responses[p - 1]`. The real loop only ends
when the server sends an error or an empty page. So `FetchIssues` and `Run`
require that some response in the sequence does so (`Terminates`). The
loop's side effects are outputs of `FetchIssues`. These are the page numbers
it requests, in order, and the status it prints when the listing ends on an
error. The sentiment library is a parameter `polarity: string -> real`. Environment
variables are `Option<string>` parameters. A variable counts as set when it is
defined and non-empty, which is how Python's `not token` test behaves.

`main.py` has no command-line modes besides the repository argument. It
fetches no comments, and `main` requests no AI reviews. It requires both
`GITHUB_TOKEN` and `GEMINI_API_KEY` before doing anything.

## Model

| member | source | states |
|---|---|---|
| `Sentiment.Classify` | main.py:38-44 | the label is happy iff polarity > 0.1, sad iff polarity < -0.1, neutral iff -0.1 <= polarity <= 0.1; so exactly one label applies |
| `Sentiment.ClassifyBoundaries` | main.py:39-44 | 0.1 and -0.1 (and 0) are both neutral |
| `Sentiment.ClassifyMonotone` | main.py:38-44 | a higher polarity never gets a less positive label (sad < neutral < happy) |
| `Sentiment.Name` | main.py:40-44 | each label is returned as its own string: "happy", "sad" or "neutral", and each string names exactly one label |
| `Sentiment.NameInjective` | main.py:40-44 | the three label strings are pairwise distinct |
| `Sentiment.CountNames` | main.py:67 | counting a label's string in the list of label strings gives that label's count, so `sentiments.count('happy')` counts the happy items |
| `Sentiment.Count` | main.py:67 | `list.count`: at most the length of the list, and zero exactly when the label does not occur |
| `Sentiment.CountPositions` | main.py:67 | the count equals the number of positions holding the label |
| `Sentiment.CountAppend` | main.py:67 | counting is additive over concatenation |
| `Sentiment.CountsSum` | main.py:67 | the happy, sad and neutral counts sum to the length of the list |
| `Sentiment.ChartSizes` | main.py:66-67 | three slice sizes, slice i counting label i of `['happy', 'sad', 'neutral']`, summing to the number of labels |
| `ItemText.TagName` | main.py:86 | the printed tag is "PR" exactly for pull requests and "Issue" exactly for issues |
| `ItemText.KindOf` | main.py:86 | PR iff the `pull_request` key is present (with any value, `null` included), Issue iff it is missing |
| `ItemText.KindIgnoresOtherFields` | main.py:86 | the tag ignores title and body, and a `null` and a non-null `pull_request` both give PR |
| `ItemText.BodyOrEmpty` | main.py:88-89 | a present body is kept; a missing or `null` body becomes "" |
| `ItemText.ScoredText` | main.py:87-90 | the text is the title, then one space, then the defaulted body; its length is their sum plus one, and both parts can be read back |
| `ItemText.ScoredTextWithoutBody` | main.py:88-90 | missing, `null` and empty bodies all give `title + " "` |
| `Fetch.StopsAt` | main.py:22-27 | a non-200 status stops the listing, and so does an empty item list; a response that does not stop is a 200 with at least one item |
| `Fetch.FirstStop` | main.py:18-27 | the index of the first response whose status is not 200 or whose item list is empty |
| `Fetch.FirstStopUnique` | main.py:22-27 | any stopping index preceded only by non-stopping responses is the first stop |
| `Fetch.FlattenAppend` | main.py:28 | concatenating pages distributes over appending page sequences |
| `Fetch.FlattenLength` | main.py:28 | the concatenation's length is the total of the page lengths |
| `Fetch.FetchIssues` | main.py:15-30 | the loop returns exactly `Fetched` (the pages before the first stop, in order), requests pages 1, 2, ..., k+1 in order where k is the first stop, and reports the status exactly when the stop is a non-200 |
| `Fetch.FetchedKeepsEveryEarlierPage` | main.py:16-30 | every page before the stop appears whole, at its place in page order |
| `Fetch.FetchedIgnoresLaterPages` | main.py:18-27 | responses at or after the stop contribute nothing: changing them does not change the result |
| `Fetch.FetchedLength` | main.py:16-30 | the number of items returned is the sum of the sizes of the pages before the stop |
| `Fetch.ThreePagesScenario` | main.py:15-30 | pages of 25, 25 and 0 items give 50 items after 3 requests |
| `Fetch.ErrorAfterOnePageScenario` | main.py:22-28 | a full page followed by an error status keeps the first page's items |
| `Comment.TruncateComment` | main.py:57-58 | the posted body has at most 65536 characters and is a prefix of the comment; it is the comment itself when that fits, and exactly 65536 long otherwise |
| `Comment.TruncateTwice` | main.py:57-58 | truncating an already truncated body changes nothing |
| `Pipeline.LabelOf` | main.py:90-92 | an item is happy iff the polarity of its scored text exceeds 0.1, sad iff it is below -0.1, and neutral otherwise |
| `Pipeline.ScoreItems` | main.py:84-95 | one label and one printed row per item, in fetch order; the row holds the "PR"/"Issue" tag, the title and the label, which is the classification of that item's scored text |
| `Pipeline.CountLabels` | main.py:67 | the count of a label among the sentiments is the number of items whose polarity falls in that label's band |
| `Pipeline.IsSet` | main.py:79 | a credential is missing when the variable is undefined or empty, and present when it holds a non-empty string |
| `Pipeline.Run` | main.py:75-98 | aborts iff either credential is unset; otherwise prints one row per fetched item, reports the failing status exactly when the listing ended on a non-200, and charts three slice sizes that sum to the number of fetched items, slice i counting the items whose polarity falls in band i |

## Left out

- HTTP requests, the request URL and its `Authorization` header, and JSON decoding (main.py:19-21, 25) are replaced by the sequence of responses. A 200 answer is taken to carry an array of items.
- A request that raises (connection error, time-out) or a 200 answer whose body is not JSON crashes `fetch_issues` and `main` in the source, losing everything gathered. The model has no such outcome: every response is a status and a list of items.
- Running out of responses is excluded by a precondition (`Terminates`). The real loop never ends when the server never stops answering non-empty pages.
- `analyze_sentiment` (main.py:33-35) calls a foreign lexicon library and returns a float. It is the uninterpreted `polarity` parameter. So a concrete text-to-label example such as "Great work!" being happy is not modelled.
- `generate_review` (main.py:47-52) is a network call to a language model. `main` does not use it.
- The `gh` subprocess and its success and failure messages (main.py:59-62) are foreign calls. Only the truncation before them is modelled.
- Printing, colours, the matplotlib rendering (main.py:68-72), `argparse`, `load_dotenv` and environment reads are I/O. The printed rows are modelled as data (`Pipeline.Row`). Environment values are parameters.
- An item without a `title` key, or with a body that is neither a string nor `null`, would raise in Python. The model takes titles as strings and bodies as strings, `null` or missing, which is what the listing endpoint returns.

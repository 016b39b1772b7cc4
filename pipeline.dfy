/** The body of `main`: the credential guard, the listing, the per-item
    scoring loop and the chart sizes. The sentiment library is a parameter
    `polarity` from text to score. */
module Pipeline {
  import opened Records
  import opened Sentiment
  import opened ItemText
  import opened Fetch

  /** What the loop prints about one item: its type tag, title and label. */
  datatype Row = Row(tag: string, title: string, sentiment: Label)

  /** The label the program gives an item: the classification of the
      polarity of its scored text. */
  function LabelOf(item: Item, polarity: string -> real): (l: Label)
    ensures l == Happy <==> polarity(ScoredText(item)) > 0.1
    ensures l == Sad <==> polarity(ScoredText(item)) < -0.1
    ensures l == Neutral <==> -0.1 <= polarity(ScoredText(item)) <= 0.1
  {
    Classify(polarity(ScoredText(item)))
  }

  /** The loop over the fetched items: one label and one printed row per
      item, in fetch order. */
  method ScoreItems(items: seq<Item>, polarity: string -> real) returns (sentiments: seq<Label>, rows: seq<Row>)
    ensures |sentiments| == |items| && |rows| == |items|
    ensures forall i | 0 <= i < |items| :: sentiments[i] == LabelOf(items[i], polarity)
    ensures forall i | 0 <= i < |items| :: rows[i] == Row(TagName(KindOf(items[i])), items[i].title, sentiments[i])
  {
    sentiments, rows := [], [];
    for i := 0 to |items|
      invariant |sentiments| == i && |rows| == i
      invariant forall j | 0 <= j < i :: sentiments[j] == LabelOf(items[j], polarity)
      invariant forall j | 0 <= j < i :: rows[j] == Row(TagName(KindOf(items[j])), items[j].title, sentiments[j])
    {
      var item := items[i];
      var itemType := KindOf(item);
      var text := ScoredText(item);
      var sentiment := Classify(polarity(text));
      sentiments := sentiments + [sentiment];
      rows := rows + [Row(TagName(itemType), item.title, sentiment)];
    }
  }

  /** The number of items labelled `l` is the number whose polarity falls in
      that label's band; the happy count, for one, is the number of items
      scored above 0.1. */
  lemma CountLabels(items: seq<Item>, polarity: string -> real, sentiments: seq<Label>, l: Label)
    requires |sentiments| == |items|
    requires forall i | 0 <= i < |items| :: sentiments[i] == LabelOf(items[i], polarity)
    ensures Count(sentiments, l) == |set i | 0 <= i < |items| && LabelOf(items[i], polarity) == l|
  {
    CountPositions(sentiments, l);
    assert (set i | 0 <= i < |items| && LabelOf(items[i], polarity) == l)
        == (set i | 0 <= i < |sentiments| && sentiments[i] == l);
  }

  /** An environment variable counts as set when it is defined and not
      empty, as Python's truthiness test has it. */
  function IsSet(variable: Option<string>): (set_: bool)
    ensures variable == None ==> !set_
    ensures variable == Some("") ==> !set_
    ensures variable.Some? && variable.value != "" ==> set_
  {
    variable.Some? && variable.value != ""
  }

  datatype Outcome =
    | MissingCredentials
    | Completed(rows: seq<Row>, sizes: seq<nat>, failure: Option<int>)

  /** `main`: abort when either credential is unset; otherwise list, score
      and count. `failure` is the status reported when the listing ended on
      an error. */
  method Run(token: Option<string>, geminiKey: Option<string>, responses: seq<Response>, polarity: string -> real)
    returns (outcome: Outcome)
    requires IsSet(token) && IsSet(geminiKey) ==> Terminates(responses)
    ensures outcome.MissingCredentials? <==> !IsSet(token) || !IsSet(geminiKey)
    ensures outcome.Completed? ==>
              var items := Fetched(responses);
              && |outcome.rows| == |items|
              && (forall i | 0 <= i < |items| ::
                    outcome.rows[i] == Row(TagName(KindOf(items[i])), items[i].title, LabelOf(items[i], polarity)))
              && |outcome.sizes| == 3
              && outcome.sizes[0] + outcome.sizes[1] + outcome.sizes[2] == |items|
              && (forall k | 0 <= k < 3 ::
                    outcome.sizes[k] == |set i | 0 <= i < |items| && LabelOf(items[i], polarity) == CHART_LABELS[k]|)
              && (var last := responses[FirstStop(responses)];
                  outcome.failure == if last.status != STATUS_OK then Some(last.status) else None)
  {
    if !IsSet(token) || !IsSet(geminiKey) {
      return MissingCredentials;
    }
    var issuesAndPrs, _, failure := FetchIssues(responses);
    var sentiments, rows := ScoreItems(issuesAndPrs, polarity);
    var sizes := ChartSizes(sentiments);
    forall k | 0 <= k < 3
      ensures sizes[k] == |set i | 0 <= i < |issuesAndPrs| && LabelOf(issuesAndPrs[i], polarity) == CHART_LABELS[k]|
    {
      CountLabels(issuesAndPrs, polarity, sentiments, CHART_LABELS[k]);
    }
    outcome := Completed(rows, sizes, failure);
  }
}

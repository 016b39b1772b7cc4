/** Bucketing of a polarity score into three labels, and the label counts
    shown in the pie chart. */
module Sentiment {

  datatype Label = Happy | Sad | Neutral

  /** Polarity strictly above this value is happy. */
  const HAPPY_THRESHOLD: real := 0.1
  /** Polarity strictly below this value is sad. */
  const SAD_THRESHOLD: real := -0.1

  /** The string the program returns for each label. */
  function Name(l: Label): (s: string)
    ensures l == Happy <==> s == "happy"
    ensures l == Sad <==> s == "sad"
    ensures l == Neutral <==> s == "neutral"
  {
    match l
    case Happy => "happy"
    case Sad => "sad"
    case Neutral => "neutral"
  }

  /** Distinct labels have distinct names. */
  lemma NameInjective(a: Label, b: Label)
    ensures Name(a) == Name(b) <==> a == b
  {
  }

  /** Exactly one label applies to each polarity; both boundaries are neutral. */
  function Classify(polarity: real): (l: Label)
    ensures l == Happy <==> polarity > 0.1
    ensures l == Sad <==> polarity < -0.1
    ensures l == Neutral <==> -0.1 <= polarity <= 0.1
  {
    if polarity > HAPPY_THRESHOLD then Happy
    else if polarity < SAD_THRESHOLD then Sad
    else Neutral
  }

  lemma ClassifyBoundaries()
    ensures Classify(0.1) == Neutral && Classify(-0.1) == Neutral
    ensures Classify(0.0) == Neutral
  {
  }

  /** Position of a label on the sad-to-happy scale. */
  function Rank(l: Label): nat
  {
    match l
    case Sad => 0
    case Neutral => 1
    case Happy => 2
  }

  /** A more positive polarity never gets a less positive label. */
  lemma ClassifyMonotone(p: real, q: real)
    requires p <= q
    ensures Rank(Classify(p)) <= Rank(Classify(q))
  {
  }

  /** Number of occurrences of `l` in `s`, as Python's `list.count`. */
  function Count<T(==)>(s: seq<T>, l: T): (n: nat)
    ensures n <= |s|
    ensures n == 0 <==> l !in s
  {
    if s == [] then 0
    else
      assert l in s <==> l in s[..|s| - 1] || s[|s| - 1] == l;
      Count(s[..|s| - 1], l) + (if s[|s| - 1] == l then 1 else 0)
  }

  lemma {:induction false} CountAppend<T>(s: seq<T>, t: seq<T>, l: T)
    ensures Count(s + t, l) == Count(s, l) + Count(t, l)
    decreases |t|
  {
    if t == [] {
      assert s + t == s;
    } else {
      var t' := t[..|t| - 1];
      assert (s + t)[..|s + t| - 1] == s + t';
      CountAppend(s, t', l);
    }
  }

  /** The count is the number of positions holding the label. */
  lemma {:induction false} CountPositions(s: seq<Label>, l: Label)
    ensures Count(s, l) == |set i | 0 <= i < |s| && s[i] == l|
    decreases |s|
  {
    if s != [] {
      var n := |s| - 1;
      var prefix := s[..n];
      CountPositions(prefix, l);
      var before := set i | 0 <= i < n && prefix[i] == l;
      var all := set i | 0 <= i < |s| && s[i] == l;
      assert n !in before;
      if s[n] == l {
        assert all == before + {n};
      } else {
        assert all == before;
      }
    }
  }

  /** The label strings, in order, as the program collects them. */
  function Names(s: seq<Label>): (names: seq<string>)
    ensures |names| == |s|
    ensures forall i | 0 <= i < |s| :: names[i] == Name(s[i])
  {
    seq(|s|, i requires 0 <= i < |s| => Name(s[i]))
  }

  /** Counting a label's string among the strings gives the label's count, so
      counting `'happy'` in the program's list counts the happy labels. */
  lemma {:induction false} CountNames(s: seq<Label>, l: Label)
    ensures Count(Names(s), Name(l)) == Count(s, l)
    decreases |s|
  {
    if s != [] {
      var n := |s| - 1;
      assert Names(s)[..n] == Names(s[..n]);
      CountNames(s[..n], l);
      NameInjective(s[n], l);
    }
  }

  /** Every element is counted under exactly one of the three labels. */
  lemma {:induction false} CountsSum(s: seq<Label>)
    ensures Count(s, Happy) + Count(s, Sad) + Count(s, Neutral) == |s|
    decreases |s|
  {
    if s != [] {
      var n := |s| - 1;
      CountsSum(s[..n]);
      assert Count(s, Happy) == Count(s[..n], Happy) + (if s[n] == Happy then 1 else 0);
      assert Count(s, Sad) == Count(s[..n], Sad) + (if s[n] == Sad then 1 else 0);
      assert Count(s, Neutral) == Count(s[..n], Neutral) + (if s[n] == Neutral then 1 else 0);
    }
  }

  /** The slice labels of the chart, in order. */
  const CHART_LABELS: seq<Label> := [Happy, Sad, Neutral]

  /** The slice sizes of the chart: slice `i` counts label `CHART_LABELS[i]`,
      and the slices together account for every label once. */
  function ChartSizes(sentiments: seq<Label>): (sizes: seq<nat>)
    ensures |sizes| == |CHART_LABELS| == 3
    ensures forall i | 0 <= i < 3 :: sizes[i] == Count(sentiments, CHART_LABELS[i])
    ensures sizes[0] + sizes[1] + sizes[2] == |sentiments|
  {
    CountsSum(sentiments);
    [Count(sentiments, Happy), Count(sentiments, Sad), Count(sentiments, Neutral)]
  }
}

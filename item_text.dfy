/** What the main loop derives from each listed item before scoring it:
    its type tag and the text handed to the sentiment scorer. */
module ItemText {
  import opened Records

  datatype Kind = PR | Issue

  /** The tag printed for each kind. */
  function TagName(k: Kind): (s: string)
    ensures s == "PR" <==> k == PR
    ensures s == "Issue" <==> k == Issue
  {
    match k
    case PR => "PR"
    case Issue => "Issue"
  }

  /** An item is a pull request exactly when its `pull_request` key is
      present, whatever the key holds (even `null`). */
  function KindOf(item: Item): (k: Kind)
    ensures k == PR <==> item.pullRequest.Null? || item.pullRequest.Present?
    ensures k == Issue <==> item.pullRequest.Absent?
  {
    if item.pullRequest.Absent? then Issue else PR
  }

  /** The tag depends on nothing but the presence of the key. */
  lemma KindIgnoresOtherFields(item: Item, title: string, body: Field<string>, links: PullRequestLinks)
    ensures KindOf(item) == KindOf(item.(title := title, body := body))
    ensures KindOf(item.(pullRequest := Null)) == KindOf(item.(pullRequest := Present(links))) == PR
  {
  }

  /** The body as the program scores it: the string when there is one, the
      empty string when the key is missing or holds `null`. */
  function BodyOrEmpty(body: Field<string>): (s: string)
    ensures body.Present? ==> s == body.value
    ensures !body.Present? ==> s == ""
  {
    match body
    case Present(b) => b
    case _ => ""
  }

  /** The scored text: the title, one space, then the defaulted body. The
      title and body can be read back from it, so no part is lost or added. */
  function ScoredText(item: Item): (t: string)
    ensures |t| == |item.title| + 1 + |BodyOrEmpty(item.body)|
    ensures t[..|item.title|] == item.title
    ensures t[|item.title|] == ' '
    ensures t[|item.title| + 1..] == BodyOrEmpty(item.body)
  {
    item.title + " " + BodyOrEmpty(item.body)
  }

  /** A missing body, a `null` body and an empty body give the same text:
      the title followed by a space. */
  lemma ScoredTextWithoutBody(item: Item)
    requires !item.body.Present? || item.body.value == ""
    ensures ScoredText(item) == item.title + " "
    ensures ScoredText(item.(body := Absent)) == ScoredText(item.(body := Null)) == ScoredText(item.(body := Present("")))
  {
  }
}

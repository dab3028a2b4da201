/** The event classifier of internal/app/contribution/service.go: a GitHub
    event type and three fields of its JSON payload (`action`,
    `pull_request.merged`, `issue.state_reason`) decide the app's
    contribution type, or "" when no rule applies. */
module Classifier {
  import opened AppErrors

  // GitHub event names
  const PullRequestEvent := "PullRequestEvent"
  const IssuesEvent := "IssuesEvent"
  const PushEvent := "PushEvent"
  const IssueCommentEvent := "IssueCommentEvent"

  // contribution types of the app
  const PullRequestMerged := "PullRequestMerged"
  const PullRequestOpened := "PullRequestOpened"
  const IssueOpened := "IssueOpened"
  const IssueClosed := "IssueClosed"
  const IssueResolved := "IssueResolved"
  const PullRequestUpdated := "PullRequestUpdated"
  const IssueComment := "IssueComment"
  const PullRequestComment := "PullRequestComment"

  /** A decoded JSON value; numbers and arrays are never looked into here. */
  datatype Json = JNull | JBool(b: bool) | JNumber | JString(s: string) | JArray | JObject(fields: map<string, Json>)

  /** The payload text of an event: not JSON at all, or some JSON value. */
  datatype Payload = Malformed | Parsed(json: Json)

  /** json.Unmarshal into a map[string]interface{}: `null` leaves the map
      nil (every lookup misses), any value other than an object is a type
      error. */
  function UnmarshalObject(p: Payload): (r: Result<map<string, Json>>)
    ensures p.Malformed? ==> r == Err(JsonSyntax)
    ensures p == Parsed(JNull) ==> r == Ok(map[])
    ensures r.Ok? ==> p == Parsed(JNull) || p == Parsed(JObject(r.value))
    ensures p.Parsed? && !p.json.JNull? && !p.json.JObject? ==> r == Err(JsonType)
  {
    match p
    case Malformed => Err(JsonSyntax)
    case Parsed(JNull) => Ok(map[])
    case Parsed(JObject(m)) => Ok(m)
    case Parsed(_) => Err(JsonType)
  }

  /** The three payload fields the decision reads. */
  datatype Fields = Fields(action: string, merged: bool, stateReason: string)

  /** The unchecked type assertions of the decoder do not panic: a present
      `action` is a string, a present `pull_request` is an object whose
      `merged` is a boolean, and a present `issue` is an object whose
      `state_reason` is a string. */
  predicate NoPanic(m: map<string, Json>)
  {
    ("action" in m ==> m["action"].JString?)
    && ("pull_request" in m ==>
          (m["pull_request"].JObject? && "merged" in m["pull_request"].fields && m["pull_request"].fields["merged"].JBool?))
    && ("issue" in m ==>
          (m["issue"].JObject? && "state_reason" in m["issue"].fields && m["issue"].fields["state_reason"].JString?))
  }

  /** The fields as the decoder reads them; absent objects leave `merged`
      false and `stateReason` empty. */
  function PayloadFields(m: map<string, Json>): (f: Fields)
    requires NoPanic(m)
    ensures "action" !in m ==> f.action == ""
    ensures "pull_request" !in m ==> !f.merged
    ensures "issue" !in m ==> f.stateReason == ""
  {
    Fields(
      if "action" in m then m["action"].s else "",
      if "pull_request" in m then m["pull_request"].fields["merged"].b else false,
      if "issue" in m then m["issue"].fields["state_reason"].s else "")
  }

  /** The decision table. */
  function ContributionTypeOf(eventType: string, f: Fields): (ty: string)
    ensures ty == PullRequestMerged <==> eventType == PullRequestEvent && f.action == "closed" && f.merged
    ensures ty == PullRequestOpened <==> eventType == PullRequestEvent && f.action == "opened"
    ensures ty == IssueOpened <==> eventType == IssuesEvent && f.action == "opened"
    ensures ty == IssueClosed <==> eventType == IssuesEvent && f.action == "closed" && f.stateReason == "not_planned"
    ensures ty == IssueResolved <==> eventType == IssuesEvent && f.action == "closed" && f.stateReason == "completed"
    ensures ty == PullRequestUpdated <==> eventType == PushEvent
    ensures ty == IssueComment <==> eventType == IssueCommentEvent
    ensures ty == PullRequestComment <==> eventType == PullRequestComment
    ensures ty in {"", PullRequestMerged, PullRequestOpened, IssueOpened, IssueClosed, IssueResolved,
                   PullRequestUpdated, IssueComment, PullRequestComment}
  {
    if eventType == PullRequestEvent then
      if f.action == "closed" && f.merged then PullRequestMerged
      else if f.action == "opened" then PullRequestOpened
      else ""
    else if eventType == IssuesEvent then
      if f.action == "opened" then IssueOpened
      else if f.action == "closed" && f.stateReason == "not_planned" then IssueClosed
      else if f.action == "closed" && f.stateReason == "completed" then IssueResolved
      else ""
    else if eventType == PushEvent then PullRequestUpdated
    else if eventType == IssueCommentEvent then IssueComment
    else if eventType == PullRequestComment then PullRequestComment
    else ""
  }

  /** The payloads GetContributionType handles without a run-time panic. */
  predicate DecodesWithoutPanic(p: Payload)
  {
    UnmarshalObject(p).Ok? ==> NoPanic(UnmarshalObject(p).value)
  }

  /** GetContributionType as written: a payload that is not a JSON object is
      the decoder's error; otherwise the decision table, "" included, with no
      error.  Its callers must not hand it a payload on which one of its type
      assertions panics. */
  function GetContributionType(eventType: string, payload: Payload): (r: Result<string>)
    requires DecodesWithoutPanic(payload)
    ensures r.Err? <==> UnmarshalObject(payload).Err?
    ensures r.Err? ==> r.error in {JsonSyntax, JsonType}
    ensures r.Ok? ==> r.value == ContributionTypeOf(eventType, PayloadFields(UnmarshalObject(payload).value))
  {
    match UnmarshalObject(payload)
    case Err(e) => Err(e)
    case Ok(m) => Ok(ContributionTypeOf(eventType, PayloadFields(m)))
  }

  /** The fields read with checked assertions: a value of the wrong type,
      `null` included, counts as absent. */
  function TolerantFields(m: map<string, Json>): (f: Fields)
    ensures NoPanic(m) ==> f == PayloadFields(m)
  {
    var pr := if "pull_request" in m && m["pull_request"].JObject? then m["pull_request"].fields else map[];
    var issue := if "issue" in m && m["issue"].JObject? then m["issue"].fields else map[];
    Fields(
      if "action" in m && m["action"].JString? then m["action"].s else "",
      if "merged" in pr && pr["merged"].JBool? then pr["merged"].b else false,
      if "state_reason" in issue && issue["state_reason"].JString? then issue["state_reason"].s else "")
  }

  /** The classifier as intended: defined on every payload, and equal to
      GetContributionType wherever that one does not panic. */
  function ClassifyEvent(eventType: string, payload: Payload): (r: Result<string>)
    ensures DecodesWithoutPanic(payload) ==> r == GetContributionType(eventType, payload)
    ensures r.Err? <==> UnmarshalObject(payload).Err?
    ensures r.Ok? ==> r.value == ContributionTypeOf(eventType, TolerantFields(UnmarshalObject(payload).value))
  {
    match UnmarshalObject(payload)
    case Err(e) => Err(e)
    case Ok(m) => Ok(ContributionTypeOf(eventType, TolerantFields(m)))
  }

  /** The payload of a comment on an open issue: GitHub sends
      `"state_reason": null` for an issue that was never closed. */
  function OpenIssueCommentPayload(): Payload
  {
    Parsed(JObject(map["action" := JString("created"), "issue" := JObject(map["state_reason" := JNull])]))
  }

  /** GetContributionType panics on a comment on an open issue, which the
      intended classifier scores as IssueComment. */
  lemma OpenIssueCommentPanics()
    ensures !DecodesWithoutPanic(OpenIssueCommentPayload())
    ensures ClassifyEvent(IssueCommentEvent, OpenIssueCommentPayload()) == Ok(IssueComment)
  {
    var m := map["action" := JString("created"), "issue" := JObject(map["state_reason" := JNull])];
    assert UnmarshalObject(OpenIssueCommentPayload()) == Ok(m);
    assert m["issue"].fields["state_reason"] == JNull;
  }

  /** A pull request closed without merging and an event type outside the
      table are both classified "", with no error. */
  lemma UnscoredEventsAreEmpty(payload: Payload, m: map<string, Json>)
    requires UnmarshalObject(payload) == Ok(m) && NoPanic(m)
    ensures PayloadFields(m).action == "closed" && !PayloadFields(m).merged ==>
            GetContributionType(PullRequestEvent, payload) == Ok("")
    ensures GetContributionType("PullRequestReviewEvent", payload) == Ok("")
  {
  }
}

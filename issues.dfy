/**
 * src/resolvers/issueResolvers.js: the requirement-issue join table seen from
 * an issue (its assigned requirements), written by assigning an issue's whole
 * list, and scanned in reverse to find a requirement's issues.
 */
module IssueResolvers {
  import opened Wrappers
  import opened Values
  import opened Config
  import opened ForgeStorage
  import opened Records
  import opened JoinTable

  /** `{ name, id }` of one requirement assigned to an issue. */
  datatype Assigned = Assigned(name: Option<Json>, id: string)

  /** `requirementDict` as the `forEach` leaves it: a later requirement with the same id wins. */
  function Dict(reqs: seq<Record>): (d: map<string, Record>)
    ensures forall k :: k in d ==> d[k].id == k
  {
    if reqs == [] then map[]
    else Dict(reqs[..|reqs| - 1])[reqs[|reqs| - 1].id := reqs[|reqs| - 1]]
  }

  /**
   * The dictionary holds exactly the ids of the requirements, each mapped to
   * the LAST requirement with that id.
   */
  lemma {:induction false} DictLastWins(reqs: seq<Record>, id: string)
    ensures id in Dict(reqs) <==> exists i :: 0 <= i < |reqs| && reqs[i].id == id
    ensures id in Dict(reqs) ==>
              exists i :: 0 <= i < |reqs| && Dict(reqs)[id] == reqs[i] && reqs[i].id == id
                          && forall j :: i < j < |reqs| ==> reqs[j].id != id
  {
    if reqs != [] {
      var n := |reqs| - 1;
      var front := reqs[..n];
      DictLastWins(front, id);
      if reqs[n].id != id {
        if id in Dict(front) {
          var i :| 0 <= i < |front| && Dict(front)[id] == front[i] && front[i].id == id
                   && forall j :: i < j < |front| ==> front[j].id != id;
          assert reqs[i] == front[i];
        }
        if exists i :: 0 <= i < |reqs| && reqs[i].id == id {
          var i :| 0 <= i < |reqs| && reqs[i].id == id;
          assert front[i] == reqs[i];
        }
      }
    }
  }

  /** With unique ids the dictionary agrees with `find`, which `getRequirement` uses. */
  lemma DictAgreesWithFind(reqs: seq<Record>, id: string)
    requires forall i, j :: 0 <= i < j < |reqs| ==> reqs[i].id != reqs[j].id
    requires FindFirst(reqs, id).Some?
    ensures id in Dict(reqs) && Dict(reqs)[id] == reqs[FindFirst(reqs, id).value]
  {
    DictLastWins(reqs, id);
    var i :| 0 <= i < |reqs| && Dict(reqs)[id] == reqs[i] && reqs[i].id == id
             && forall j :: i < j < |reqs| ==> reqs[j].id != id;
  }

  /** The `forEach` that fills `requirementDict`. */
  method RequirementDict(reqs: seq<Record>) returns (d: map<string, Record>)
    ensures d == Dict(reqs)
  {
    d := map[];
    var i := 0;
    while i < |reqs|
      invariant 0 <= i <= |reqs|
      invariant d == Dict(reqs[..i])
    {
      assert reqs[..i + 1][..i] == reqs[..i];
      d := d[reqs[i].id := reqs[i]];
      i := i + 1;
    }
    assert reqs[..i] == reqs;
  }

  /**
   * `requirementIds.map(id => ({ name: requirementDict[id].name, id }))`: an id
   * with no requirement reads `.name` of `undefined` and throws.
   */
  function AssignedList(ids: seq<string>, dict: map<string, Record>): (r: Result<seq<Assigned>, Thrown>)
    ensures r.Success? <==> forall k :: 0 <= k < |ids| ==> ids[k] in dict
    ensures r.Success? ==> |r.value| == |ids|
    ensures r.Success? ==> forall k :: 0 <= k < |ids| ==>
              r.value[k] == Assigned(Field(dict[ids[k]], "name"), ids[k])
  {
    if ids == [] then Success([])
    else if ids[0] !in dict then Failure(TypeError("Cannot read properties of undefined (reading 'name')"))
    else match AssignedList(ids[1..], dict)
      case Failure(e) => Failure(e)
      case Success(rest) =>
        assert forall k :: 1 <= k < |ids| ==> ids[k] == ids[1..][k - 1];
        Success([Assigned(Field(dict[ids[0]], "name"), ids[0])] + rest)
  }

  /** `storedData[issueId] || []`: the issue's requirement ids, `[]` when it has no entry. */
  function AssignedIds(t: seq<Link>, issueId: string): (ids: seq<string>)
    ensures (forall j :: 0 <= j < |t| ==> t[j].issueId != issueId) ==> ids == []
    ensures (exists j :: 0 <= j < |t| && t[j].issueId == issueId) ==> Link(issueId, ids) in t
  {
    match JoinTable.Lookup(t, issueId)
    case None => []
    case Some(ids) => ids
  }

  /**
   * `getAssignedRequirements({issueId})`: one `{name, id}` per id in the
   * issue's entry, in order, or `[]` when the issue has none.
   */
  method GetAssignedRequirements(store: Storage, issueId: string) returns (r: Result<seq<Assigned>, Thrown>)
    ensures ReadLinks(store.Get(JoinKey)).Success? && ReadList(store.Get(RequirementsKey)).Success? ==>
              var t := ReadLinks(store.Get(JoinKey)).value;
              r == AssignedList(AssignedIds(t, issueId), Dict(ReadList(store.Get(RequirementsKey)).value))
    ensures ReadLinks(store.Get(JoinKey)).Failure? || ReadList(store.Get(RequirementsKey)).Failure? ==> r.Failure?
  {
    var storedData :- ReadLinks(store.Get(JoinKey));
    var requirementIds := AssignedIds(storedData, issueId);
    var userRequirements :- ReadList(store.Get(RequirementsKey));
    var requirementDict := RequirementDict(userRequirements);
    r := AssignedList(requirementIds, requirementDict);
  }

  const InvalidPayload := "Invalid payload: issueId and requirements must be provided."

  /** The reply of `assignRequirements`. */
  datatype AssignReply = AssignReply(message: string, issueId: string, requirements: seq<string>)

  /**
   * `assignRequirements({issueId, requirements})`: `None` stands for an
   * undefined `issueId` and for a `requirements` that is not an array. The
   * issue's entry is replaced, not merged.
   */
  method AssignRequirements(store: Storage, issueId: Option<string>, requirements: Option<seq<string>>)
    returns (r: Result<AssignReply, Thrown>)
    modifies store
    ensures (issueId.None? || issueId == Some("") || requirements.None?) ==>
              r == Failure(Error(InvalidPayload)) && store.data == old(store.data)
    ensures issueId.Some? && issueId.value != "" && requirements.Some? ==>
              var stored := ReadLinks(old(store.Get(JoinKey)));
              && (stored.Failure? ==> r.Failure? && store.data == old(store.data))
              && (stored.Success? ==>
                    && r == Success(AssignReply("Requirements successfully assigned to issue " + issueId.value + ".",
                                                issueId.value, requirements.value))
                    && store.data == old(store.data)[JoinKey := Links(Assign(stored.value, issueId.value,
                                                                             requirements.value))])
  {
    if issueId.None? || issueId.value == "" || requirements.None? {
      return Failure(Error(InvalidPayload));
    }
    var storedData :- ReadLinks(store.Get(JoinKey));
    storedData := Assign(storedData, issueId.value, requirements.value);
    store.Set(JoinKey, Links(storedData));
    r := Success(AssignReply("Requirements successfully assigned to issue " + issueId.value + ".",
                             issueId.value, requirements.value));
  }

  /**
   * After an assignment, the issue's assigned requirements are the ids just
   * given, in order; every other issue's are as before.
   */
  lemma AssignThenRead(t: seq<Link>, issueId: string, requirements: seq<string>, other: string)
    requires UniqueKeys(t)
    ensures AssignedIds(Assign(t, issueId, requirements), issueId) == requirements
    ensures other != issueId ==> AssignedIds(Assign(t, issueId, requirements), other) == AssignedIds(t, other)
  {
    AssignLookup(t, issueId, requirements, other);
  }

  /** A Jira user as the issue's `assignee` field carries it. */
  datatype Assignee = Assignee(accountId: string, displayName: Option<Json>, avatarUrls: map<string, string>)

  /** The fields of a bulk-fetched issue that the projection reads. */
  datatype JiraIssue = JiraIssue(key: string, summary: Option<Json>, status: string, priority: string,
                                 assignee: Option<Assignee>)

  datatype AssigneeView = AssigneeView(accountId: string, displayName: Option<Json>, avatarUrl: Option<string>)

  /** One issue as `getRequirementIssues` returns it. */
  datatype IssueView = IssueView(key: string, summary: Option<Json>, status: string, priority: string,
                                 assignee: Option<AssigneeView>, isDone: bool)

  const DoneStatuses: seq<string> := ["Done", "Closed", "Resolved"]

  /** The projection of one issue: an absent assignee becomes `null`. */
  function Project(issue: JiraIssue): (v: IssueView)
    ensures v.isDone <==> issue.status == "Done" || issue.status == "Closed" || issue.status == "Resolved"
    ensures v.assignee.None? <==> issue.assignee.None?
    ensures issue.assignee.Some? ==>
              && v.assignee.value.accountId == issue.assignee.value.accountId
              && v.assignee.value.displayName == issue.assignee.value.displayName
              && (v.assignee.value.avatarUrl.Some? <==> "48x48" in issue.assignee.value.avatarUrls)
              && ("48x48" in issue.assignee.value.avatarUrls ==>
                    v.assignee.value.avatarUrl == Some(issue.assignee.value.avatarUrls["48x48"]))
    ensures v.key == issue.key && v.summary == issue.summary
    ensures v.status == issue.status && v.priority == issue.priority
  {
    var assignee :=
      match issue.assignee
      case None => None
      case Some(a) =>
        Some(AssigneeView(a.accountId, a.displayName,
                          if "48x48" in a.avatarUrls then Some(a.avatarUrls["48x48"]) else None));
    IssueView(issue.key, issue.summary, issue.status, issue.priority, assignee, issue.status in DoneStatuses)
  }

  function ProjectAll(issues: seq<JiraIssue>): (vs: seq<IssueView>)
    ensures |vs| == |issues|
    ensures forall k :: 0 <= k < |issues| ==> vs[k] == Project(issues[k])
  {
    seq(|issues|, k requires 0 <= k < |issues| => Project(issues[k]))
  }

  /** What the bulk fetch in `getRequirementIssues` comes back with. */
  datatype IssueFetch =
    | Issues(issues: seq<JiraIssue>)  // an ok response whose body has an `issues` array
    | NoIssues                        // an ok response whose body has no `issues`
    | NotOk                           // a non-ok HTTP status
    | Rejected(message: string)       // the request or `response.json()` threw

  /** `data.issues.map` on a body without `issues`. */
  const NoIssuesMessage := "Cannot read properties of undefined (reading 'map')"

  /**
   * `getRequirementIssues({requirementId})`, given the bulk fetch's answer for
   * a list of issue ids: `[]` when no issue is linked, whatever the fetch would
   * answer; else the projected issues, or the error the `catch` rethrows.
   */
  method GetRequirementIssues(store: Storage, requirementId: string, bulkFetch: seq<string> -> IssueFetch)
    returns (r: Result<seq<IssueView>, Thrown>)
    ensures ReadLinks(store.Get(JoinKey)).Failure? ==> r.Failure?
    ensures ReadLinks(store.Get(JoinKey)).Success? ==>
              var linked := IssuesOf(ReadLinks(store.Get(JoinKey)).value, requirementId);
              if linked == [] then r == Success([])
              else match bulkFetch(linked)
                case NotOk => r == Failure(Error("Failed to fetch issues"))
                case Rejected(m) => r == Failure(Error(m))
                case NoIssues => r == Failure(TypeError(NoIssuesMessage))
                case Issues(issues) => r == Success(ProjectAll(issues))
  {
    var requirementIssueMap :- ReadLinks(store.Get(JoinKey));
    var linkedIssues := ScanLinks(requirementIssueMap, requirementId);
    if |linkedIssues| == 0 {
      return Success([]);
    }
    var response := bulkFetch(linkedIssues);
    match response
    case NotOk => r := Failure(Error("Failed to fetch issues"));
    case Rejected(m) => r := Failure(Error(m));
    case NoIssues => r := Failure(TypeError(NoIssuesMessage));
    case Issues(issues) => r := Success(ProjectAll(issues));
  }
}

/**
 * src/resolvers/requirementResolvers.js: the requirements collection under
 * 'user-requirements' and the dashboard that lists, for each requirement,
 * the issues linked to it in the join table.
 */
module RequirementResolvers {
  import opened Wrappers
  import opened Values
  import opened Config
  import opened Ids
  import opened ForgeStorage
  import opened Records
  import opened JoinTable

  /** `getRequirements()`: the stored array, or `[]` when the key is absent. */
  method GetRequirements(store: Storage) returns (r: Value)
    ensures RequirementsKey in store.data ==> r == store.data[RequirementsKey]
    ensures RequirementsKey !in store.data ==> r == List([])
  {
    var storedData := store.Get(RequirementsKey);
    r := OrEmpty(storedData);
  }

  /** The properties of a new requirement: both check lists start empty. */
  function NewRequirement(id: string, name: Option<Json>, description: Option<Json>, typeId: Option<Json>): (r: Record)
    ensures r.id == id
    ensures Field(r, "validationChecks") == Some(Arr([])) && Field(r, "verificationChecks") == Some(Arr([]))
    ensures Field(r, "name") == name && Field(r, "description") == description
    ensures Field(r, "typeId") == typeId
  {
    var props := map["name" := name, "description" := description,
                      "validationChecks" := Some(Arr([])), "verificationChecks" := Some(Arr([])),
                      "typeId" := typeId];
    assert props["name"] == name && props["description"] == description && props["typeId"] == typeId;
    assert props["validationChecks"] == Some(Arr([])) && props["verificationChecks"] == Some(Arr([]));
    NewRecord(id, props)
  }

  /** `addRequirement({name, description, typeId})` at clock `now`: appends a new requirement. */
  method AddRequirement(store: Storage, name: Option<Json>, description: Option<Json>, typeId: Option<Json>, now: int)
    returns (r: Result<Record, Thrown>)
    modifies store
    ensures ReadList(old(store.Get(RequirementsKey))).Failure? ==> r.Failure? && store.data == old(store.data)
    ensures ReadList(old(store.Get(RequirementsKey))).Success? ==>
              var xs := ReadList(old(store.Get(RequirementsKey))).value;
              && r == Success(NewRequirement(GenerateUniqueId("requirement", now), name, description, typeId))
              && store.data == old(store.data)[RequirementsKey := List(xs + [r.value])]
  {
    var storedData :- ReadList(store.Get(RequirementsKey));
    var newRequirement := NewRequirement(GenerateUniqueId("requirement", now), name, description, typeId);
    var updatedData := storedData + [newRequirement];
    store.Set(RequirementsKey, List(updatedData));
    r := Success(newRequirement);
  }

  /**
   * A requirement appended under an id no stored requirement has is the one
   * `getRequirement` then finds.
   */
  lemma AddedRequirementFound(xs: seq<Record>, x: Record)
    requires FindFirst(xs, x.id).None?
    ensures FindFirst(xs + [x], x.id) == Some(|xs|)
  {
    var ys := xs + [x];
    assert ys[|xs|].id == x.id;
  }

  function NotFoundMessage(id: string): string {
    "Requirement " + id + " not found."
  }

  function DeletedMessage(id: string): string {
    "Requirement " + id + " deleted successfully."
  }

  /**
   * `deleteRequirement({id})`: reports an absent id without writing; otherwise
   * drops every requirement with the id. The join table keeps its links.
   */
  method DeleteRequirement(store: Storage, id: string) returns (r: Result<string, Thrown>)
    modifies store
    ensures ReadList(old(store.Get(RequirementsKey))).Failure? ==> r.Failure? && store.data == old(store.data)
    ensures ReadList(old(store.Get(RequirementsKey))).Success? ==>
              var xs := ReadList(old(store.Get(RequirementsKey))).value;
              if FindFirst(xs, id).None? then
                r == Success(NotFoundMessage(id)) && store.data == old(store.data)
              else
                r == Success(DeletedMessage(id))
                && store.data == old(store.data)[RequirementsKey := List(Without(xs, id))]
  {
    var storedData :- ReadList(store.Get(RequirementsKey));
    var foundItem := FindFirst(storedData, id);
    if foundItem.None? {
      return Success(NotFoundMessage(id));
    }
    var updatedData := Without(storedData, id);
    store.Set(RequirementsKey, List(updatedData));
    r := Success(DeletedMessage(id));
  }

  /** `getRequirement({id})`: the first requirement with the id, or the error "Requirement <id> not found.". */
  method GetRequirement(store: Storage, id: string) returns (r: Result<Record, Thrown>)
    ensures ReadList(store.Get(RequirementsKey)).Failure? ==> r.Failure?
    ensures ReadList(store.Get(RequirementsKey)).Success? ==>
              var xs := ReadList(store.Get(RequirementsKey)).value;
              && (r.Success? <==> exists j :: 0 <= j < |xs| && xs[j].id == id)
              && (r == Failure(Error(NotFoundMessage(id))) <==> forall j :: 0 <= j < |xs| ==> xs[j].id != id)
              && (r.Success? ==> r.value in xs && r.value.id == id
                                 && exists i :: 0 <= i < |xs| && xs[i] == r.value
                                                && forall j :: 0 <= j < i ==> xs[j].id != id)
  {
    var storedData :- ReadList(store.Get(RequirementsKey));
    var index := FindFirst(storedData, id);
    if index.None? {
      return Failure(Error(NotFoundMessage(id)));
    }
    r := Success(storedData[index.value]);
  }

  /** `given || previous || []`: the first truthy of the two, else an empty array. */
  function ChecksOr(given: Option<Json>, previous: Option<Json>): (c: Json)
    ensures given.Some? && Truthy(given.value) ==> c == given.value
    ensures !(given.Some? && Truthy(given.value)) && previous.Some? && Truthy(previous.value) ==> c == previous.value
    ensures !(given.Some? && Truthy(given.value)) && !(previous.Some? && Truthy(previous.value)) ==> c == Arr([])
    ensures Truthy(c)
  {
    if given.Some? && Truthy(given.value) then given.value
    else if previous.Some? && Truthy(previous.value) then previous.value
    else Arr([])
  }

  /** What `updateRequirement` spreads over the stored requirement. */
  function RequirementPatch(previous: Record, name: Option<Json>, description: Option<Json>,
                            validationChecks: Option<Json>, verificationChecks: Option<Json>,
                            typeId: Option<Json>): (patch: map<string, Option<Json>>)
    ensures patch.Keys == {"name", "description", "validationChecks", "verificationChecks", "typeId"}
    ensures patch["validationChecks"].Some? && Truthy(patch["validationChecks"].value)
    ensures patch["verificationChecks"].Some? && Truthy(patch["verificationChecks"].value)
    ensures patch["name"] == name && patch["description"] == description && patch["typeId"] == typeId
  {
    map["name" := name, "description" := description,
        "validationChecks" := Some(ChecksOr(validationChecks, Field(previous, "validationChecks"))),
        "verificationChecks" := Some(ChecksOr(verificationChecks, Field(previous, "verificationChecks"))),
        "typeId" := typeId]
  }

  /**
   * `updateRequirement({id, ...})`: only the first requirement with the id is
   * rewritten; an absent id throws "Requirement <id> not found." and writes nothing.
   */
  method UpdateRequirement(store: Storage, id: string, name: Option<Json>, description: Option<Json>,
                           validationChecks: Option<Json>, verificationChecks: Option<Json>, typeId: Option<Json>)
    returns (r: Result<Record, Thrown>)
    modifies store
    ensures ReadList(old(store.Get(RequirementsKey))).Failure? ==> r.Failure? && store.data == old(store.data)
    ensures ReadList(old(store.Get(RequirementsKey))).Success? ==>
              var xs := ReadList(old(store.Get(RequirementsKey))).value;
              if FindFirst(xs, id).None? then
                r == Failure(Error(NotFoundMessage(id))) && store.data == old(store.data)
              else
                var i := FindFirst(xs, id).value;
                && r == Success(Patched(xs[i], RequirementPatch(xs[i], name, description,
                                                               validationChecks, verificationChecks, typeId)))
                && store.data == old(store.data)[RequirementsKey := List(xs[i := r.value])]
  {
    var storedData :- ReadList(store.Get(RequirementsKey));
    var index := FindFirst(storedData, id);
    if index.None? {
      return Failure(Error(NotFoundMessage(id)));
    }
    var i := index.value;
    var updated := Patched(storedData[i], RequirementPatch(storedData[i], name, description,
                                                           validationChecks, verificationChecks, typeId));
    storedData := storedData[i := updated];
    store.Set(RequirementsKey, List(storedData));
    r := Success(updated);
  }

  /**
   * An update never leaves a requirement without check lists: each list is the
   * one given when truthy (an explicit `[]` clears it), else the stored array,
   * else `[]`. Name, description and type are the ones given.
   */
  lemma UpdateKeepsChecks(previous: Record, name: Option<Json>, description: Option<Json>,
                          validationChecks: Option<Json>, verificationChecks: Option<Json>, typeId: Option<Json>)
    ensures var u := Patched(previous, RequirementPatch(previous, name, description,
                                                        validationChecks, verificationChecks, typeId));
      && u.id == previous.id
      && Field(u, "validationChecks").Some? && Truthy(Field(u, "validationChecks").value)
      && Field(u, "verificationChecks").Some? && Truthy(Field(u, "verificationChecks").value)
      && (validationChecks == Some(Arr([])) ==> Field(u, "validationChecks") == Some(Arr([])))
      && (verificationChecks == Some(Arr([])) ==> Field(u, "verificationChecks") == Some(Arr([])))
      && (validationChecks.None? && Field(previous, "validationChecks").Some?
          && Field(previous, "validationChecks").value.Arr? ==>
            Field(u, "validationChecks") == Field(previous, "validationChecks"))
      && (verificationChecks.None? && Field(previous, "verificationChecks").Some?
          && Field(previous, "verificationChecks").value.Arr? ==>
            Field(u, "verificationChecks") == Field(previous, "verificationChecks"))
      && Field(u, "name") == name && Field(u, "description") == description && Field(u, "typeId") == typeId
  {
    var patch := RequirementPatch(previous, name, description, validationChecks, verificationChecks, typeId);
    assert patch["name"] == name && patch["description"] == description && patch["typeId"] == typeId;
    assert patch["validationChecks"] == Some(ChecksOr(validationChecks, Field(previous, "validationChecks")));
    assert patch["verificationChecks"] == Some(ChecksOr(verificationChecks, Field(previous, "verificationChecks")));
  }

  /** What the bulk issue fetch of the dashboard answers. */
  datatype BulkFetch =
    | Fetched           // `response.ok`; the summaries it returns are never used
    | NotOk             // a non-ok HTTP status
    | Rejected(message: string)  // the request itself threw

  /** One issue under a requirement on the dashboard. */
  datatype Child = Child(id: string, name: string, description: string)

  datatype DashboardRow = DashboardRow(id: string, name: Option<Json>, description: Option<Json>, children: seq<Child>)

  /** `{ data }` on success, `{ error: message }` when the fetch failed. */
  datatype Dashboard = Data(rows: seq<DashboardRow>) | ErrorReply(message: string)

  /**
   * The non-ok branch throws an Error whose message names `issueId`, a name
   * not in scope there: evaluating it throws a ReferenceError instead, and
   * that is the message the dashboard returns.
   */
  const UndefinedIssueId := "issueId is not defined"

  /** `Object.keys(requirementIssueMappings)`: the issue ids of the table, in order. */
  function IssueKeys(t: seq<Link>): (keys: seq<string>)
    ensures |keys| == |t|
    ensures forall i :: 0 <= i < |t| ==> keys[i] == t[i].issueId
  {
    seq(|t|, i requires 0 <= i < |t| => t[i].issueId)
  }

  function ChildOf(requirementId: string, issueId: string): Child {
    Child(requirementId + "-" + issueId, "Issue " + issueId, "description")
  }

  /** The children of one requirement, one per linked issue, in the order given. */
  function Children(requirementId: string, issueIds: seq<string>): (cs: seq<Child>)
    ensures |cs| == |issueIds|
    ensures forall j :: 0 <= j < |issueIds| ==> cs[j] == ChildOf(requirementId, issueIds[j])
  {
    seq(|issueIds|, j requires 0 <= j < |issueIds| => ChildOf(requirementId, issueIds[j]))
  }

  /** One dashboard row: the requirement's id, name and description and its linked issues. */
  function Row(r: Record, t: seq<Link>): (row: DashboardRow)
    ensures row.id == r.id && row.name == Field(r, "name") && row.description == Field(r, "description")
    ensures |row.children| == |IssuesOf(t, r.id)|
    ensures forall j :: 0 <= j < |row.children| ==>
              row.children[j].id == r.id + "-" + IssuesOf(t, r.id)[j]
  {
    DashboardRow(r.id, Field(r, "name"), Field(r, "description"), Children(r.id, IssuesOf(t, r.id)))
  }

  /**
   * `getDashboardData()`, given the answer of the bulk fetch for the table's
   * issue ids: one row per requirement, in order, or the fetch's error.
   */
  method GetDashboardData(store: Storage, bulkFetch: seq<string> -> BulkFetch) returns (r: Result<Dashboard, Thrown>)
    ensures ReadLinks(store.Get(JoinKey)).Failure? ==> r.Failure?
    ensures ReadLinks(store.Get(JoinKey)).Success? ==>
              var t := ReadLinks(store.Get(JoinKey)).value;
              match bulkFetch(IssueKeys(t))
              case NotOk => r == Success(ErrorReply(UndefinedIssueId))
              case Rejected(m) => r == Success(ErrorReply(m))
              case Fetched =>
                && (AsList(OrEmpty(store.Get(RequirementsKey))).Failure? ==> r.Failure?)
                && (AsList(OrEmpty(store.Get(RequirementsKey))).Success? ==>
                      var reqs := AsList(OrEmpty(store.Get(RequirementsKey))).value;
                      && r.Success? && r.value.Data?
                      && |r.value.rows| == |reqs|
                      && forall k :: 0 <= k < |reqs| ==> r.value.rows[k] == Row(reqs[k], t))
  {
    var requirements := OrEmpty(store.Get(RequirementsKey));
    var mappings :- ReadLinks(store.Get(JoinKey));
    var response := bulkFetch(IssueKeys(mappings));
    if response.NotOk? {
      return Success(ErrorReply(UndefinedIssueId));
    } else if response.Rejected? {
      return Success(ErrorReply(response.message));
    }
    var reqs :- AsList(requirements);
    var rows: seq<DashboardRow> := [];
    var k := 0;
    while k < |reqs|
      invariant 0 <= k <= |reqs|
      invariant |rows| == k
      invariant forall j :: 0 <= j < k ==> rows[j] == Row(reqs[j], mappings)
    {
      var issueIds := ScanLinks(mappings, reqs[k].id);
      rows := rows + [DashboardRow(reqs[k].id, Field(reqs[k], "name"), Field(reqs[k], "description"),
                                   Children(reqs[k].id, issueIds))];
      k := k + 1;
    }
    r := Success(Data(rows));
  }

  /**
   * A row lists an issue exactly when the table links that issue to the
   * requirement, with id `<requirement>-<issue>` and name `Issue <issue>`.
   */
  lemma RowChildren(r: Record, t: seq<Link>, issueId: string)
    ensures ChildOf(r.id, issueId) in Row(r, t).children <==>
              exists i :: 0 <= i < |t| && t[i].issueId == issueId && r.id in t[i].requirementIds
  {
    var ids := IssuesOf(t, r.id);
    var cs := Row(r, t).children;
    IssuesOfMembers(t, r.id, issueId);
    if ChildOf(r.id, issueId) in cs {
      var j :| 0 <= j < |cs| && cs[j] == ChildOf(r.id, issueId);
      assert ("Issue " + ids[j])[6..] == ids[j];
      assert ("Issue " + issueId)[6..] == issueId;
      assert ids[j] == issueId;
    }
    if issueId in ids {
      var j :| 0 <= j < |ids| && ids[j] == issueId;
      assert cs[j] == ChildOf(r.id, issueId);
    }
  }

  /**
   * On a table in enumeration order, a row's children have distinct ids,
   * array-index issue ids first in ascending order.
   */
  lemma RowChildrenDistinct(r: Record, t: seq<Link>)
    requires PropertyOrder(t)
    ensures var cs := Row(r, t).children;
      forall i, j :: 0 <= i < j < |cs| ==> cs[i].id != cs[j].id
  {
    var ids := IssuesOf(t, r.id);
    var cs := Row(r, t).children;
    IssuesOfOrdered(t, r.id);
    forall i, j | 0 <= i < j < |cs| ensures cs[i].id != cs[j].id {
      var p := r.id + "-";
      assert cs[i].id == p + ids[i] && cs[j].id == p + ids[j];
      assert (p + ids[i])[|p|..] == ids[i];
      assert (p + ids[j])[|p|..] == ids[j];
    }
  }
}

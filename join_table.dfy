/**
 * The requirement-issue join table stored under 'requirement-issue-join':
 * a JavaScript object from issue id to an array of requirement ids.
 *
 * It is kept as a list of entries in the order `Object.entries` enumerates
 * them: keys that are array indices ("10001") first, in ascending numeric
 * order, then the other keys in the order they were added. JSON
 * serialisation writes and reads the entries in that same order.
 */
module JoinTable {
  import opened Wrappers
  import opened Values
  import opened Decimal

  /** A canonical array index in [0, 2^32 - 2], which objects enumerate first. */
  predicate IsArrayIndex(k: string) {
    k != "" && AllDigits(k) && (k[0] != '0' || k == "0") && ValueOf(k) < 4294967295
  }

  /** One past the largest array index. */
  const IndexLimit: nat := 4294967295

  /**
   * Where a key falls in an object's own-key order: array indices by their
   * numeric value, every other key after all of them.
   */
  function Rank(k: string): (r: nat)
    ensures r <= IndexLimit
    ensures r < IndexLimit <==> IsArrayIndex(k)
    ensures IsArrayIndex(k) ==> r == ValueOf(k)
  {
    if IsArrayIndex(k) then ValueOf(k) else IndexLimit
  }

  predicate UniqueKeys(t: seq<Link>) {
    forall i, j :: 0 <= i < j < |t| ==> t[i].issueId != t[j].issueId
  }

  /** The table is an object's own-key enumeration. */
  predicate PropertyOrder(t: seq<Link>) {
    && UniqueKeys(t)
    && forall i, j :: 0 <= i < j < |t| ==> Rank(t[i].issueId) <= Rank(t[j].issueId)
  }

  /** The position of an issue's entry. */
  function Find(t: seq<Link>, issueId: string): (r: Option<nat>)
    ensures r.Some? ==> r.value < |t| && t[r.value].issueId == issueId
    ensures r.Some? ==> forall j :: 0 <= j < r.value ==> t[j].issueId != issueId
    ensures r.None? <==> forall j :: 0 <= j < |t| ==> t[j].issueId != issueId
  {
    if t == [] then None
    else if t[0].issueId == issueId then Some(0)
    else match Find(t[1..], issueId)
      case None => None
      case Some(i) => Some(i + 1)
  }

  /** `table[issueId]`, `None` for `undefined`. */
  function Lookup(t: seq<Link>, issueId: string): (r: Option<seq<string>>)
    ensures r.None? <==> forall j :: 0 <= j < |t| ==> t[j].issueId != issueId
    ensures r.Some? ==> Link(issueId, r.value) in t
  {
    match Find(t, issueId)
    case None => None
    case Some(i) => Some(t[i].requirementIds)
  }

  /** With unique keys, an entry is found exactly when it is in the table. */
  lemma LookupIn(t: seq<Link>, issueId: string, ids: seq<string>)
    requires UniqueKeys(t)
    ensures Lookup(t, issueId) == Some(ids) <==> Link(issueId, ids) in t
  {
    if Link(issueId, ids) in t {
      var i :| 0 <= i < |t| && t[i] == Link(issueId, ids);
      var k := Find(t, issueId).value;
      assert !(k < i) && !(i < k);
    }
  }

  /** Where a new key is inserted: after every key that does not rank above it. */
  function InsertPos(t: seq<Link>, issueId: string): (p: nat)
    ensures p <= |t|
    ensures forall j :: 0 <= j < p ==> Rank(t[j].issueId) <= Rank(issueId)
    ensures p < |t| ==> Rank(issueId) < Rank(t[p].issueId)
  {
    if t == [] || Rank(issueId) < Rank(t[0].issueId) then 0
    else 1 + InsertPos(t[1..], issueId)
  }

  /** A key that is not an array index goes to the end. */
  lemma InsertPosNonIndex(t: seq<Link>, issueId: string)
    requires !IsArrayIndex(issueId)
    ensures InsertPos(t, issueId) == |t|
  {
  }

  /** `table[issueId] = requirementIds`: overwrite in place, or add a new key in its place. */
  function Assign(t: seq<Link>, issueId: string, requirementIds: seq<string>): (r: seq<Link>)
    ensures Link(issueId, requirementIds) in r
    ensures (exists j :: 0 <= j < |t| && t[j].issueId == issueId) ==> |r| == |t|
    ensures (forall j :: 0 <= j < |t| ==> t[j].issueId != issueId) ==> |r| == |t| + 1
  {
    match Find(t, issueId)
    case Some(i) =>
      var r := t[i := Link(issueId, requirementIds)];
      assert r[i] == Link(issueId, requirementIds);
      r
    case None =>
      var p := InsertPos(t, issueId);
      var r := t[..p] + [Link(issueId, requirementIds)] + t[p..];
      assert r[p] == Link(issueId, requirementIds);
      r
  }

  /** Inserting a new key at its rank keeps the enumeration order. */
  lemma InsertKeepsOrder(t: seq<Link>, l: Link, p: nat)
    requires PropertyOrder(t) && p <= |t|
    requires forall j :: 0 <= j < |t| ==> t[j].issueId != l.issueId
    requires forall j :: 0 <= j < p ==> Rank(t[j].issueId) <= Rank(l.issueId)
    requires p < |t| ==> Rank(l.issueId) < Rank(t[p].issueId)
    ensures PropertyOrder(t[..p] + [l] + t[p..])
  {
    var r := t[..p] + [l] + t[p..];
    forall i, j | 0 <= i < j < |r|
      ensures r[i].issueId != r[j].issueId && Rank(r[i].issueId) <= Rank(r[j].issueId)
    {
      if j < p {
        assert r[i] == t[i] && r[j] == t[j];
      } else if j == p {
        assert r[i] == t[i] && r[j] == l;
      } else if i < p {
        assert r[i] == t[i] && r[j] == t[j - 1];
      } else if i == p {
        assert r[i] == l && r[j] == t[j - 1];
        assert Rank(t[p].issueId) <= Rank(t[j - 1].issueId);
      } else {
        assert r[i] == t[i - 1] && r[j] == t[j - 1];
      }
    }
  }

  /** An assignment keeps the table in enumeration order. */
  lemma AssignKeepsOrder(t: seq<Link>, issueId: string, requirementIds: seq<string>)
    requires PropertyOrder(t)
    ensures PropertyOrder(Assign(t, issueId, requirementIds))
  {
    var l := Link(issueId, requirementIds);
    match Find(t, issueId)
    case Some(k) =>
      var r := t[k := l];
      assert forall i :: 0 <= i < |r| ==> r[i].issueId == t[i].issueId;
    case None =>
      InsertKeepsOrder(t, l, InsertPos(t, issueId));
  }

  /** After an assignment the table holds the new entry and every entry of other issues. */
  lemma AssignMembers(t: seq<Link>, issueId: string, requirementIds: seq<string>)
    requires UniqueKeys(t)
    ensures forall x :: x in Assign(t, issueId, requirementIds) <==>
              x == Link(issueId, requirementIds) || (x in t && x.issueId != issueId)
  {
    var r := Assign(t, issueId, requirementIds);
    var l := Link(issueId, requirementIds);
    match Find(t, issueId)
    case None =>
      var p := InsertPos(t, issueId);
      assert t == t[..p] + t[p..];
    case Some(k) =>
      assert r == t[k := l] && r[k] == l;
      forall x | x in r && x != l ensures x in t && x.issueId != issueId {
        var j :| 0 <= j < |r| && r[j] == x;
        assert j != k && t[j] == x;
      }
      forall x | x in t && x.issueId != issueId ensures x in r {
        var j :| 0 <= j < |t| && t[j] == x;
        assert r[j] == x;
      }
  }

  /** An assignment keeps each issue's key unique. */
  lemma AssignUnique(t: seq<Link>, issueId: string, requirementIds: seq<string>)
    requires UniqueKeys(t)
    ensures UniqueKeys(Assign(t, issueId, requirementIds))
  {
    var r := Assign(t, issueId, requirementIds);
    var l := Link(issueId, requirementIds);
    match Find(t, issueId)
    case Some(k) =>
      assert forall a :: 0 <= a < |r| ==> r[a].issueId == t[a].issueId;
    case None =>
      var p := InsertPos(t, issueId);
      assert r == t[..p] + [l] + t[p..];
      forall i, j | 0 <= i < j < |r| ensures r[i].issueId != r[j].issueId {
        if j < p {
          assert r[i] == t[i] && r[j] == t[j];
        } else if j == p {
          assert r[i] == t[i];
        } else if i < p {
          assert r[i] == t[i] && r[j] == t[j - 1];
        } else if i == p {
          assert r[j] == t[j - 1];
        } else {
          assert r[i] == t[i - 1] && r[j] == t[j - 1];
        }
      }
  }

  /** An assignment sets its issue's entry and no other. */
  lemma AssignLookup(t: seq<Link>, issueId: string, requirementIds: seq<string>, other: string)
    requires UniqueKeys(t)
    ensures Lookup(Assign(t, issueId, requirementIds), issueId) == Some(requirementIds)
    ensures other != issueId ==> Lookup(Assign(t, issueId, requirementIds), other) == Lookup(t, other)
  {
    var r := Assign(t, issueId, requirementIds);
    AssignMembers(t, issueId, requirementIds);
    AssignUnique(t, issueId, requirementIds);
    LookupIn(r, issueId, requirementIds);
    if other != issueId {
      match Lookup(t, other)
      case None =>
        if Lookup(r, other).Some? {
          LookupIn(r, other, Lookup(r, other).value);
          LookupIn(t, other, Lookup(r, other).value);
        }
      case Some(ids) =>
        LookupIn(t, other, ids);
        LookupIn(r, other, ids);
    }
  }

  /**
   * The issue ids whose entry lists a requirement, in enumeration order: the
   * `for (const [issueId, requirements] of Object.entries(table))` scans of
   * getDashboardData and getRequirementIssues.
   */
  function IssuesOf(t: seq<Link>, requirementId: string): (ids: seq<string>)
    ensures |ids| <= |t|
  {
    if t == [] then []
    else (if requirementId in t[0].requirementIds then [t[0].issueId] else [])
         + IssuesOf(t[1..], requirementId)
  }

  lemma {:induction false} IssuesOfAppend(a: seq<Link>, b: seq<Link>, requirementId: string)
    ensures IssuesOf(a + b, requirementId) == IssuesOf(a, requirementId) + IssuesOf(b, requirementId)
  {
    if a == [] {
      assert a + b == b;
    } else {
      var h := if requirementId in a[0].requirementIds then [a[0].issueId] else [];
      assert (a + b)[0] == a[0] && (a + b)[1..] == a[1..] + b;
      IssuesOfAppend(a[1..], b, requirementId);
      assert IssuesOf(a + b, requirementId) == h + (IssuesOf(a[1..], requirementId) + IssuesOf(b, requirementId));
    }
  }

  /** The scan selects exactly the entries whose array includes the requirement. */
  lemma {:induction false} IssuesOfMembers(t: seq<Link>, requirementId: string, issueId: string)
    ensures issueId in IssuesOf(t, requirementId) <==>
              exists i :: 0 <= i < |t| && t[i].issueId == issueId && requirementId in t[i].requirementIds
  {
    if t != [] {
      IssuesOfMembers(t[1..], requirementId, issueId);
      if issueId in IssuesOf(t[1..], requirementId) {
        var i :| 0 <= i < |t[1..]| && t[1..][i].issueId == issueId && requirementId in t[1..][i].requirementIds;
        assert t[i + 1] == t[1..][i];
      }
      if exists i :: 0 <= i < |t| && t[i].issueId == issueId && requirementId in t[i].requirementIds {
        var i :| 0 <= i < |t| && t[i].issueId == issueId && requirementId in t[i].requirementIds;
        if i > 0 {
          assert t[1..][i - 1] == t[i];
        }
      }
    }
  }

  /**
   * The reverse scan agrees with the forward lookup of getAssignedRequirements:
   * an issue is listed for a requirement exactly when its entry includes it.
   */
  lemma ScanAgreesWithLookup(t: seq<Link>, requirementId: string, issueId: string)
    requires UniqueKeys(t)
    ensures issueId in IssuesOf(t, requirementId) <==>
              Lookup(t, issueId).Some? && requirementId in Lookup(t, issueId).value
  {
    IssuesOfMembers(t, requirementId, issueId);
    if Lookup(t, issueId).Some? {
      LookupIn(t, issueId, Lookup(t, issueId).value);
    }
    if issueId in IssuesOf(t, requirementId) {
      var i :| 0 <= i < |t| && t[i].issueId == issueId && requirementId in t[i].requirementIds;
      LookupIn(t, issueId, t[i].requirementIds);
    }
  }

  /** Distinct keys, listed as an object enumerates its own keys. */
  predicate InEnumerationOrder(ids: seq<string>) {
    forall i, j :: 0 <= i < j < |ids| ==> ids[i] != ids[j] && Rank(ids[i]) <= Rank(ids[j])
  }

  /** The scan lists each issue once, array-index ids first and ascending. */
  lemma {:induction false} IssuesOfOrdered(t: seq<Link>, requirementId: string)
    requires PropertyOrder(t)
    ensures InEnumerationOrder(IssuesOf(t, requirementId))
  {
    if t != [] {
      var rest := IssuesOf(t[1..], requirementId);
      IssuesOfOrdered(t[1..], requirementId);
      forall x | x in rest ensures x != t[0].issueId && Rank(t[0].issueId) <= Rank(x) {
        IssuesOfMembers(t[1..], requirementId, x);
        var i :| 0 <= i < |t[1..]| && t[1..][i].issueId == x && requirementId in t[1..][i].requirementIds;
        assert t[i + 1].issueId == x;
      }
      var ids := IssuesOf(t, requirementId);
      if requirementId in t[0].requirementIds {
        assert ids == [t[0].issueId] + rest;
        forall i, j | 0 <= i < j < |ids| ensures ids[i] != ids[j] && Rank(ids[i]) <= Rank(ids[j]) {
          var b := rest[j - 1];
          assert ids[j] == b && b in rest;
          if i == 0 {
            assert ids[i] == t[0].issueId;
          } else {
            assert ids[i] == rest[i - 1];
          }
        }
      } else {
        assert ids == rest;
      }
    }
  }

  /** The `for ... of` loop that collects the linked issue ids. */
  method ScanLinks(t: seq<Link>, requirementId: string) returns (ids: seq<string>)
    ensures ids == IssuesOf(t, requirementId)
  {
    ids := [];
    var i := 0;
    while i < |t|
      invariant 0 <= i <= |t|
      invariant ids == IssuesOf(t[..i], requirementId)
    {
      assert t[..i + 1] == t[..i] + [t[i]];
      IssuesOfAppend(t[..i], [t[i]], requirementId);
      if requirementId in t[i].requirementIds {
        ids := ids + [t[i].issueId];
      }
      i := i + 1;
    }
    assert t[..i] == t;
  }
}

/**
 * The list operations every collection resolver performs on its array of
 * records: `find`/`findIndex` by id, `filter` out an id, and `map` a spread
 * update over the records with an id.
 */
module Records {
  import opened Wrappers
  import opened Values

  /** `xs.findIndex(r => r.id === id)`, with `None` for -1. */
  function FindFirst(xs: seq<Record>, id: string): (r: Option<nat>)
    ensures r.Some? ==> r.value < |xs| && xs[r.value].id == id
    ensures r.Some? ==> forall j :: 0 <= j < r.value ==> xs[j].id != id
    ensures r.None? <==> forall j :: 0 <= j < |xs| ==> xs[j].id != id
  {
    if xs == [] then None
    else if xs[0].id == id then Some(0)
    else match FindFirst(xs[1..], id)
      case None => None
      case Some(i) => Some(i + 1)
  }

  /** `xs.filter(r => r.id !== id)`. */
  function Without(xs: seq<Record>, id: string): (r: seq<Record>)
    ensures |r| <= |xs|
    ensures forall x :: x in r <==> x in xs && x.id != id
  {
    if xs == [] then []
    else (if xs[0].id == id then [] else [xs[0]]) + Without(xs[1..], id)
  }

  /** Filtering keeps order: it distributes over concatenation. */
  lemma {:induction false} WithoutAppend(xs: seq<Record>, ys: seq<Record>, id: string)
    ensures Without(xs + ys, id) == Without(xs, id) + Without(ys, id)
  {
    if xs == [] {
      assert xs + ys == ys;
    } else {
      assert (xs + ys)[1..] == xs[1..] + ys;
      WithoutAppend(xs[1..], ys, id);
    }
  }

  /** Removing an id that is not there changes nothing. */
  lemma {:induction false} WithoutAbsent(xs: seq<Record>, id: string)
    requires forall j :: 0 <= j < |xs| ==> xs[j].id != id
    ensures Without(xs, id) == xs
  {
    if xs != [] {
      WithoutAbsent(xs[1..], id);
    }
  }

  /** Removing an id twice is removing it once. */
  lemma WithoutIdempotent(xs: seq<Record>, id: string)
    ensures Without(Without(xs, id), id) == Without(xs, id)
  {
    var r := Without(xs, id);
    assert forall j :: 0 <= j < |r| ==> r[j] in r;
    WithoutAbsent(r, id);
  }

  /** Removing an id that is there shortens the list. */
  lemma {:induction false} WithoutPresent(xs: seq<Record>, id: string, i: nat)
    requires i < |xs| && xs[i].id == id
    ensures |Without(xs, id)| < |xs|
  {
    if i > 0 {
      WithoutPresent(xs[1..], id, i - 1);
    }
  }

  /** `{...r, ...patch}` on one record: the id is never part of a patch. */
  function Patched(r: Record, patch: map<string, Option<Json>>): (p: Record)
    ensures p.id == r.id
  {
    Record(r.id, Spread(r.fields, patch))
  }

  /** `xs.map(item => item.id === id ? {...item, ...patch} : item)`. */
  function UpdateAll(xs: seq<Record>, id: string, patch: map<string, Option<Json>>): (r: seq<Record>)
    ensures |r| == |xs|
    ensures forall i :: 0 <= i < |xs| ==> r[i] == if xs[i].id == id then Patched(xs[i], patch) else xs[i]
  {
    if xs == [] then []
    else [if xs[0].id == id then Patched(xs[0], patch) else xs[0]] + UpdateAll(xs[1..], id, patch)
  }

  /** Updating an id that is not there leaves the list as it was. */
  lemma UpdateAllAbsent(xs: seq<Record>, id: string, patch: map<string, Option<Json>>)
    requires forall j :: 0 <= j < |xs| ==> xs[j].id != id
    ensures UpdateAll(xs, id, patch) == xs
  {
  }

  /** `xs[i] = {...xs[i], ...patch}` at the first record with the id. */
  function UpdateFirst(xs: seq<Record>, id: string, patch: map<string, Option<Json>>): (r: Option<seq<Record>>)
    ensures r.None? <==> FindFirst(xs, id).None?
    ensures r.Some? ==> |r.value| == |xs|
    ensures r.Some? ==> forall i :: 0 <= i < |xs| ==>
              r.value[i] == if i == FindFirst(xs, id).value then Patched(xs[i], patch) else xs[i]
  {
    match FindFirst(xs, id)
    case None => None
    case Some(i) => Some(xs[i := Patched(xs[i], patch)])
  }

  /** With unique ids, updating the first match is updating every match. */
  lemma UpdateFirstUnique(xs: seq<Record>, id: string, patch: map<string, Option<Json>>)
    requires forall i, j :: 0 <= i < j < |xs| ==> xs[i].id != xs[j].id
    requires FindFirst(xs, id).Some?
    ensures UpdateFirst(xs, id, patch) == Some(UpdateAll(xs, id, patch))
  {
    var k := FindFirst(xs, id).value;
    var a, b := UpdateFirst(xs, id, patch).value, UpdateAll(xs, id, patch);
    forall i | 0 <= i < |xs|
      ensures a[i] == b[i]
    {
      if k < i {
        assert xs[k].id != xs[i].id;
      }
    }
    assert a == b;
  }
}

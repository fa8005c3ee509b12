/** src/resolvers/verificationResolvers.js: the verification checklist, kept in storage only. */
module VerificationResolvers {
  import opened Wrappers
  import opened Values
  import opened Config
  import opened Ids
  import opened ForgeStorage
  import opened Records

  /** `getVerificationChecklist()`: the stored array, or `[]` when the key is absent. */
  method GetVerificationChecklist(store: Storage) returns (r: Value)
    ensures VerificationChecklistKey in store.data ==> r == store.data[VerificationChecklistKey]
    ensures VerificationChecklistKey !in store.data ==> r == List([])
  {
    var storedData := store.Get(VerificationChecklistKey);
    r := OrEmpty(storedData);
  }

  /** `addVerificationChecklistItem({name})` at clock `now`: appends one `{id, name}`. */
  method AddVerificationChecklistItem(store: Storage, name: Option<Json>, now: int)
    returns (r: Result<Record, Thrown>)
    modifies store
    ensures ReadList(old(store.Get(VerificationChecklistKey))).Failure? ==> r.Failure? && store.data == old(store.data)
    ensures ReadList(old(store.Get(VerificationChecklistKey))).Success? ==>
              var xs := ReadList(old(store.Get(VerificationChecklistKey))).value;
              && r == Success(NewRecord(GenerateUniqueId("verification", now), map["name" := name]))
              && store.data == old(store.data)[VerificationChecklistKey := List(xs + [r.value])]
  {
    var storedData :- ReadList(store.Get(VerificationChecklistKey));
    var newItem := NewRecord(GenerateUniqueId("verification", now), map["name" := name]);
    store.Set(VerificationChecklistKey, List(storedData + [newItem]));
    r := Success(newItem);
  }

  /**
   * `updateVerificationChecklistItem({id, name})`: renames every item with the id;
   * an absent id is no error and writes the array back unchanged.
   */
  method UpdateVerificationChecklistItem(store: Storage, id: string, name: Option<Json>)
    returns (r: Result<seq<Record>, Thrown>)
    modifies store
    ensures ReadList(old(store.Get(VerificationChecklistKey))).Failure? ==> r.Failure? && store.data == old(store.data)
    ensures ReadList(old(store.Get(VerificationChecklistKey))).Success? ==>
              && r == Success(UpdateAll(ReadList(old(store.Get(VerificationChecklistKey))).value, id, map["name" := name]))
              && store.data == old(store.data)[VerificationChecklistKey := List(r.value)]
  {
    var storedData :- ReadList(store.Get(VerificationChecklistKey));
    var updatedData := UpdateAll(storedData, id, map["name" := name]);
    store.Set(VerificationChecklistKey, List(updatedData));
    r := Success(updatedData);
  }

  /** `removeVerificationChecklistItem({id})`: keeps the items with another id, in order. */
  method RemoveVerificationChecklistItem(store: Storage, id: string) returns (r: Result<seq<Record>, Thrown>)
    modifies store
    ensures ReadList(old(store.Get(VerificationChecklistKey))).Failure? ==> r.Failure? && store.data == old(store.data)
    ensures ReadList(old(store.Get(VerificationChecklistKey))).Success? ==>
              && r == Success(Without(ReadList(old(store.Get(VerificationChecklistKey))).value, id))
              && store.data == old(store.data)[VerificationChecklistKey := List(r.value)]
  {
    var storedData :- ReadList(store.Get(VerificationChecklistKey));
    var updatedData := Without(storedData, id);
    store.Set(VerificationChecklistKey, List(updatedData));
    r := Success(updatedData);
  }
}

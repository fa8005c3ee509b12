/** src/resolvers/validationResolvers.js: the validation checklist, kept in storage only. */
module ValidationResolvers {
  import opened Wrappers
  import opened Values
  import opened Config
  import opened Ids
  import opened ForgeStorage
  import opened Records

  /** `getValidationChecklist()`: the stored array, or `[]` when the key is absent. */
  method GetValidationChecklist(store: Storage) returns (r: Value)
    ensures ValidationChecklistKey in store.data ==> r == store.data[ValidationChecklistKey]
    ensures ValidationChecklistKey !in store.data ==> r == List([])
  {
    var storedData := store.Get(ValidationChecklistKey);
    r := OrEmpty(storedData);
  }

  /** `addValidationChecklistItem({name})` at clock `now`: appends one `{id, name}`. */
  method AddValidationChecklistItem(store: Storage, name: Option<Json>, now: int)
    returns (r: Result<Record, Thrown>)
    modifies store
    ensures ReadList(old(store.Get(ValidationChecklistKey))).Failure? ==> r.Failure? && store.data == old(store.data)
    ensures ReadList(old(store.Get(ValidationChecklistKey))).Success? ==>
              var xs := ReadList(old(store.Get(ValidationChecklistKey))).value;
              && r == Success(NewRecord(GenerateUniqueId("validation", now), map["name" := name]))
              && store.data == old(store.data)[ValidationChecklistKey := List(xs + [r.value])]
  {
    var storedData :- ReadList(store.Get(ValidationChecklistKey));
    var newItem := NewRecord(GenerateUniqueId("validation", now), map["name" := name]);
    store.Set(ValidationChecklistKey, List(storedData + [newItem]));
    r := Success(newItem);
  }

  /**
   * `updateValidationChecklistItem({id, name})`: renames every item with the id;
   * an absent id is no error and writes the array back unchanged.
   */
  method UpdateValidationChecklistItem(store: Storage, id: string, name: Option<Json>)
    returns (r: Result<seq<Record>, Thrown>)
    modifies store
    ensures ReadList(old(store.Get(ValidationChecklistKey))).Failure? ==> r.Failure? && store.data == old(store.data)
    ensures ReadList(old(store.Get(ValidationChecklistKey))).Success? ==>
              && r == Success(UpdateAll(ReadList(old(store.Get(ValidationChecklistKey))).value, id, map["name" := name]))
              && store.data == old(store.data)[ValidationChecklistKey := List(r.value)]
  {
    var storedData :- ReadList(store.Get(ValidationChecklistKey));
    var updatedData := UpdateAll(storedData, id, map["name" := name]);
    store.Set(ValidationChecklistKey, List(updatedData));
    r := Success(updatedData);
  }

  /** `removeValidationChecklistItem({id})`: keeps the items with another id, in order. */
  method RemoveValidationChecklistItem(store: Storage, id: string) returns (r: Result<seq<Record>, Thrown>)
    modifies store
    ensures ReadList(old(store.Get(ValidationChecklistKey))).Failure? ==> r.Failure? && store.data == old(store.data)
    ensures ReadList(old(store.Get(ValidationChecklistKey))).Success? ==>
              && r == Success(Without(ReadList(old(store.Get(ValidationChecklistKey))).value, id))
              && store.data == old(store.data)[ValidationChecklistKey := List(r.value)]
  {
    var storedData :- ReadList(store.Get(ValidationChecklistKey));
    var updatedData := Without(storedData, id);
    store.Set(ValidationChecklistKey, List(updatedData));
    r := Success(updatedData);
  }
}

/** The vehicle-type list: the search, the newest-first order, and the deletion guarded by
    the type's label. The page's list is the one it loaded, passed as `types`. */
module TypesPage {
  import opened Wrappers
  import opened Types
  import Text
  import Seqs
  import Store
  import ListPages
  import Sorting

  /** The search test: the label mentions the search text. */
  function Matches(search: string): TypeVehicule -> bool {
    (t: TypeVehicule) => ListPages.Mentions(t.libelle, search)
  }

  /** The later of the creation and modification stamps, a missing one read as the epoch. */
  function DateKey(t: TypeVehicule): real {
    ListPages.TouchedKey(t.dateCreation, t.dateModification)
  }

  /** `filtered`: exactly the types whose label the search mentions, most recently touched
      first. */
  function Listed(types: seq<TypeVehicule>, search: string): (r: seq<TypeVehicule>)
    ensures forall t :: t in r <==> t in types && (Text.Blank(search) || Matches(search)(t))
    ensures Text.Blank(search) ==> multiset(r) == multiset(types)
    ensures multiset(r) == multiset(ListPages.BySearch(types, search, Matches(search)))
    ensures forall i, j :: 0 <= i < j < |r| ==> DateKey(r[i]) >= DateKey(r[j])
    ensures Sorting.KeepsTies(r, ListPages.BySearch(types, search, Matches(search)), DateKey)
  {
    ListPages.Arrange(ListPages.BySearch(types, search, Matches(search)), DateKey, ListPages.Desc)
  }

  /** `handleDelete` with the pending id: without one, or with an empty one, nothing happens
      and the confirmation stays as it is. Otherwise the first loaded type with that id is
      looked up; when its label is in use the type stays, otherwise, and also when no loaded
      type has the id, the repository deletes the id. Either way the confirmation closes. */
  function HandleDelete(st: Store.Storage, types: seq<TypeVehicule>, pending: Option<string>): (r: (Store.Storage, Option<string>))
    ensures pending.None? || pending == Some("") ==> r == (st, pending)
    ensures pending.Some? && pending.value != "" ==> r.1.None?
    ensures pending.Some? && pending.value != "" && (forall i :: 0 <= i < |types| ==> types[i].id != pending.value) ==>
      r.0 == st.(typesVehicule := Store.DeleteTypeVehicule(st.typesVehicule, pending.value))
  {
    match pending
    case None => (st, pending)
    case Some(id) =>
      if id == "" then (st, pending)
      else
        var found := Seqs.Find(types, Store.HasId(Store.TypeId, id));
        if found.Some? && Store.TypeVehiculeInUse(st, found.value.libelle) then (st, None)
        else (st.(typesVehicule := Store.DeleteTypeVehicule(st.typesVehicule, id)), None)
  }

  /** The guard reads the label of the first loaded type with the id: when the id is empty or
      some record uses that label the storage is untouched, and otherwise the id is gone from
      the stored types. */
  lemma DeleteGuardedByLabel(st: Store.Storage, types: seq<TypeVehicule>, k: nat)
    requires k < |types| && forall j :: 0 <= j < k ==> types[j].id != types[k].id
    ensures var r := HandleDelete(st, types, Some(types[k].id)).0;
      && (types[k].id == "" || Store.TypeVehiculeInUse(st, types[k].libelle) ==> r == st)
      && (types[k].id != "" && !Store.TypeVehiculeInUse(st, types[k].libelle) ==>
            r == st.(typesVehicule := r.typesVehicule)
            && r.typesVehicule.Records?
            && forall i :: 0 <= i < |r.typesVehicule.types| ==> r.typesVehicule.types[i].id != types[k].id)
  {
    var id := types[k].id;
    var p := Store.HasId(Store.TypeId, id);
    var idx := Seqs.FindIndex(types, p);
    assert p(types[k]);
    assert idx == Some(k) by {
      assert forall j :: 0 <= j < k ==> !p(types[j]);
    }
  }
}

/** The client list: the search, the newest-first order, and the guarded deletion. */
module ClientsPage {
  import opened Wrappers
  import opened Types
  import Text
  import Store
  import ListPages
  import Sorting

  /** The search test: the name, first name, telephone or e-mail (empty when missing)
      mentions the search text. */
  function Matches(search: string): Client -> bool {
    (c: Client) =>
      || ListPages.Mentions(c.nom, search)
      || ListPages.Mentions(c.prenom, search)
      || ListPages.Mentions(c.telephone, search)
      || ListPages.Mentions(c.email.GetOr(""), search)
  }

  /** The later of the creation and modification stamps, a missing one read as the epoch. */
  function DateKey(c: Client): real {
    ListPages.TouchedKey(c.dateCreation, c.dateModification)
  }

  /** `filtered`: exactly the clients the search keeps, most recently touched first. */
  function Listed(clients: seq<Client>, search: string): (r: seq<Client>)
    ensures forall c :: c in r <==> c in clients && (Text.Blank(search) || Matches(search)(c))
    ensures Text.Blank(search) ==> multiset(r) == multiset(clients)
    ensures multiset(r) == multiset(ListPages.BySearch(clients, search, Matches(search)))
    ensures forall i, j :: 0 <= i < j < |r| ==> DateKey(r[i]) >= DateKey(r[j])
    ensures Sorting.KeepsTies(r, ListPages.BySearch(clients, search, Matches(search)), DateKey)
  {
    ListPages.Arrange(ListPages.BySearch(clients, search, Matches(search)), DateKey, ListPages.Desc)
  }

  /** `handleDelete` with the pending id: without one, or with an empty one, nothing happens
      and the confirmation stays as it is. Otherwise a client still referred to stays, a free
      one is removed through the repository, and either way the confirmation closes. */
  function HandleDelete(st: Store.Storage, pending: Option<string>): (r: (Store.Storage, Option<string>))
    ensures pending.None? || pending == Some("") ==> r == (st, pending)
    ensures pending.Some? && pending.value != "" ==> r.1.None?
    ensures pending.Some? && Store.ClientInUse(st, pending.value) ==> r.0 == st
    ensures pending.Some? && pending.value != "" && !Store.ClientInUse(st, pending.value) ==>
      r.0 == Store.DeleteClient(st, pending.value)
  {
    match pending
    case None => (st, pending)
    case Some(id) =>
      if id == "" then (st, pending)
      else if Store.ClientInUse(st, id) then (st, None)
      else (Store.DeleteClient(st, id), None)
  }

  /** The ids of the stored clients. */
  function ClientIds(st: Store.Storage): set<string> {
    set c | c in st.clients :: c.id
  }

  /** Every client a dossier, an invoice or a rental refers to is stored. */
  predicate LinksResolve(st: Store.Storage) {
    && (forall i :: 0 <= i < |st.dossiers| && st.dossiers[i].clientId.Some? ==> st.dossiers[i].clientId.value in ClientIds(st))
    && (forall i :: 0 <= i < |st.factures| && st.factures[i].clientId.Some? ==> st.factures[i].clientId.value in ClientIds(st))
    && (forall i :: 0 <= i < |st.locations| && st.locations[i].clientId.Some? ==> st.locations[i].clientId.value in ClientIds(st))
  }

  /** Removing a client nothing refers to keeps every other stored client. */
  lemma DeleteKeepsOtherIds(st: Store.Storage, id: string, other: string)
    requires other in ClientIds(st) && other != id
    ensures other in ClientIds(Store.DeleteClient(st, id))
  {
    var c :| c in st.clients && c.id == other;
    Store.RemoveByIdMembers(st.clients, Store.ClientId, id, c);
  }

  /** The guarded deletion never leaves a reference to a missing client. */
  lemma HandleDeleteKeepsLinks(st: Store.Storage, pending: Option<string>)
    requires LinksResolve(st)
    ensures LinksResolve(HandleDelete(st, pending).0)
  {
    if pending.Some? && pending.value != "" && !Store.ClientInUse(st, pending.value) {
      var id := pending.value;
      var st' := Store.DeleteClient(st, id);
      forall i | 0 <= i < |st.dossiers| && st.dossiers[i].clientId.Some?
        ensures st.dossiers[i].clientId.value in ClientIds(st')
      {
        DeleteKeepsOtherIds(st, id, st.dossiers[i].clientId.value);
      }
      forall i | 0 <= i < |st.factures| && st.factures[i].clientId.Some?
        ensures st.factures[i].clientId.value in ClientIds(st')
      {
        DeleteKeepsOtherIds(st, id, st.factures[i].clientId.value);
      }
      forall i | 0 <= i < |st.locations| && st.locations[i].clientId.Some?
        ensures st.locations[i].clientId.value in ClientIds(st')
      {
        DeleteKeepsOtherIds(st, id, st.locations[i].clientId.value);
      }
    }
  }
}

/** The dossier list: status and search filters, the date sort, and the guard before a
    deletion is offered. The client records are those of storage. */
module DossiersPage {
  import opened Wrappers
  import opened Types
  import Text
  import Store
  import Clients
  import ListPages
  import Sorting

  /** The sortable columns; only the date column sorts numerically. */
  datatype SortKey = DateCreation | Statut | NomClient | NumeroCH

  /** The list opens on the newest dossiers first. */
  const InitialSort := ListPages.SortState(DateCreation, ListPages.Desc)

  /** `${c.nom} ${c.prenom} ${c.telephone}` for the client the row shows. */
  function ClientText(c: Clients.ClientDisplay): string {
    c.nom + " " + c.prenom + " " + c.telephone
  }

  /** The search test: the numéro CH, the client text or the vehicle reference mentions the
      search text. */
  function Matches(clients: seq<Client>, search: string): Dossier -> bool {
    (d: Dossier) =>
      || ListPages.Mentions(d.numeroCH, search)
      || ListPages.Mentions(ClientText(Clients.FromDossier(d, clients)), search)
      || ListPages.Mentions(d.referenceVehicule, search)
  }

  /** `filtered` before sorting: the dossiers that pass the status filter and the search. */
  function Filtered(dossiers: seq<Dossier>, clients: seq<Client>, search: string, statutFilter: string): (r: seq<Dossier>)
    ensures statutFilter == ListPages.AllStatuses && Text.Blank(search) ==> r == dossiers
    ensures forall d :: d in r <==>
      && d in dossiers
      && (statutFilter == ListPages.AllStatuses || d.statut == statutFilter)
      && (Text.Blank(search) || Matches(clients, search)(d))
  {
    var byStatus := ListPages.ByStatus(dossiers, (d: Dossier) => d.statut, statutFilter);
    ListPages.BySearch(byStatus, search, Matches(clients, search))
  }

  /** The date column's key: the later of the creation and the modification stamps, a missing
      one read as the epoch. */
  function DateKey(d: Dossier): real {
    ListPages.TouchedKey(d.dateCreation, d.dateModification)
  }

  /** The list sorted by the date column: exactly the dossiers that pass both filters, a
      dossier shown before another being no newer in ascending order and no older in
      descending order. */
  function ListedByDate(dossiers: seq<Dossier>, clients: seq<Client>, search: string, statutFilter: string, dir: ListPages.SortDir): (r: seq<Dossier>)
    ensures multiset(r) == multiset(Filtered(dossiers, clients, search, statutFilter))
    ensures forall d :: d in r <==>
      && d in dossiers
      && (statutFilter == ListPages.AllStatuses || d.statut == statutFilter)
      && (Text.Blank(search) || Matches(clients, search)(d))
    ensures forall i, j :: 0 <= i < j < |r| ==>
      if dir == ListPages.Asc then DateKey(r[i]) <= DateKey(r[j]) else DateKey(r[i]) >= DateKey(r[j])
    ensures Sorting.KeepsTies(r, Filtered(dossiers, clients, search, statutFilter), DateKey)
  {
    ListPages.Arrange(Filtered(dossiers, clients, search, statutFilter), DateKey, dir)
  }

  /** `tryDelete(id)`: the confirmation is opened for the id, unless an invoice refers to the
      dossier, in which case nothing is opened. */
  function TryDelete(st: Store.Storage, id: string): (pending: Option<string>)
    ensures pending.Some? <==> forall i :: 0 <= i < |st.factures| ==> st.factures[i].dossierId != id
    ensures pending.Some? ==> pending.value == id
  {
    if Store.DossierHasFactures(st, id) then None else Some(id)
  }

  /** A deletion the page lets through is one the repository accepts, and a refused one is
      one the repository would refuse. */
  lemma TryDeleteAgreesWithStore(st: Store.Storage, id: string)
    ensures TryDelete(st, id).Some? <==> Store.DeleteDossier(st, id).Success?
  {
  }
}

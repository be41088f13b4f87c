/** The invoice list: status and search filters and the numeric sorts. */
module FacturesPage {
  import opened Wrappers
  import opened Types
  import Text
  import Clients
  import ListPages
  import Sorting

  /** The sortable columns; the client column compares names as strings. */
  datatype SortKey = DateCreation | DateFacture | PrixTotalTTC | NomClient

  const InitialSort := ListPages.SortState(DateCreation, ListPages.Desc)

  /** The search test: the invoice number, the client text or the vehicle reference mentions
      the search text. */
  function Matches(clients: seq<Client>, search: string): Facture -> bool {
    (f: Facture) =>
      var c := Clients.FromFacture(f, clients);
      || ListPages.Mentions(f.id, search)
      || ListPages.Mentions(c.nom + " " + c.prenom + " " + c.telephone, search)
      || ListPages.Mentions(f.referenceVehicule, search)
  }

  /** `filtered` before sorting: the invoices that pass the status filter and the search. */
  function Filtered(factures: seq<Facture>, clients: seq<Client>, search: string, statutFilter: string): (r: seq<Facture>)
    ensures statutFilter == ListPages.AllStatuses && Text.Blank(search) ==> r == factures
    ensures forall f :: f in r <==>
      && f in factures
      && (statutFilter == ListPages.AllStatuses || f.statut == statutFilter)
      && (Text.Blank(search) || Matches(clients, search)(f))
  {
    var byStatus := ListPages.ByStatus(factures, (f: Facture) => f.statut, statutFilter);
    ListPages.BySearch(byStatus, search, Matches(clients, search))
  }

  /** The date column's key: the latest of the creation, modification and invoice dates, a
      missing stamp read as the epoch. */
  function DateKey(f: Facture): (r: real)
    ensures f.dateCreation.GetOr(0) as real <= r && f.dateModification.GetOr(0) as real <= r
    ensures f.dateFacture as real <= r
    ensures r == f.dateCreation.GetOr(0) as real || r == f.dateModification.GetOr(0) as real || r == f.dateFacture as real
  {
    var stamps := [f.dateCreation.GetOr(0), f.dateModification.GetOr(0), f.dateFacture];
    var latest := ListPages.LatestStamp(stamps);
    assert stamps[0] <= latest && stamps[1] <= latest && stamps[2] <= latest;
    latest as real
  }

  function DateFactureKey(f: Facture): real { f.dateFacture as real }
  function PrixKey(f: Facture): real { f.prixTotalTTC }

  /** The numeric comparison behind a column, `None` for the client column. */
  function NumericKey(k: SortKey): (r: Option<Facture -> real>)
    ensures r.None? <==> k == NomClient
  {
    match k
    case DateCreation => Some(DateKey)
    case DateFacture => Some(DateFactureKey)
    case PrixTotalTTC => Some(PrixKey)
    case NomClient => None
  }

  /** The list under a numeric sort: exactly the invoices that pass both filters, ordered by
      the column's key in the chosen direction. The client column's order is not modelled. */
  function Listed(factures: seq<Facture>, clients: seq<Client>, search: string, statutFilter: string, sort: ListPages.SortState<SortKey>): (r: Option<seq<Facture>>)
    ensures r.Some? <==> sort.key != NomClient
    ensures r.Some? ==> forall f :: f in r.value <==>
      && f in factures
      && (statutFilter == ListPages.AllStatuses || f.statut == statutFilter)
      && (Text.Blank(search) || Matches(clients, search)(f))
    ensures r.Some? ==> multiset(r.value) == multiset(Filtered(factures, clients, search, statutFilter))
    ensures r.Some? ==> var key := NumericKey(sort.key).value;
      forall i, j :: 0 <= i < j < |r.value| ==>
        if sort.dir == ListPages.Asc then key(r.value[i]) <= key(r.value[j]) else key(r.value[i]) >= key(r.value[j])
    ensures r.Some? ==> Sorting.KeepsTies(r.value, Filtered(factures, clients, search, statutFilter), NumericKey(sort.key).value)
  {
    match NumericKey(sort.key)
    case None => None
    case Some(key) => Some(ListPages.Arrange(Filtered(factures, clients, search, statutFilter), key, sort.dir))
  }

  /** Sorting by price, the first invoice listed in descending order is one of the dearest
      that pass the filters. */
  lemma DearestFirst(factures: seq<Facture>, clients: seq<Client>, search: string, statutFilter: string, f: Facture)
    requires f in Filtered(factures, clients, search, statutFilter)
    ensures var r := Listed(factures, clients, search, statutFilter, ListPages.SortState(PrixTotalTTC, ListPages.Desc)).value;
      |r| > 0 && r[0].prixTotalTTC >= f.prixTotalTTC
  {
    var r := Listed(factures, clients, search, statutFilter, ListPages.SortState(PrixTotalTTC, ListPages.Desc)).value;
    assert f in multiset(Filtered(factures, clients, search, statutFilter));
    HeadDominates(r, f);
  }

  /** In a list sorted by descending price, the head costs at least as much as any member. */
  lemma HeadDominates(r: seq<Facture>, f: Facture)
    requires f in multiset(r)
    requires forall i, j :: 0 <= i < j < |r| ==> PrixKey(r[i]) >= PrixKey(r[j])
    ensures |r| > 0 && r[0].prixTotalTTC >= f.prixTotalTTC
  {
    var k :| 0 <= k < |r| && r[k] == f;
    if k > 0 {
      assert PrixKey(r[0]) >= PrixKey(r[k]);
    }
  }
}

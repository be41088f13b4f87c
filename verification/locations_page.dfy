/** The rental list: status and search filters and the numeric sorts, the profit column
    included. */
module LocationsPage {
  import opened Wrappers
  import opened Types
  import Text
  import Seqs
  import Clients
  import ExcelExport
  import ListPages
  import Sorting

  /** The sortable columns; the status, client and reference columns compare strings. */
  datatype SortKey = DateCreation | Statut | NomClient | ReferenceCamion | MontantTotal | Benefice

  const InitialSort := ListPages.SortState(DateCreation, ListPages.Desc)

  /** The search test: the truck reference, the client text or the truck type (empty when
      missing) mentions the search text. */
  function Matches(clients: seq<Client>, search: string): Location -> bool {
    (l: Location) =>
      var c := Clients.FromLocation(l, clients);
      || ListPages.Mentions(l.referenceCamion, search)
      || ListPages.Mentions(c.nom + " " + c.prenom + " " + c.telephone, search)
      || ListPages.Mentions(l.typeCamion.GetOr(""), search)
  }

  /** `filtered` before sorting: the rentals that pass the status filter and the search. */
  function Filtered(locations: seq<Location>, clients: seq<Client>, search: string, statutFilter: string): (r: seq<Location>)
    ensures statutFilter == ListPages.AllStatuses && Text.Blank(search) ==> r == locations
    ensures forall l :: l in r <==>
      && l in locations
      && (statutFilter == ListPages.AllStatuses || l.statut == statutFilter)
      && (Text.Blank(search) || Matches(clients, search)(l))
  {
    var byStatus := ListPages.ByStatus(locations, (l: Location) => l.statut, statutFilter);
    ListPages.BySearch(byStatus, search, Matches(clients, search))
  }

  /** The date column's key: the later of the creation and modification stamps, a missing one
      read as the epoch. */
  function DateKey(l: Location): real {
    ListPages.TouchedKey(l.dateCreation, l.dateModification)
  }

  function MontantKey(l: Location): real { l.montantTotal }

  /** The profit column's key: the amount less the expenses, where a recorded expenses figure
      wins over the itemised lines and neither counts as nothing. */
  function BeneficeKey(l: Location): (r: real)
    ensures l.depenses.Some? ==> r == l.montantTotal - l.depenses.value
    ensures l.depenses.None? && l.depensesLignes.Some? ==>
      r == l.montantTotal - Seqs.Sum(l.depensesLignes.value, ExcelExport.LigneMontant)
    ensures l.depenses.None? && l.depensesLignes.None? ==> r == l.montantTotal
  {
    ExcelExport.LocationBenefice(l)
  }

  /** The numeric comparison behind a column, `None` for the string columns. */
  function NumericKey(k: SortKey): (r: Option<Location -> real>)
    ensures r.Some? <==> k in {DateCreation, MontantTotal, Benefice}
  {
    match k
    case DateCreation => Some(DateKey)
    case MontantTotal => Some(MontantKey)
    case Benefice => Some(BeneficeKey)
    case _ => None
  }

  /** The list under a numeric sort: exactly the rentals that pass both filters, ordered by
      the column's key in the chosen direction. The string columns' order is not modelled. */
  function Listed(locations: seq<Location>, clients: seq<Client>, search: string, statutFilter: string, sort: ListPages.SortState<SortKey>): (r: Option<seq<Location>>)
    ensures r.Some? <==> NumericKey(sort.key).Some?
    ensures r.Some? ==> forall l :: l in r.value <==>
      && l in locations
      && (statutFilter == ListPages.AllStatuses || l.statut == statutFilter)
      && (Text.Blank(search) || Matches(clients, search)(l))
    ensures r.Some? ==> multiset(r.value) == multiset(Filtered(locations, clients, search, statutFilter))
    ensures r.Some? ==> var key := NumericKey(sort.key).value;
      forall i, j :: 0 <= i < j < |r.value| ==>
        if sort.dir == ListPages.Asc then key(r.value[i]) <= key(r.value[j]) else key(r.value[i]) >= key(r.value[j])
    ensures r.Some? ==> Sorting.KeepsTies(r.value, Filtered(locations, clients, search, statutFilter), NumericKey(sort.key).value)
  {
    match NumericKey(sort.key)
    case None => None
    case Some(key) => Some(ListPages.Arrange(Filtered(locations, clients, search, statutFilter), key, sort.dir))
  }

  /** Sorted by profit, ascending, two rentals with the same amount and the same lines are
      ordered by their recorded expenses alone: the one with the larger recorded figure comes
      first. */
  lemma RecordedExpensesDecideProfitOrder(a: Location, b: Location)
    requires a.montantTotal == b.montantTotal && a.depenses.Some? && b.depenses.Some?
    requires a.depenses.value > b.depenses.value
    ensures BeneficeKey(a) < BeneficeKey(b)
  {
  }
}

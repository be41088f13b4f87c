/** The dashboard figures computed from storage: counts, dossiers per status, invoice totals and
    the five most recent dossiers, invoices and rentals. */
module Dashboard {
  import opened Wrappers
  import opened Types
  import Seqs
  import Sorting
  import Store

  datatype DashboardStats = DashboardStats(
    totalDossiers: nat,
    totalFactures: nat,
    parStatut: map<StatutDossier, nat>,
    totalVentes: real,
    totalEncaisse: real,
    totalRestant: real,
    totalLocations: nat,
    locationsRecentes: seq<Location>,
    dossiersRecents: seq<Dossier>,
    facturesRecentes: seq<Facture>)

  const RecentCount: nat := 5

  function HasStatut(st: StatutDossier): Dossier -> bool {
    (d: Dossier) => d.statut == st.Code()
  }

  /** A dossier whose stored status is one of the five known ones. */
  predicate KnownStatut(d: Dossier) {
    ParseStatutDossier(d.statut).Some?
  }

  function CountStatut(dossiers: seq<Dossier>, st: StatutDossier): nat {
    Seqs.Count(dossiers, HasStatut(st))
  }

  /** The per-status counters: a dossier with an unknown status is not counted anywhere. */
  function ParStatut(dossiers: seq<Dossier>): map<StatutDossier, nat> {
    map[
      Lance := CountStatut(dossiers, Lance),
      ProvisoireEntree := CountStatut(dossiers, ProvisoireEntree),
      ProvisoireSortie := CountStatut(dossiers, ProvisoireSortie),
      CarteGriseEntree := CountStatut(dossiers, CarteGriseEntree),
      CarteGriseSortie := CountStatut(dossiers, CarteGriseSortie)]
  }

  function StatutTotal(dossiers: seq<Dossier>): nat {
    CountStatut(dossiers, Lance) + CountStatut(dossiers, ProvisoireEntree) + CountStatut(dossiers, ProvisoireSortie)
      + CountStatut(dossiers, CarteGriseEntree) + CountStatut(dossiers, CarteGriseSortie)
  }

  /** Each dossier with a known status is counted under exactly one status, so the counters add
      up to the number of such dossiers. */
  lemma {:induction false} StatutCountsAddUp(dossiers: seq<Dossier>)
    ensures StatutTotal(dossiers) == Seqs.Count(dossiers, KnownStatut)
  {
    if |dossiers| > 0 {
      var d := dossiers[0];
      StatutCountsAddUp(dossiers[1..]);
      var parsed := ParseStatutDossier(d.statut);
      if parsed.None? {
        assert forall st: StatutDossier :: st.Code() != d.statut;
      }
    }
  }

  function PrixTotal(f: Facture): real { f.prixTotalTTC }
  function MontantPaye(f: Facture): real { f.montantPaye }
  function MontantRestant(f: Facture): real { f.montantRestant }

  /** The amount outstanding on an invoice is its price less what has been paid, as invoice
      creation and every recorded payment leave it. */
  predicate Balanced(f: Facture) {
    f.montantRestant == f.prixTotalTTC - f.montantPaye
  }

  /** Over balanced invoices, the outstanding total is sales less receipts. */
  lemma BalancedTotals(factures: seq<Facture>)
    ensures (forall i :: 0 <= i < |factures| ==> Balanced(factures[i])) ==>
      Seqs.Sum(factures, MontantRestant) == Seqs.Sum(factures, PrixTotal) - Seqs.Sum(factures, MontantPaye)
  {
    if forall i :: 0 <= i < |factures| ==> Balanced(factures[i]) {
      Seqs.SumDifference(factures, MontantRestant, PrixTotal, MontantPaye);
    }
  }

  /** `new Date(d.dateCreation)`; a record without a creation stamp sorts as the epoch. */
  function DossierKey(d: Dossier): real { d.dateCreation.GetOr(0) as real }
  function LocationKey(l: Location): real { l.dateCreation.GetOr(0) as real }

  /** `new Date(f.dateCreation || f.dateFacture)`. */
  function FactureKey(f: Facture): real { f.dateCreation.GetOr(f.dateFacture) as real }

  /** A recent list: at most `RecentCount` records of the collection, newest first, no record
      left out newer than one kept, and ties at the cut settled by the stable sort, so the
      list is the head of the collection sorted newest first with equal stamps in stored order. */
  ghost predicate RecentOf<T>(recent: seq<T>, all: seq<T>, key: T -> real) {
    && |recent| == (if |all| < RecentCount then |all| else RecentCount)
    && Sorting.SortedDescBy(recent, key)
    && multiset(recent) <= multiset(all)
    && (forall x, i :: x in all && x !in recent && 0 <= i < |recent| ==> key(x) <= key(recent[i]))
    && recent == Sorting.SortDescBy(all, key)[..|recent|]
  }

  /** `[...all].sort(newest first).slice(0, 5)`. */
  function Recent<T(!new)>(all: seq<T>, key: T -> real): (r: seq<T>)
    ensures RecentOf(r, all, key)
  {
    Sorting.Latest(all, key, RecentCount)
  }

  /** The per-status counters never exceed the number of dossiers, and cover every dossier
      exactly when every status is a known one. */
  lemma StatutCountersCover(dossiers: seq<Dossier>)
    ensures StatutTotal(dossiers) <= |dossiers|
    ensures StatutTotal(dossiers) == |dossiers| <==> forall i :: 0 <= i < |dossiers| ==> KnownStatut(dossiers[i])
  {
    StatutCountsAddUp(dossiers);
    Seqs.CountAllIff(dossiers, KnownStatut);
  }

  /** `getDashboardStats`. The per-status counters cover every dossier exactly when every status
      is a known one; the three money totals sum the invoices' price, paid and outstanding
      amounts, and the outstanding total is sales less receipts when every invoice is balanced;
      each recent list holds at most five records of its collection, newest first. */
  function GetDashboardStats(st: Store.Storage): (r: DashboardStats)
    ensures r.totalDossiers == |st.dossiers| && r.totalFactures == |st.factures| && r.totalLocations == |st.locations|
    ensures r.parStatut == ParStatut(st.dossiers)
    ensures StatutTotal(st.dossiers) <= r.totalDossiers
    ensures StatutTotal(st.dossiers) == r.totalDossiers <==> forall i :: 0 <= i < |st.dossiers| ==> KnownStatut(st.dossiers[i])
    ensures r.totalVentes == Seqs.Sum(st.factures, PrixTotal) && r.totalEncaisse == Seqs.Sum(st.factures, MontantPaye)
    ensures r.totalRestant == Seqs.Sum(st.factures, MontantRestant)
    ensures (forall i :: 0 <= i < |st.factures| ==> Balanced(st.factures[i])) ==> r.totalRestant == r.totalVentes - r.totalEncaisse
    ensures RecentOf(r.dossiersRecents, st.dossiers, DossierKey)
    ensures RecentOf(r.facturesRecentes, st.factures, FactureKey)
    ensures RecentOf(r.locationsRecentes, st.locations, LocationKey)
  {
    StatutCountersCover(st.dossiers);
    BalancedTotals(st.factures);
    DashboardStats(
      |st.dossiers|,
      |st.factures|,
      ParStatut(st.dossiers),
      Seqs.Sum(st.factures, PrixTotal),
      Seqs.Sum(st.factures, MontantPaye),
      Seqs.Sum(st.factures, MontantRestant),
      |st.locations|,
      Recent(st.locations, LocationKey),
      Recent(st.dossiers, DossierKey),
      Recent(st.factures, FactureKey))
  }

  /** Saving an invoice with a new id counts it once more and raises each money total by its
      own amount. */
  lemma NewFactureRaisesTotals(st: Store.Storage, f: Facture, now: int)
    requires !Seqs.Any(st.factures, Store.HasId(Store.FactureId, f.id))
    ensures var before, after := GetDashboardStats(st), GetDashboardStats(Store.SaveFacture(st, f, now));
      && after.totalFactures == before.totalFactures + 1
      && after.totalVentes == before.totalVentes + f.prixTotalTTC
      && after.totalEncaisse == before.totalEncaisse + f.montantPaye
      && after.totalRestant == before.totalRestant + f.montantRestant
  {
    var toSave := f.(dateModification := Some(now));
    var saved := toSave.(dateCreation := Store.Created(f.dateCreation, now));
    Store.UpsertNewAppends(st.factures, Store.FactureId, toSave, saved);
    var after := Store.SaveFacture(st, f, now).factures;
    assert after == st.factures + [saved];
    Seqs.SumAppend(st.factures, [saved], PrixTotal);
    Seqs.SumAppend(st.factures, [saved], MontantPaye);
    Seqs.SumAppend(st.factures, [saved], MontantRestant);
    Seqs.SumSingleton(saved, PrixTotal);
    Seqs.SumSingleton(saved, MontantPaye);
    Seqs.SumSingleton(saved, MontantRestant);
  }
}

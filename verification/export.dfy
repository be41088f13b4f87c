/** The arithmetic of the spreadsheet exports: the expense and profit columns of the invoice and
    rental sheets and the totals of the full report's summary sheet. The sheets themselves are
    written by a library and are not modelled. */
module ExcelExport {
  import opened Wrappers
  import opened Types
  import Seqs
  import Utils
  import Store
  import Dashboard

  // ── Invoices ─────────────────────────────────────────────

  /** `f.prixAchat ?? 0`. */
  function PrixAchat(f: Facture): real {
    f.prixAchat.GetOr(0.0)
  }

  /** `f.dedouanement ?? f.depenses ?? 0`: the clearance cost, falling back on the legacy
      expenses figure; the itemised expense lines are never consulted. */
  function Dedouanement(f: Facture): real {
    f.dedouanement.GetOr(f.depenses.GetOr(0.0))
  }

  /** The profit column: the price less the purchase price less the clearance cost. */
  function FactureBenefice(f: Facture): (r: real)
    ensures r + PrixAchat(f) + Dedouanement(f) == f.prixTotalTTC
  {
    Utils.CalculerBenefice(f.prixTotalTTC, PrixAchat(f), Dedouanement(f))
  }

  /** The exported clearance cost is the recorded one when there is one, the legacy expenses
      otherwise, and zero when neither is recorded; the itemised lines never change it. */
  lemma DedouanementFallsBack(f: Facture, lignes: Option<seq<DepenseLigne>>)
    ensures f.dedouanement.Some? ==> Dedouanement(f) == f.dedouanement.value
    ensures f.dedouanement.None? && f.depenses.Some? ==> Dedouanement(f) == f.depenses.value
    ensures f.dedouanement.None? && f.depenses.None? ==> Dedouanement(f) == 0.0
    ensures Dedouanement(f.(depensesLignes := lignes)) == Dedouanement(f)
    ensures FactureBenefice(f.(depensesLignes := lignes)) == FactureBenefice(f)
  {
  }

  // ── Rentals ──────────────────────────────────────────────

  function LigneMontant(d: DepenseLigne): real {
    d.montant
  }

  /** `l.depenses ?? l.depensesLignes?.reduce((sum, d) => sum + (d.montant || 0), 0) ?? 0`: the
      recorded expenses figure wins over the itemised lines. */
  function LocationDepenses(l: Location): real {
    match l.depenses
    case Some(d) => d
    case None =>
      match l.depensesLignes
      case Some(lignes) => Seqs.Sum(lignes, LigneMontant)
      case None => 0.0
  }

  /** The rental's profit column: the rental amount less its expenses. */
  function LocationBenefice(l: Location): (r: real)
    ensures r + LocationDepenses(l) == l.montantTotal
  {
    l.montantTotal - LocationDepenses(l)
  }

  /** A recorded expenses figure hides the lines entirely; without one, the expenses are the
      lines' total, so a line added to the rental raises them by its amount. */
  lemma LocationDepensesPrecedence(l: Location, lignes: seq<DepenseLigne>, extra: DepenseLigne)
    ensures l.depenses.Some? ==> LocationDepenses(l.(depensesLignes := Some(lignes))) == l.depenses.value
    ensures l.depenses.None? ==> LocationDepenses(l.(depensesLignes := Some(lignes))) == Seqs.Sum(lignes, LigneMontant)
    ensures l.depenses.None? ==>
      LocationDepenses(l.(depensesLignes := Some(lignes + [extra]))) == LocationDepenses(l.(depensesLignes := Some(lignes))) + extra.montant
    ensures l.depenses.None? && l.depensesLignes.None? ==> LocationDepenses(l) == 0.0
  {
    Seqs.SumAppend(lignes, [extra], LigneMontant);
    assert Seqs.Sum([extra], LigneMontant) == extra.montant by {
      assert [extra][..0] == [];
    }
  }

  // ── The full report's summary ────────────────────────────

  datatype Summary = Summary(
    totalDossiers: nat,
    totalFactures: nat,
    totalLocations: nat,
    totalVentes: real,
    totalEncaisse: real,
    totalRestant: real,
    totalBenefice: real)

  function PrixMoinsAchat(f: Facture): real {
    f.prixTotalTTC - PrixAchat(f)
  }

  /** The summary sheet of `exportFullReport`. Missing rentals count as none; the outstanding
      total is computed as sales less receipts, not read from the invoices; the profit total is
      the sum of the invoices' profit columns. */
  function FullReportSummary(dossiers: seq<Dossier>, factures: seq<Facture>, locations: Option<seq<Location>>): (r: Summary)
    ensures r.totalDossiers == |dossiers| && r.totalFactures == |factures|
    ensures r.totalLocations == if locations.Some? then |locations.value| else 0
    ensures r.totalVentes == Seqs.Sum(factures, Dashboard.PrixTotal) && r.totalEncaisse == Seqs.Sum(factures, Dashboard.MontantPaye)
    ensures r.totalBenefice == Seqs.Sum(factures, FactureBenefice)
    ensures r.totalRestant == r.totalVentes - r.totalEncaisse
    ensures r.totalBenefice == r.totalVentes - Seqs.Sum(factures, PrixAchat) - Seqs.Sum(factures, Dedouanement)
  {
    var ventes := Seqs.Sum(factures, Dashboard.PrixTotal);
    var encaisse := Seqs.Sum(factures, Dashboard.MontantPaye);
    var benefice := Seqs.Sum(factures, FactureBenefice);
    Seqs.SumDifference(factures, FactureBenefice, PrixMoinsAchat, Dedouanement);
    Seqs.SumDifference(factures, PrixMoinsAchat, Dashboard.PrixTotal, PrixAchat);
    Summary(
      |dossiers|,
      |factures|,
      |locations.GetOr([])|,
      ventes,
      encaisse,
      ventes - encaisse,
      benefice)
  }

  /** The summary's totals are additive: the report over two batches of invoices sums the two
      reports. */
  lemma SummaryAdditive(dossiers: seq<Dossier>, a: seq<Facture>, b: seq<Facture>)
    ensures var all := FullReportSummary(dossiers, a + b, None);
      && all.totalVentes == FullReportSummary(dossiers, a, None).totalVentes + FullReportSummary(dossiers, b, None).totalVentes
      && all.totalEncaisse == FullReportSummary(dossiers, a, None).totalEncaisse + FullReportSummary(dossiers, b, None).totalEncaisse
      && all.totalBenefice == FullReportSummary(dossiers, a, None).totalBenefice + FullReportSummary(dossiers, b, None).totalBenefice
  {
    Seqs.SumAppend(a, b, Dashboard.PrixTotal);
    Seqs.SumAppend(a, b, Dashboard.MontantPaye);
    Seqs.SumAppend(a, b, FactureBenefice);
  }

  /** Over the stored collections, the report's counts, sales and receipts are the dashboard's,
      and so is its outstanding total whenever every invoice is balanced. */
  lemma SummaryAgreesWithDashboard(st: Store.Storage)
    ensures var r := FullReportSummary(st.dossiers, st.factures, Some(st.locations));
      var d := Dashboard.GetDashboardStats(st);
      && r.totalDossiers == d.totalDossiers && r.totalFactures == d.totalFactures && r.totalLocations == d.totalLocations
      && r.totalVentes == d.totalVentes && r.totalEncaisse == d.totalEncaisse
      && ((forall i :: 0 <= i < |st.factures| ==> Dashboard.Balanced(st.factures[i])) ==> r.totalRestant == d.totalRestant)
  {
  }
}

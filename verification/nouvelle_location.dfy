/** The rental creation page: the expense lines typed with the rental, their clean-up before
    saving, the figures shown while typing, and the rental `onSubmit` saves. The rental id, the
    clock and today's date are parameters. */
module NouvelleLocation {
  import opened Wrappers
  import opened Types
  import Text
  import Seqs
  import Decimal
  import Store
  import ExcelExport
  import Validation
  import Form

  /** An expense line as typed: its row id, label and amount, all strings. */
  datatype LigneRow = LigneRow(id: string, libelle: string, montant: string)

  /** The form's first values: every field empty, the status `En_cours`. */
  function Initial(): map<string, string> {
    map[
      "referenceCamion" := "", "typeCamion" := "", "clientId" := "", "dateDebut" := "",
      "dateFin" := "", "montantTotal" := "", "statut" := StatutLocation.EnCours.Code(), "notes" := ""]
  }

  /** On mount, an empty start date is set to today; a date already typed is kept. */
  function DefaultDateDebut(s: Form.State, today: string): (r: Form.State)
    ensures Form.Value(s.values, "dateDebut") == "" ==> Form.Value(r.values, "dateDebut") == today
    ensures Form.Value(s.values, "dateDebut") != "" ==> r == s
    ensures forall k :: k != "dateDebut" ==> Form.Field(r.values, k) == Form.Field(s.values, k)
  {
    if Form.Value(s.values, "dateDebut") == "" then Form.SetValue(s, "dateDebut", today) else s
  }

  // ── Expense lines ────────────────────────────────────────

  /** A line as saved: the label trimmed, the amount `parseFloat(montant) || 0`. */
  function Clean(d: LigneRow): (r: DepenseLigne)
    ensures r.id == d.id && r.libelle == Text.Trim(d.libelle)
    ensures Decimal.ParseNumber(d.montant).Some? ==> r.montant == Decimal.ParseNumber(d.montant).value
    ensures Decimal.ParseNumber(d.montant).None? ==> r.montant == 0.0
  {
    DepenseLigne(d.id, Text.Trim(d.libelle), Decimal.ParseOrZero(d.montant))
  }

  /** A cleaned line is kept when it has a label or an amount above zero. */
  predicate Kept(d: DepenseLigne) {
    d.libelle != "" || d.montant > 0.0
  }

  /** Every line cleaned, in order. */
  function Cleaned(lignes: seq<LigneRow>): (r: seq<DepenseLigne>)
    ensures |r| == |lignes| && forall i :: 0 <= i < |lignes| ==> r[i] == Clean(lignes[i])
  {
    seq(|lignes|, i requires 0 <= i < |lignes| => Clean(lignes[i]))
  }

  /** The lines saved with the rental: the cleaned lines that are kept, in the order typed. */
  function CleanLines(lignes: seq<LigneRow>): seq<DepenseLigne> {
    Seqs.Filter(Cleaned(lignes), Kept)
  }

  /** A saved line is exactly a typed line, cleaned, that has a label or an amount above zero. */
  lemma CleanLinesMembers(lignes: seq<LigneRow>, x: DepenseLigne)
    ensures x in CleanLines(lignes) <==>
      (exists i :: 0 <= i < |lignes| && x == Clean(lignes[i])) && (x.libelle != "" || x.montant > 0.0)
  {
    Seqs.FilterMembers(Cleaned(lignes), Kept, x);
  }

  /** A line with a label that is not blank is always saved. */
  lemma LabelledLineKept(lignes: seq<LigneRow>, i: nat)
    requires i < |lignes| && !Text.Blank(lignes[i].libelle)
    ensures Clean(lignes[i]) in CleanLines(lignes)
  {
    Text.TrimEmptyIffBlank(lignes[i].libelle);
    assert Cleaned(lignes)[i] == Clean(lignes[i]);
    CleanLinesMembers(lignes, Clean(lignes[i]));
  }

  /** The saved expenses: the total of the saved lines. */
  function SavedDepenses(lignes: seq<LigneRow>): real {
    Seqs.Sum(CleanLines(lignes), ExcelExport.LigneMontant)
  }

  /** What a typed line adds to the total shown while typing: `parseFloat(montant) || 0`. */
  function TypedMontant(d: LigneRow): real {
    Decimal.ParseOrZero(d.montant)
  }

  /** The expenses shown while typing: every line's amount, kept or not. */
  function DisplayedDepenses(lignes: seq<LigneRow>): real {
    Seqs.Sum(lignes, TypedMontant)
  }

  /** The profit shown while typing: the typed total, zero when unreadable, less the shown
      expenses. */
  function DisplayedBenefice(values: map<string, string>, lignes: seq<LigneRow>): (r: real)
    ensures r + DisplayedDepenses(lignes) == Decimal.ParseOrZero(Form.Value(values, "montantTotal"))
  {
    Decimal.ParseOrZero(Form.Value(values, "montantTotal")) - DisplayedDepenses(lignes)
  }

  /** The total of the lines the clean-up drops. */
  function DroppedDepenses(lignes: seq<LigneRow>): real {
    Seqs.Sum(Seqs.Filter(Cleaned(lignes), Seqs.Not(Kept)), ExcelExport.LigneMontant)
  }

  /** The expenses shown split into the saved ones and the dropped ones. */
  lemma DisplayedSplits(lignes: seq<LigneRow>)
    ensures SavedDepenses(lignes) + DroppedDepenses(lignes) == DisplayedDepenses(lignes)
  {
    Seqs.SumFilterSplit(Cleaned(lignes), Kept, ExcelExport.LigneMontant);
    Seqs.SumPointwise(lignes, TypedMontant, Cleaned(lignes), ExcelExport.LigneMontant);
  }

  /** A dropped line has no label and no amount above zero. */
  lemma DroppedNonPositive(lignes: seq<LigneRow>)
    ensures DroppedDepenses(lignes) <= 0.0
  {
    var dropped := Seqs.Filter(Cleaned(lignes), Seqs.Not(Kept));
    forall i | 0 <= i < |dropped| ensures ExcelExport.LigneMontant(dropped[i]) <= 0.0 {
      assert Seqs.Not(Kept)(dropped[i]);
    }
    Seqs.SumNonPositive(dropped, ExcelExport.LigneMontant);
  }

  /** With no negative amount typed, the dropped lines add nothing. */
  lemma DroppedZero(lignes: seq<LigneRow>)
    requires forall i :: 0 <= i < |lignes| ==> TypedMontant(lignes[i]) >= 0.0
    ensures DroppedDepenses(lignes) == 0.0
  {
    var dropped := Seqs.Filter(Cleaned(lignes), Seqs.Not(Kept));
    forall i | 0 <= i < |dropped| ensures ExcelExport.LigneMontant(dropped[i]) >= 0.0 {
      DroppedFromTyped(lignes, dropped[i]);
    }
    Seqs.SumNonNegative(dropped, ExcelExport.LigneMontant);
    DroppedNonPositive(lignes);
  }

  /** The lines the clean-up drops carry no amount above zero, so the saved expenses are never
      below the ones shown, and the two agree when no typed amount is negative. */
  lemma SavedDepensesAgainstDisplayed(lignes: seq<LigneRow>)
    ensures SavedDepenses(lignes) >= DisplayedDepenses(lignes)
    ensures (forall i :: 0 <= i < |lignes| ==> TypedMontant(lignes[i]) >= 0.0) ==>
      SavedDepenses(lignes) == DisplayedDepenses(lignes)
  {
    DisplayedSplits(lignes);
    DroppedNonPositive(lignes);
    if forall i :: 0 <= i < |lignes| ==> TypedMontant(lignes[i]) >= 0.0 {
      DroppedZero(lignes);
    }
  }

  /** A dropped line is a typed line, cleaned. */
  lemma DroppedFromTyped(lignes: seq<LigneRow>, x: DepenseLigne)
    requires x in Seqs.Filter(Cleaned(lignes), Seqs.Not(Kept))
    requires forall i :: 0 <= i < |lignes| ==> TypedMontant(lignes[i]) >= 0.0
    ensures x.montant >= 0.0
  {
    Seqs.FilterMembers(Cleaned(lignes), Seqs.Not(Kept), x);
    var i :| 0 <= i < |lignes| && Cleaned(lignes)[i] == x;
    assert x.montant == TypedMontant(lignes[i]);
  }

  /** The delete button of a line: the line with that id goes, unless it is the only line. */
  function RemoveLine(lignes: seq<LigneRow>, id: string): (r: seq<LigneRow>)
    ensures |lignes| <= 1 ==> r == lignes
    ensures |lignes| > 1 ==> forall x :: x in r <==> x in lignes && x.id != id
  {
    if |lignes| > 1 then
      var r := Seqs.Filter(lignes, (d: LigneRow) => d.id != id);
      assert forall x :: x in r <==> x in lignes && x.id != id by {
        forall x ensures x in r <==> x in lignes && x.id != id {
          Seqs.FilterMembers(lignes, (d: LigneRow) => d.id != id, x);
        }
      }
      r
    else lignes
  }

  /** Removing a line no row carries changes nothing, and the list never becomes empty. */
  lemma RemoveLineKeepsOne(lignes: seq<LigneRow>, id: string)
    ensures |lignes| > 0 ==> |RemoveLine(lignes, id)| > 0 || forall x :: x in lignes ==> x.id == id
    ensures (forall i :: 0 <= i < |lignes| ==> lignes[i].id != id) ==> RemoveLine(lignes, id) == lignes
  {
    if |lignes| > 1 && forall i :: 0 <= i < |lignes| ==> lignes[i].id != id {
      Seqs.FilterAll(lignes, (d: LigneRow) => d.id != id);
    }
  }

  // ── The saved rental ─────────────────────────────────────

  /** The rental `onSubmit` saves: the truck reference, type and notes trimmed, the end date
      falling back on the start date, the cleaned lines with their total as the expenses. */
  function NewLocation(values: map<string, string>, lignes: seq<LigneRow>, id: string, now: int): (l: Location)
    requires Decimal.ParseNumber(Form.Value(values, "montantTotal")).Some?
    ensures l.id == id
    ensures l.referenceCamion == Text.Trim(Form.Value(values, "referenceCamion"))
    ensures l.typeCamion == Some(Text.Trim(Form.Value(values, "typeCamion")))
    ensures l.notes == Text.Trim(Form.Value(values, "notes"))
    ensures l.clientId == Some(Form.Value(values, "clientId")) && l.statut == Form.Value(values, "statut")
    ensures l.dateDebut == Form.Value(values, "dateDebut")
    ensures l.dateFin == if Form.Value(values, "dateFin") == "" then Form.Value(values, "dateDebut") else Form.Value(values, "dateFin")
    ensures l.montantTotal == Decimal.ParseNumber(Form.Value(values, "montantTotal")).value
    ensures l.depensesLignes == Some(CleanLines(lignes)) && l.depenses == Some(SavedDepenses(lignes))
    ensures l.dateCreation == Some(now)
  {
    var dateDebut := Form.Value(values, "dateDebut");
    var dateFin := Form.Value(values, "dateFin");
    Location(
      id,
      Text.Trim(Form.Value(values, "referenceCamion")),
      Some(Text.Trim(Form.Value(values, "typeCamion"))),
      Some(Form.Value(values, "clientId")),
      None, None, None,
      dateDebut,
      if dateFin == "" then dateDebut else dateFin,
      Decimal.ParseNumber(Form.Value(values, "montantTotal")).value,
      Some(CleanLines(lignes)),
      Some(SavedDepenses(lignes)),
      Form.Value(values, "statut"),
      Some(now),
      None,
      Text.Trim(Form.Value(values, "notes")))
  }

  /** The saved rental carries its expense total, so the exports and the rentals list read that
      figure and never re-add the lines; its profit is the amount less the saved expenses. */
  lemma NewLocationExported(values: map<string, string>, lignes: seq<LigneRow>, id: string, now: int)
    requires Decimal.ParseNumber(Form.Value(values, "montantTotal")).Some?
    ensures var l := NewLocation(values, lignes, id, now);
      && ExcelExport.LocationDepenses(l) == SavedDepenses(lignes)
      && ExcelExport.LocationDepenses(l) == ExcelExport.LocationDepenses(l.(depenses := None))
      && ExcelExport.LocationBenefice(l) == l.montantTotal - SavedDepenses(lignes)
  {
  }

  /** A form that passes the rental rules has a reference, a client and an amount that reads as
      a number above zero. */
  lemma ValidLocationForm(s: Form.State, st: Store.Storage)
    requires Form.Validate(s, Some(Validation.LocationRules()), st).0
    ensures !Text.Blank(Form.Value(s.values, "referenceCamion")) && !Text.Blank(Form.Value(s.values, "clientId"))
    ensures Decimal.ParseNumber(Form.Value(s.values, "montantTotal")).Some?
    ensures Decimal.ParseNumber(Form.Value(s.values, "montantTotal")).value > 0.0
  {
    var rules := Validation.LocationRules();
    Form.PassingRule(s, rules, st, "referenceCamion");
    Form.PassingRule(s, rules, st, "clientId");
    Form.PassingRule(s, rules, st, "montantTotal");
  }

  /** Submitting the form: the state after validation, and the storage after the save when
      validation passes, `None` otherwise. */
  function SubmitLocation(s: Form.State, lignes: seq<LigneRow>, st: Store.Storage, id: string, now: int): (r: (Form.State, Option<Store.Storage>))
    ensures r.0 == Form.Validate(s, Some(Validation.LocationRules()), st).1
    ensures r.1.Some? <==> Form.Validate(s, Some(Validation.LocationRules()), st).0
    ensures r.1.Some? ==>
      && Decimal.ParseNumber(Form.Value(s.values, "montantTotal")).Some?
      && r.1.value == Store.SaveLocation(st, NewLocation(s.values, lignes, id, now), now)
  {
    var (next, submitted) := Form.HandleSubmit(s, Some(Validation.LocationRules()), st);
    if submitted.Some? then
      ValidLocationForm(s, st);
      (next, Some(Store.SaveLocation(st, NewLocation(s.values, lignes, id, now), now)))
    else (next, None)
  }
}

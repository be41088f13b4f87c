/** The invoice creation page: the instalment check run before saving, the instalments and the
    invoice it builds, and the save itself. The invoice id and the clock are parameters. */
module NouvelleFacture {
  import opened Wrappers
  import opened Types
  import Seqs
  import Decimal
  import Utils
  import Store
  import Dashboard
  import ExcelExport
  import Validation
  import Form

  /** An instalment as typed in the form. */
  datatype TrancheRow = TrancheRow(montant: string, dateEcheance: string)

  /** The instalment errors; the page words them "Ajoutez au moins une tranche", "Montant
      invalide", "Date obligatoire", and a sum-mismatch message quoting both figures. */
  datatype TrancheError = NoTranche | MontantInvalide | DateObligatoire | SommeDifferente(total: real, prix: real)

  /** The form's fields, as strings. */
  datatype FactureValues = FactureValues(
    dossierId: string,
    clientId: string,
    prixTotalTTC: string,
    prixAchat: string,
    dedouanement: string,
    modePaiement: string)

  /** The form's validators. */
  function FactureRules(): map<string, Validation.Rule> {
    map[
      "dossierId" := Validation.RequiredString("Le dossier"),
      "clientId" := Validation.RequiredClientId,
      "prixTotalTTC" := Validation.PositiveNumber("Le montant"),
      "prixAchat" := Validation.OptionalNonNegativeNumber("Le prix d'achat"),
      "dedouanement" := Validation.OptionalNonNegativeNumber("Le dédouanement")]
  }

  // ── Instalment check ─────────────────────────────────────

  function Abs(x: real): real {
    if x < 0.0 then -x else x
  }

  /** The instalment error keys: `global`, and `${i}_montant` and `${i}_date` for row `i`. */
  datatype TrancheKey = Global | MontantOf(row: nat) | DateOf(row: nat)

  /** The key as the page writes it. */
  function KeyString(k: TrancheKey): string {
    match k
    case Global => "global"
    case MontantOf(i) => Decimal.NatToString(i) + "_montant"
    case DateOf(i) => Decimal.NatToString(i) + "_date"
  }

  /** Distinct keys are written differently: the three kinds end in different letters, and the
      row number is spelled in full before the suffix. */
  lemma KeyStringInjective(k: TrancheKey, l: TrancheKey)
    requires KeyString(k) == KeyString(l)
    ensures k == l
  {
    var s := KeyString(k);
    assert k.Global? ==> s[|s| - 1] == 'l';
    assert k.MontantOf? ==> s[|s| - 1] == 't' && s[..|s| - 8] == Decimal.NatToString(k.row);
    assert k.DateOf? ==> s[|s| - 1] == 'e' && s[..|s| - 5] == Decimal.NatToString(k.row);
    assert l.Global? ==> s[|s| - 1] == 'l';
    assert l.MontantOf? ==> s[|s| - 1] == 't' && s[..|s| - 8] == Decimal.NatToString(l.row);
    assert l.DateOf? ==> s[|s| - 1] == 'e' && s[..|s| - 5] == Decimal.NatToString(l.row);
    if (k.MontantOf? && l.MontantOf?) || (k.DateOf? && l.DateOf?) {
      Decimal.NatToStringInjective(k.row, l.row);
    }
  }

  /** `parseFloat(t.montant)` when it is a number above zero; `None` for a rejected amount. */
  function AmountOf(t: TrancheRow): (r: Option<real>)
    ensures r.Some? ==> r.value > 0.0 && Decimal.ParseNumber(t.montant) == r
  {
    match Decimal.ParseNumber(t.montant)
    case Some(m) => if m <= 0.0 then None else Some(m)
    case None => None
  }

  /** What a row adds to the instalment total: its amount, or nothing when it is rejected. */
  function Counted(t: TrancheRow): real {
    AmountOf(t).GetOr(0.0)
  }

  /** Every row has an amount above zero and a due date. */
  predicate RowsAccepted(rows: seq<TrancheRow>) {
    forall i :: 0 <= i < |rows| ==> AmountOf(rows[i]).Some? && rows[i].dateEcheance != ""
  }

  /** The price is a number and the accepted amounts miss it by more than a hundredth. */
  predicate SumMismatch(rows: seq<TrancheRow>, prixStr: string) {
    Decimal.ParseNumber(prixStr).Some? && Abs(Seqs.Sum(rows, Counted) - Decimal.ParseNumber(prixStr).value) > 0.01
  }

  /** The instalments are acceptable: at least one, each with an amount above zero and a due
      date, and, when the price is a number, adding up to it within a hundredth. */
  predicate TranchesAccepted(rows: seq<TrancheRow>, prixStr: string) {
    |rows| > 0 && RowsAccepted(rows) && !SumMismatch(rows, prixStr)
  }

  function OrZero(a: Option<real>): real {
    a.GetOr(0.0)
  }

  lemma OrZeroStep(amounts: seq<Option<real>>, i: nat)
    requires i < |amounts|
    ensures Seqs.Sum(amounts[..i + 1], OrZero) == Seqs.Sum(amounts[..i], OrZero) + OrZero(amounts[i])
  {
    assert amounts[..i + 1][..i] == amounts[..i];
  }

  /** The per-row pass of `validateTranches`, given each row's amount as read (`None` when it is
      rejected): an error for each rejected amount and each missing due date, and the total of
      the accepted amounts. */
  method CheckRows(rows: seq<TrancheRow>, amounts: seq<Option<real>>) returns (errs: map<TrancheKey, TrancheError>, total: real)
    requires |amounts| == |rows|
    ensures forall i :: 0 <= i < |rows| ==> (MontantOf(i) in errs <==> amounts[i].None?)
    ensures forall i :: 0 <= i < |rows| ==> (DateOf(i) in errs <==> rows[i].dateEcheance == "")
    ensures forall k :: k in errs ==> !k.Global? && k.row < |rows|
    ensures forall k :: k in errs ==> errs[k] == if k.MontantOf? then MontantInvalide else DateObligatoire
    ensures total == Seqs.Sum(amounts, OrZero)
  {
    errs := map[];
    total := 0.0;
    var i := 0;
    while i < |rows|
      invariant 0 <= i <= |rows|
      invariant total == Seqs.Sum(amounts[..i], OrZero)
      invariant forall j :: 0 <= j < i ==> (MontantOf(j) in errs <==> amounts[j].None?)
      invariant forall j :: 0 <= j < i ==> (DateOf(j) in errs <==> rows[j].dateEcheance == "")
      invariant forall k :: k in errs ==> !k.Global? && k.row < i
      invariant forall k :: k in errs ==> errs[k] == if k.MontantOf? then MontantInvalide else DateObligatoire
    {
      OrZeroStep(amounts, i);
      if amounts[i].None? {
        errs := errs[MontantOf(i) := MontantInvalide];
      } else {
        total := total + amounts[i].value;
      }
      if rows[i].dateEcheance == "" {
        errs := errs[DateOf(i) := DateObligatoire];
      }
      i := i + 1;
    }
    assert amounts[..|amounts|] == amounts;
  }

  /** `validateTranches(prix)`: no rows is the single global error; otherwise each rejected
      amount and each missing date gets an error under its row's key, the total of the accepted
      amounts is compared with the price when the price is a number, and the check passes
      exactly when no error was recorded. */
  method ValidateTranches(rows: seq<TrancheRow>, prixStr: string) returns (ok: bool, errs: map<TrancheKey, TrancheError>)
    ensures |rows| == 0 ==> errs == map[Global := NoTranche]
    ensures forall i :: 0 <= i < |rows| ==> (MontantOf(i) in errs <==> AmountOf(rows[i]).None?)
    ensures forall i :: 0 <= i < |rows| ==> (DateOf(i) in errs <==> rows[i].dateEcheance == "")
    ensures forall k :: k in errs && k.MontantOf? ==> k.row < |rows| && errs[k] == MontantInvalide
    ensures forall k :: k in errs && k.DateOf? ==> k.row < |rows| && errs[k] == DateObligatoire
    ensures |rows| > 0 ==>
      var total := Seqs.Sum(rows, Counted);
      var prix := Decimal.ParseNumber(prixStr);
      && (Global in errs <==> prix.Some? && Abs(total - prix.value) > 0.01)
      && (Global in errs ==> errs[Global] == SommeDifferente(total, prix.value))
    ensures ok <==> errs == map[]
    ensures ok <==> TranchesAccepted(rows, prixStr)
  {
    if |rows| == 0 {
      errs := map[Global := NoTranche];
      assert Global in errs;
      return false, errs;
    }
    var amounts := Amounts(rows);
    var rowErrs, total := CheckRows(rows, amounts);
    Seqs.SumPointwise(amounts, OrZero, rows, Counted);
    var prix := Decimal.ParseNumber(prixStr);
    if prix.Some? && Abs(total - prix.value) > 0.01 {
      errs := rowErrs[Global := SommeDifferente(total, prix.value)];
      GlobalKeepsRowErrors(rows, rowErrs, SommeDifferente(total, prix.value));
    } else {
      errs := rowErrs;
    }
    ok := |errs| == 0;
    ErrorsIffRejected(rows, errs);
  }

  /** Adding the global error leaves every row's errors as they were. */
  lemma GlobalKeepsRowErrors(rows: seq<TrancheRow>, errs: map<TrancheKey, TrancheError>, e: TrancheError)
    requires forall i :: 0 <= i < |rows| ==> (MontantOf(i) in errs <==> AmountOf(rows[i]).None?)
    requires forall i :: 0 <= i < |rows| ==> (DateOf(i) in errs <==> rows[i].dateEcheance == "")
    requires forall k :: k in errs ==> !k.Global? && k.row < |rows|
    requires forall k :: k in errs ==> errs[k] == if k.MontantOf? then MontantInvalide else DateObligatoire
    ensures var errs' := errs[Global := e];
      && (forall i :: 0 <= i < |rows| ==> (MontantOf(i) in errs' <==> AmountOf(rows[i]).None?))
      && (forall i :: 0 <= i < |rows| ==> (DateOf(i) in errs' <==> rows[i].dateEcheance == ""))
      && (forall k :: k in errs' && k.MontantOf? ==> k.row < |rows| && errs'[k] == MontantInvalide)
      && (forall k :: k in errs' && k.DateOf? ==> k.row < |rows| && errs'[k] == DateObligatoire)
      && (forall k :: k in errs' && !k.Global? ==> k.row < |rows|)
  {
  }

  /** Each row's amount as read. */
  function Amounts(rows: seq<TrancheRow>): (r: seq<Option<real>>)
    ensures |r| == |rows| && forall i :: 0 <= i < |rows| ==> r[i] == AmountOf(rows[i])
  {
    seq(|rows|, j requires 0 <= j < |rows| => AmountOf(rows[j]))
  }

  /** An error map keyed as the check keys it is empty exactly when every row is accepted and
      there is no global error. */
  lemma ErrorsIffRejected(rows: seq<TrancheRow>, errs: map<TrancheKey, TrancheError>)
    requires forall i :: 0 <= i < |rows| ==> (MontantOf(i) in errs <==> AmountOf(rows[i]).None?)
    requires forall i :: 0 <= i < |rows| ==> (DateOf(i) in errs <==> rows[i].dateEcheance == "")
    requires forall k :: k in errs && !k.Global? ==> k.row < |rows|
    ensures errs == map[] <==> RowsAccepted(rows) && Global !in errs
  {
    if errs != map[] {
      var k :| k in errs;
      assert k.MontantOf? ==> AmountOf(rows[k.row]).None?;
      assert k.DateOf? ==> rows[k.row].dateEcheance == "";
    } else {
      forall i | 0 <= i < |rows| ensures AmountOf(rows[i]).Some? && rows[i].dateEcheance != "" {
        assert MontantOf(i) !in errs && DateOf(i) !in errs;
      }
    }
  }

  // ── Building the invoice ─────────────────────────────────

  function TrancheMontant(t: Tranche): real {
    t.montant
  }

  /** The instalments saved with the invoice, numbered from one in the order typed, each
      awaiting payment with no payment date or mode. */
  function BuildTranches(factureId: string, rows: seq<TrancheRow>): (r: seq<Tranche>)
    ensures |r| == |rows|
    ensures forall i :: 0 <= i < |r| ==>
      && r[i].numeroTranche == i + 1 && r[i].id == Utils.GenerateTrancheId(factureId, i + 1) && r[i].factureId == factureId
      && r[i].statut == StatutTranche.EnAttente.Code()
      && r[i].datePaiement.None? && r[i].modePaiement.None?
      && r[i].dateEcheance == rows[i].dateEcheance
  {
    seq(|rows|, i requires 0 <= i < |rows| =>
      Tranche(Utils.GenerateTrancheId(factureId, i + 1), factureId, i + 1, Decimal.ParseOrZero(rows[i].montant),
        rows[i].dateEcheance, None, StatutTranche.EnAttente.Code(), None))
  }

  /** Two instalments of one invoice are numbered differently, so their ids differ. */
  lemma TrancheIdsDistinct(factureId: string, rows: seq<TrancheRow>)
    ensures var r := BuildTranches(factureId, rows);
      forall i, j :: 0 <= i < j < |r| ==> r[i].id != r[j].id
  {
    var r := BuildTranches(factureId, rows);
    forall i, j | 0 <= i < j < |r| ensures r[i].id != r[j].id {
      if r[i].id == r[j].id {
        TrancheIdInjective(factureId, i + 1, j + 1);
      }
    }
  }

  lemma TrancheIdInjective(factureId: string, n: nat, m: nat)
    requires Utils.GenerateTrancheId(factureId, n) == Utils.GenerateTrancheId(factureId, m)
    ensures n == m
  {
    Utils.TrancheIdShape(factureId, n, m);
  }

  /** When every amount is accepted, each instalment carries the amount typed for it. */
  lemma AcceptedAmountsKept(factureId: string, rows: seq<TrancheRow>)
    requires RowsAccepted(rows)
    ensures var r := BuildTranches(factureId, rows);
      forall i :: 0 <= i < |r| ==> Some(r[i].montant) == AmountOf(rows[i]) && TrancheMontant(r[i]) == Counted(rows[i])
  {
  }

  /** Once the check has passed, the instalments add up to the price within a hundredth. */
  lemma AcceptedTranchesAddUp(factureId: string, rows: seq<TrancheRow>, prixStr: string)
    requires TranchesAccepted(rows, prixStr)
    ensures Decimal.ParseNumber(prixStr).Some? ==>
      Abs(Seqs.Sum(BuildTranches(factureId, rows), TrancheMontant) - Decimal.ParseNumber(prixStr).value) <= 0.01
  {
    AcceptedAmountsKept(factureId, rows);
    Seqs.SumPointwise(rows, Counted, BuildTranches(factureId, rows), TrancheMontant);
  }

  /** The invoice `onSubmit` saves: vehicle details from the dossier, the legacy chassis number
      as the VIN, nothing paid yet, blank or unreadable costs as zero. */
  function NewFacture(vals: FactureValues, dossier: Dossier, tranches: seq<Tranche>, factureId: string, now: int): (f: Facture)
    requires Decimal.ParseNumber(vals.prixTotalTTC).Some?
    ensures f.id == factureId && f.dossierId == vals.dossierId && f.clientId == Some(vals.clientId)
    ensures f.referenceVehicule == dossier.referenceVehicule && f.typeVehicule == dossier.typeVehicule
    ensures f.vin == dossier.chassisCH.GetOr("")
    ensures f.prixTotalTTC == Decimal.ParseNumber(vals.prixTotalTTC).value
    ensures f.prixAchat == Some(Decimal.ParseOrZero(vals.prixAchat))
    ensures f.dedouanement == Some(Decimal.ParseOrZero(vals.dedouanement))
    ensures f.montantPaye == 0.0 && Dashboard.Balanced(f)
    ensures f.statut == StatutFacture.EnAttente.Code() && f.tranches == tranches && f.paiements == []
    ensures f.dateFacture == now && f.paysDestination == "" && f.modePaiement == vals.modePaiement
  {
    var prix := Decimal.ParseNumber(vals.prixTotalTTC).value;
    Facture(
      factureId, vals.dossierId, Some(vals.clientId), None, None, None, None, None,
      dossier.referenceVehicule, dossier.typeVehicule, dossier.chassisCH.GetOr(""),
      now, prix, Some(Decimal.ParseOrZero(vals.prixAchat)), Some(Decimal.ParseOrZero(vals.dedouanement)),
      None, None, 0.0, prix, vals.modePaiement, "", StatutFacture.EnAttente.Code(), tranches, [], None, None)
  }

  /** The new invoice's exported profit is its price less the typed purchase price and
      clearance cost, each read as zero when blank. */
  lemma NewFactureProfit(vals: FactureValues, dossier: Dossier, tranches: seq<Tranche>, factureId: string, now: int)
    requires Decimal.ParseNumber(vals.prixTotalTTC).Some?
    ensures ExcelExport.FactureBenefice(NewFacture(vals, dossier, tranches, factureId, now)) ==
      Decimal.ParseNumber(vals.prixTotalTTC).value - Decimal.ParseOrZero(vals.prixAchat) - Decimal.ParseOrZero(vals.dedouanement)
  {
  }

  /** `onSubmit`: with instalments, a failed check stops the submission and leaves its errors;
      an unknown dossier stops it too; otherwise the invoice is saved. The result is the
      storage after the save, `None` when nothing is saved, and the new instalment errors,
      `None` when instalments are off and the check is not run. */
  method SubmitFacture(vals: FactureValues, useTranches: bool, rows: seq<TrancheRow>, st: Store.Storage, factureId: string, now: int)
      returns (saved: Option<Store.Storage>, trancheErrs: Option<map<TrancheKey, TrancheError>>)
    requires Decimal.ParseNumber(vals.prixTotalTTC).Some?
    ensures trancheErrs.Some? <==> useTranches
    ensures saved.Some? <==>
      (!useTranches || TranchesAccepted(rows, vals.prixTotalTTC)) && Store.GetDossierById(st, vals.dossierId).Some?
    ensures saved.Some? ==>
      var tranches := if useTranches then BuildTranches(factureId, rows) else [];
      saved.value == Store.SaveFacture(st, NewFacture(vals, Store.GetDossierById(st, vals.dossierId).value, tranches, factureId, now), now)
  {
    trancheErrs := None;
    if useTranches {
      var ok, errs := ValidateTranches(rows, vals.prixTotalTTC);
      trancheErrs := Some(errs);
      if !ok {
        return None, trancheErrs;
      }
    }
    var tranches := if useTranches then BuildTranches(factureId, rows) else [];
    match Store.GetDossierById(st, vals.dossierId)
    case None =>
      saved := None;
    case Some(dossier) =>
      saved := Some(Store.SaveFacture(st, NewFacture(vals, dossier, tranches, factureId, now), now));
  }

  /** A form that passes its validators has a price that reads as a number above zero, which is
      what `onSubmit` relies on. */
  lemma ValidFormPrice(s: Form.State, st: Store.Storage)
    requires Form.Validate(s, Some(FactureRules()), st).0
    ensures Form.Field(s.values, "prixTotalTTC").Some?
    ensures Decimal.ParseNumber(s.values["prixTotalTTC"]).Some? && Decimal.ParseNumber(s.values["prixTotalTTC"]).value > 0.0
  {
    Form.PassingRule(s, FactureRules(), st, "prixTotalTTC");
  }
}

/** The field validators the forms share. Each validator of the application is a closure from a
    field value to an error message or `undefined`; here it is a `Rule` value and `Check` applies
    it, with the stored dossiers as an explicit argument where the closure reads them. A form
    value is `None` when the field is absent (`undefined`). */
module Validation {
  import opened Wrappers
  import opened Types
  import Text
  import Seqs
  import Decimal
  import Utils
  import Store

  datatype Rule =
    | RequiredString(subject: string)
    | UniqueNumeroCH(excludeId: Option<string>)
    | OptionalTelephone
    | PositiveNumber(subject: string)
    | OptionalNonNegativeNumber(subject: string)
    | RequiredClientId

  /** `requiredString(subject)`: an error for an absent value or one that trims to nothing. */
  function CheckRequired(subject: string, value: Option<string>): (r: Option<string>)
    ensures r.Some? <==> value.None? || Text.Blank(value.value)
    ensures r.Some? ==> r.value == subject + " est obligatoire"
  {
    if value.None? || value.value == "" || Text.Trim(value.value) == "" then
      Some(subject + " est obligatoire")
    else
      Text.TrimEmptyIffBlank(value.value);
      None
  }

  /** `i` indexes the first stored dossier carrying the numéro CH `ch`. */
  predicate FirstCarrier(dossiers: seq<Dossier>, ch: string, i: nat) {
    && i < |dossiers| && dossiers[i].numeroCH == ch
    && forall j :: 0 <= j < i ==> dossiers[j].numeroCH != ch
  }

  /** The first stored dossier carrying `ch` exists and is not the one being edited. */
  function Taken(excludeId: Option<string>, ch: string, st: Store.Storage): (r: bool)
    ensures r <==> exists i: nat :: FirstCarrier(st.dossiers, ch, i) && Some(st.dossiers[i].id) != excludeId
  {
    var k := Seqs.FindIndex(st.dossiers, Store.HasNumeroCH(ch));
    assert k.Some? ==> FirstCarrier(st.dossiers, ch, k.value);
    assert forall i: nat | FirstCarrier(st.dossiers, ch, i) :: k == Some(i) by {
      forall i: nat | FirstCarrier(st.dossiers, ch, i) ensures k == Some(i) {
        assert Store.HasNumeroCH(ch)(st.dossiers[i]);
      }
    }
    match Store.GetDossierByNumeroCH(st, ch)
    case Some(existing) => Some(existing.id) != excludeId
    case None => false
  }

  /** `uniqueNumeroCH(excludeId)`: the trimmed number is required, and the first stored dossier
      carrying it must be the one being edited. */
  function CheckUniqueNumeroCH(excludeId: Option<string>, value: Option<string>, st: Store.Storage): (r: Option<string>)
    ensures value.None? || Text.Blank(value.value) ==> r == Some("Le numéro CH est obligatoire")
    ensures value.Some? && !Text.Blank(value.value) ==>
      (r.Some? <==> exists i: nat :: FirstCarrier(st.dossiers, Text.Trim(value.value), i) && Some(st.dossiers[i].id) != excludeId)
    ensures r.Some? ==> r == Some("Le numéro CH est obligatoire") || r == Some("Ce numéro CH existe déjà")
  {
    if value.None? then Some("Le numéro CH est obligatoire")
    else
      var ch := Text.Trim(value.value);
      Text.TrimEmptyIffBlank(value.value);
      if ch == "" then Some("Le numéro CH est obligatoire")
      else if Taken(excludeId, ch, st) then Some("Ce numéro CH existe déjà")
      else None
  }

  /** `optionalTelephone()`: an error only for a non-empty value the phone check rejects. */
  function CheckTelephone(value: Option<string>): (r: Option<string>)
    ensures r.Some? ==> r.value == "Format de téléphone invalide"
    ensures r.None? <==> value.None? || value.value == "" || Utils.ValidateTelephone(value.value)
  {
    if value.Some? && value.value != "" && !Utils.ValidateTelephone(value.value) then
      Some("Format de téléphone invalide")
    else None
  }

  /** `positiveNumber(subject)`: an error unless the value parses to a number above zero. */
  function CheckPositive(subject: string, value: Option<string>): (r: Option<string>)
    ensures r.None? <==> value.Some? && Decimal.ParseNumber(value.value).Some? && Decimal.ParseNumber(value.value).value > 0.0
    ensures r.Some? ==> r.value == subject + " invalide"
  {
    if value.None? then Some(subject + " invalide")
    else
      match Decimal.ParseNumber(value.value)
      case None => Some(subject + " invalide")
      case Some(n) => if n <= 0.0 then Some(subject + " invalide") else None
  }

  /** `optionalNonNegativeNumber(subject)`: a blank value passes; otherwise an error unless the
      trimmed value parses to a number that is not negative. */
  function CheckNonNegative(subject: string, value: Option<string>): (r: Option<string>)
    ensures value.None? || Text.Blank(value.value) ==> r.None?
    ensures value.Some? && !Text.Blank(value.value) ==>
      (r.None? <==> Decimal.ParseNumber(Text.Trim(value.value)).Some? && Decimal.ParseNumber(Text.Trim(value.value)).value >= 0.0)
    ensures r.Some? ==> r.value == subject + " invalide"
  {
    if value.None? then None
    else
      var s := Text.Trim(value.value);
      Text.TrimEmptyIffBlank(value.value);
      if s == "" then None
      else
        match Decimal.ParseNumber(s)
        case None => Some(subject + " invalide")
        case Some(n) => if n < 0.0 then Some(subject + " invalide") else None
  }

  /** `requiredClientId()`: as a required string, with its own message. */
  function CheckClientId(value: Option<string>): (r: Option<string>)
    ensures r.Some? <==> value.None? || Text.Blank(value.value)
    ensures r.Some? ==> r.value == "Le client est obligatoire"
  {
    if value.None? || value.value == "" || Text.Trim(value.value) == "" then
      Some("Le client est obligatoire")
    else
      Text.TrimEmptyIffBlank(value.value);
      None
  }

  /** A validator applied to a field value: `None` is `undefined`, the field is valid. Every
      message is non-empty, so a failed check always registers as an error. */
  function Check(rule: Rule, value: Option<string>, st: Store.Storage): (r: Option<string>)
    ensures r.Some? ==> r.value != ""
  {
    match rule
    case RequiredString(subject) => CheckRequired(subject, value)
    case UniqueNumeroCH(excludeId) => CheckUniqueNumeroCH(excludeId, value, st)
    case OptionalTelephone => CheckTelephone(value)
    case PositiveNumber(subject) => CheckPositive(subject, value)
    case OptionalNonNegativeNumber(subject) => CheckNonNegative(subject, value)
    case RequiredClientId => CheckClientId(value)
  }

  /** `dossierRules(excludeId)`. */
  function DossierRules(excludeId: Option<string>): map<string, Rule> {
    map[
      "numeroCH" := UniqueNumeroCH(excludeId),
      "referenceVehicule" := RequiredString("La référence véhicule"),
      "clientId" := RequiredClientId]
  }

  /** `locationRules()`. */
  function LocationRules(): map<string, Rule> {
    map[
      "referenceCamion" := RequiredString("La référence camion"),
      "clientId" := RequiredClientId,
      "montantTotal" := PositiveNumber("Le montant")]
  }

  /** With numéros CH unique in storage, the number check fails exactly for a blank number or
      one another dossier already carries. */
  lemma UniqueNumeroCHIff(excludeId: Option<string>, value: string, st: Store.Storage)
    requires Store.UniqueCH(st.dossiers)
    ensures CheckUniqueNumeroCH(excludeId, Some(value), st).Some? <==>
      Text.Blank(value) || exists i :: 0 <= i < |st.dossiers| && st.dossiers[i].numeroCH == Text.Trim(value) && Some(st.dossiers[i].id) != excludeId
  {
    if !Text.Blank(value) {
      var ch := Text.Trim(value);
      if i :| 0 <= i < |st.dossiers| && st.dossiers[i].numeroCH == ch && Some(st.dossiers[i].id) != excludeId {
        forall j | 0 <= j < i
          ensures st.dossiers[j].numeroCH != ch
        {
          assert st.dossiers[j].numeroCH != st.dossiers[i].numeroCH;
        }
      }
    }
  }

  /** A new dossier (no id excluded) conflicts with every stored dossier carrying its number;
      the dossier being edited never conflicts with itself. */
  lemma NumeroCHConflicts(value: string, st: Store.Storage, k: nat)
    requires Store.UniqueCH(st.dossiers)
    requires !Text.Blank(value) && k < |st.dossiers| && st.dossiers[k].numeroCH == Text.Trim(value)
    ensures CheckUniqueNumeroCH(None, Some(value), st) == Some("Ce numéro CH existe déjà")
    ensures CheckUniqueNumeroCH(Some(st.dossiers[k].id), Some(value), st).None?
  {
    UniqueNumeroCHIff(None, value, st);
    UniqueNumeroCHIff(Some(st.dossiers[k].id), value, st);
    forall i | 0 <= i < |st.dossiers| && st.dossiers[i].numeroCH == Text.Trim(value)
      ensures i == k
    {
      SameCHSameIndex(st.dossiers, i, k);
    }
  }

  /** For a new dossier, the number check passes exactly when the trimmed number is not blank
      and no stored dossier carries it. */
  lemma NewNumeroCHFree(value: Option<string>, st: Store.Storage)
    ensures CheckUniqueNumeroCH(None, value, st).None? <==>
      value.Some? && !Text.Blank(value.value)
      && forall i :: 0 <= i < |st.dossiers| ==> st.dossiers[i].numeroCH != Text.Trim(value.value)
  {
    if value.Some? && !Text.Blank(value.value) {
      var n := Text.Trim(value.value);
      var k := Seqs.FindIndex(st.dossiers, Store.HasNumeroCH(n));
      if k.Some? {
        assert FirstCarrier(st.dossiers, n, k.value);
      } else {
        forall i | 0 <= i < |st.dossiers| ensures st.dossiers[i].numeroCH != n {
          assert !Store.HasNumeroCH(n)(st.dossiers[i]);
        }
      }
    }
  }

  /** Under unique numéros CH, two dossiers carrying the same number are the same entry. */
  lemma SameCHSameIndex(dossiers: seq<Dossier>, i: nat, k: nat)
    requires Store.UniqueCH(dossiers)
    requires i < |dossiers| && k < |dossiers| && dossiers[i].numeroCH == dossiers[k].numeroCH
    ensures i == k
  {
  }

  /** An amount typed as a plain natural number is a valid positive amount exactly when it is
      not zero. */
  lemma NaturalAmountPositive(subject: string, n: nat)
    ensures CheckPositive(subject, Some(Decimal.NatToString(n))).None? <==> n > 0
  {
    Decimal.ParseNumberOfNat(n);
  }

  /** An amount typed as a plain natural number is always a valid non-negative amount. */
  lemma NaturalAmountNonNegative(subject: string, n: nat)
    ensures CheckNonNegative(subject, Some(Decimal.NatToString(n))).None?
  {
    var s := Decimal.NatToString(n);
    Decimal.ParseNumberOfNat(n);
    Decimal.TrimOfDigits(s);
    assert !Text.IsSpace(s[0]);
  }
}

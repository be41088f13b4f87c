/** The dossier creation page: its initial values, the dossier `onSubmit` builds from the form,
    and the save. The dossier id and the clock are parameters. */
module NouveauDossier {
  import opened Wrappers
  import opened Types
  import Text
  import Seqs
  import Store
  import Validation
  import Form

  /** `INITIAL`: every field empty and the status `Lance`. */
  function Initial(): (r: map<string, string>)
    ensures Form.Value(r, "statut") == StatutDossier.Lance.Code()
    ensures forall k :: k in r && k != "statut" ==> r[k] == ""
  {
    map[
      "numeroCH" := "", "chassisCH" := "", "annee" := "", "referenceVehicule" := "",
      "typeVehicule" := "", "clientId" := "", "statut" := StatutDossier.Lance.Code(), "notes" := ""]
  }

  /** The dossier `onSubmit` saves: every text field trimmed except the client, which is copied
      with the status; created now, with no legacy client fields. */
  function NewDossier(values: map<string, string>, id: string, now: int): (d: Dossier)
    ensures d.id == id
    ensures d.numeroCH == Text.Trim(Form.Value(values, "numeroCH"))
    ensures d.chassisCH == Some(Text.Trim(Form.Value(values, "chassisCH")))
    ensures d.annee == Some(Text.Trim(Form.Value(values, "annee")))
    ensures d.referenceVehicule == Text.Trim(Form.Value(values, "referenceVehicule"))
    ensures d.typeVehicule == Text.Trim(Form.Value(values, "typeVehicule"))
    ensures d.notes == Text.Trim(Form.Value(values, "notes"))
    ensures d.clientId == Some(Form.Value(values, "clientId")) && d.statut == Form.Value(values, "statut")
    ensures d.dateCreation == Some(now) && d.dateModification.None?
    ensures d.nomClient.None? && d.prenomClient.None? && d.telephoneClient.None?
  {
    Dossier(
      id,
      Text.Trim(Form.Value(values, "numeroCH")),
      Some(Text.Trim(Form.Value(values, "chassisCH"))),
      Some(Text.Trim(Form.Value(values, "annee"))),
      Text.Trim(Form.Value(values, "referenceVehicule")),
      Text.Trim(Form.Value(values, "typeVehicule")),
      Some(Form.Value(values, "clientId")),
      Form.Value(values, "statut"),
      Some(now),
      None,
      Text.Trim(Form.Value(values, "notes")),
      None, None, None)
  }

  /** Submitting the form: the state after validation with `dossierRules()` and no excluded id,
      and the storage after the save when validation passes, `None` otherwise. */
  function SubmitDossier(s: Form.State, st: Store.Storage, id: string, now: int): (r: (Form.State, Option<Store.Storage>))
    ensures r.0 == Form.Validate(s, Some(Validation.DossierRules(None)), st).1
    ensures r.1.Some? <==> Form.Validate(s, Some(Validation.DossierRules(None)), st).0
    ensures r.1.Some? ==> r.1.value == Store.SaveDossier(st, NewDossier(s.values, id, now), now)
  {
    var (next, submitted) := Form.HandleSubmit(s, Some(Validation.DossierRules(None)), st);
    (next, if submitted.Some? then Some(Store.SaveDossier(st, NewDossier(s.values, id, now), now)) else None)
  }

  /** A submitted dossier carries a numéro CH and a vehicle reference that are not empty, and a
      numéro CH no stored dossier carried. */
  lemma SubmittedDossierFields(s: Form.State, st: Store.Storage, id: string, now: int)
    requires SubmitDossier(s, st, id, now).1.Some?
    ensures var d := NewDossier(s.values, id, now);
      && d.numeroCH != "" && d.referenceVehicule != "" && d.clientId != Some("")
      && forall i :: 0 <= i < |st.dossiers| ==> st.dossiers[i].numeroCH != d.numeroCH
  {
    Form.NewDossierValid(s, st);
    Text.TrimEmptyIffBlank(s.values["numeroCH"]);
    Text.TrimEmptyIffBlank(s.values["referenceVehicule"]);
  }

  /** Creating a dossier under a new id keeps the numéros CH of storage unique: the dossier
      goes at the end and its number is new. */
  lemma SubmitKeepsChUnique(s: Form.State, st: Store.Storage, id: string, now: int)
    requires Store.UniqueCH(st.dossiers)
    requires !Seqs.Any(st.dossiers, Store.HasId(Store.DossierId, id))
    requires SubmitDossier(s, st, id, now).1.Some?
    ensures var saved := SubmitDossier(s, st, id, now).1.value.dossiers;
      && |saved| == |st.dossiers| + 1 && saved[..|st.dossiers|] == st.dossiers
      && Store.UniqueCH(saved)
  {
    var d := NewDossier(s.values, id, now);
    var stamped := d.(dateModification := Some(now), dateCreation := Store.Created(d.dateCreation, now));
    SubmittedDossierFields(s, st, id, now);
    Store.SaveNewDossierAppends(st, d, now);
    Store.AppendKeepsChUnique(st.dossiers, stamped);
    assert (st.dossiers + [stamped])[..|st.dossiers|] == st.dossiers;
  }
}

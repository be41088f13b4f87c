/** The client creation page: its rules, the client `onSubmit` builds from the form, and the
    save. The client id and the clock are parameters. */
module NouveauClient {
  import opened Wrappers
  import opened Types
  import Text
  import Utils
  import Store
  import Validation
  import Form

  /** `INITIAL`: every field empty. */
  function Initial(): (r: map<string, string>)
    ensures forall k :: k in r ==> r[k] == ""
    ensures "nom" in r && "prenom" in r && "telephone" in r && "email" in r && "adresse" in r
  {
    map["nom" := "", "prenom" := "", "telephone" := "", "email" := "", "adresse" := ""]
  }

  /** The form's validators: the name and first name are required, the telephone optional. */
  function ClientRules(): map<string, Validation.Rule> {
    map[
      "nom" := Validation.RequiredString("Le nom"),
      "prenom" := Validation.RequiredString("Le prénom"),
      "telephone" := Validation.OptionalTelephone]
  }

  /** `value?.trim() || undefined`: absent when the field is absent or trims to nothing. */
  function TrimmedOrAbsent(value: Option<string>): (r: Option<string>)
    ensures r.None? <==> value.None? || Text.Blank(value.value)
    ensures r.Some? ==> r.value == Text.Trim(value.value) && r.value != ""
  {
    match value
    case None => None
    case Some(v) =>
      Text.TrimEmptyIffBlank(v);
      if Text.Trim(v) == "" then None else Some(Text.Trim(v))
  }

  /** The client `onSubmit` saves: name, first name and telephone trimmed, email and address
      absent when blank; the creation date is left to the save. */
  function NewClient(values: map<string, string>, id: string): (c: Client)
    ensures c.id == id
    ensures c.nom == Text.Trim(Form.Value(values, "nom")) && c.prenom == Text.Trim(Form.Value(values, "prenom"))
    ensures c.telephone == Text.Trim(Form.Value(values, "telephone"))
    ensures c.email == TrimmedOrAbsent(Form.Field(values, "email"))
    ensures c.adresse == TrimmedOrAbsent(Form.Field(values, "adresse"))
    ensures c.dateCreation.None? && c.dateModification.None?
  {
    Client(
      id,
      Text.Trim(Form.Value(values, "nom")),
      Text.Trim(Form.Value(values, "prenom")),
      Text.Trim(Form.Value(values, "telephone")),
      TrimmedOrAbsent(Form.Field(values, "email")),
      TrimmedOrAbsent(Form.Field(values, "adresse")),
      None,
      None)
  }

  /** Submitting the form: the state after validation, and the storage after the save when
      validation passes, `None` otherwise. */
  function SubmitClient(s: Form.State, st: Store.Storage, id: string, now: int): (r: (Form.State, Option<Store.Storage>))
    ensures r.0 == Form.Validate(s, Some(ClientRules()), st).1
    ensures r.1.Some? <==> Form.Validate(s, Some(ClientRules()), st).0
    ensures r.1.Some? ==> r.1.value == Store.SaveClient(st, NewClient(s.values, id), now)
  {
    var (next, submitted) := Form.HandleSubmit(s, Some(ClientRules()), st);
    (next, if submitted.Some? then Some(Store.SaveClient(st, NewClient(s.values, id), now)) else None)
  }

  /** The client form passes exactly when the name and the first name are not blank and the
      telephone, read as empty when absent, passes the phone check. */
  lemma ValidClientForm(s: Form.State, st: Store.Storage)
    ensures Form.Validate(s, Some(ClientRules()), st).0 <==>
      && !Text.Blank(Form.Value(s.values, "nom")) && !Text.Blank(Form.Value(s.values, "prenom"))
      && Utils.ValidateTelephone(Form.Value(s.values, "telephone"))
  {
    var rules := ClientRules();
    Form.ThreeRules(s, rules, st, "nom", "prenom", "telephone");
    assert Form.Failure(rules, s.values, "nom", st) == Validation.CheckRequired("Le nom", Form.Field(s.values, "nom"));
    assert Form.Failure(rules, s.values, "prenom", st) == Validation.CheckRequired("Le prénom", Form.Field(s.values, "prenom"));
    assert Form.Failure(rules, s.values, "telephone", st) == Validation.CheckTelephone(Form.Field(s.values, "telephone"));
  }

  /** A submitted client has a name and a first name, and a telephone that is empty or passes
      the phone check even after trimming. */
  lemma SubmittedClientFields(s: Form.State, st: Store.Storage, id: string, now: int)
    requires SubmitClient(s, st, id, now).1.Some?
    ensures var c := NewClient(s.values, id);
      c.nom != "" && c.prenom != "" && Utils.ValidateTelephone(c.telephone)
  {
    ValidClientForm(s, st);
    Text.TrimEmptyIffBlank(Form.Value(s.values, "nom"));
    Text.TrimEmptyIffBlank(Form.Value(s.values, "prenom"));
    Utils.TrimmedTelephoneValid(Form.Value(s.values, "telephone"));
  }
}

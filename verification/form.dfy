/** The form hook shared by the creation pages, as a state machine over the field values and the
    error messages, both keyed by field name. Validation rules are `Validation.Rule` values; the
    stored dossiers the numéro CH rule reads are an explicit argument. */
module Form {
  import opened Wrappers
  import Text
  import Store
  import Validation

  datatype State = State(values: map<string, string>, errors: map<string, string>)

  /** The hook's first state: the initial values and no errors. */
  function Init(initial: map<string, string>): State {
    State(initial, map[])
  }

  /** `values[name]`: `None` for a field the values do not hold (`undefined`). */
  function Field(values: map<string, string>, name: string): Option<string> {
    if name in values then Some(values[name]) else None
  }

  /** `values[name]` as the pages read it on submission: every field is in their initial
      values, so a missing one reads as empty. */
  function Value(values: map<string, string>, name: string): string {
    Field(values, name).GetOr("")
  }

  /** `setValue(name, value)`: the field takes the value, and its error is dropped when it holds
      a message (an empty message is falsy and stays). Every other field and error is kept. */
  function SetValue(s: State, name: string, value: string): (r: State)
    ensures Field(r.values, name) == Some(value)
    ensures forall k :: k != name ==> Field(r.values, k) == Field(s.values, k)
    ensures forall k :: k != name ==> Field(r.errors, k) == Field(s.errors, k)
    ensures Field(r.errors, name) == None || Field(r.errors, name) == Some("")
    ensures Field(r.errors, name) == Some("") <==> Field(s.errors, name) == Some("")
  {
    var errors := if name in s.errors && s.errors[name] != "" then s.errors - {name} else s.errors;
    State(s.values[name := value], errors)
  }

  /** `reset(data)`: the values become `data`, or the initial values without it, and every
      error is cleared. */
  function Reset(initial: map<string, string>, data: Option<map<string, string>>): (r: State)
    ensures data.None? ==> r == Init(initial)
    ensures data.Some? ==> r.values == data.value
    ensures r.errors == map[]
  {
    State(data.GetOr(initial), map[])
  }

  /** The message a rule gives the current value of its field, `None` when it passes. */
  function Failure(rules: map<string, Validation.Rule>, values: map<string, string>, k: string, st: Store.Storage): Option<string>
    requires k in rules
  {
    Validation.Check(rules[k], Field(values, k), st)
  }

  /** `validate()`: without rules the form is valid and nothing changes; with rules, the errors
      become exactly the messages of the failing rules and the form is valid when none fails.
      The values are never touched. */
  function Validate(s: State, rules: Option<map<string, Validation.Rule>>, st: Store.Storage): (r: (bool, State))
    ensures rules.None? ==> r == (true, s)
    ensures r.1.values == s.values
    ensures rules.Some? ==> forall k :: k in r.1.errors <==> k in rules.value && Failure(rules.value, s.values, k, st).Some?
    ensures rules.Some? ==> forall k :: k in r.1.errors ==> Some(r.1.errors[k]) == Failure(rules.value, s.values, k, st)
    ensures rules.Some? ==> forall k :: k in r.1.errors ==> r.1.errors[k] != ""
    ensures r.0 <==> rules.None? || forall k :: k in rules.value ==> Failure(rules.value, s.values, k, st).None?
  {
    match rules
    case None => (true, s)
    case Some(rs) =>
      var errs := map k | k in rs && Failure(rs, s.values, k, st).Some? :: Failure(rs, s.values, k, st).value;
      assert forall k :: k in rs && Failure(rs, s.values, k, st).Some? ==> k in errs;
      (errs == map[], State(s.values, errs))
  }

  /** `handleSubmit`: the state after validation, and the values handed to `onSubmit`, which is
      called exactly when validation succeeds. */
  function HandleSubmit(s: State, rules: Option<map<string, Validation.Rule>>, st: Store.Storage): (r: (State, Option<map<string, string>>))
    ensures r.1.Some? <==> Validate(s, rules, st).0
    ensures r.1.Some? ==> r.1.value == s.values
    ensures r.0 == Validate(s, rules, st).1
  {
    var (ok, next) := Validate(s, rules, st);
    (next, if ok then Some(s.values) else None)
  }

  /** Validating twice changes nothing more: the second pass reads the same values and finds the
      same errors. */
  lemma ValidateIdempotent(s: State, rules: Option<map<string, Validation.Rule>>, st: Store.Storage)
    ensures Validate(Validate(s, rules, st).1, rules, st) == Validate(s, rules, st)
  {
    if rules.Some? {
      var once := Validate(s, rules, st).1;
      var twice := Validate(once, rules, st).1;
      assert twice.errors.Keys == once.errors.Keys;
      assert twice.errors == once.errors;
    }
  }

  /** Editing a field after a failed validation clears that field's message and keeps every
      other one, and a field that was valid stays free of errors until the next validation. */
  lemma EditClearsOnlyThatError(s: State, rules: map<string, Validation.Rule>, st: Store.Storage, name: string, value: string)
    ensures var after := SetValue(Validate(s, Some(rules), st).1, name, value);
      && name !in after.errors
      && forall k :: k != name ==> (k in after.errors <==> k in rules && Failure(rules, s.values, k, st).Some?)
  {
  }

  /** In a valid form, each rule passes on its field. */
  lemma PassingRule(s: State, rules: map<string, Validation.Rule>, st: Store.Storage, k: string)
    requires Validate(s, Some(rules), st).0 && k in rules
    ensures Validation.Check(rules[k], Field(s.values, k), st).None?
  {
  }

  /** A form with three rules is valid exactly when each of the three passes. */
  lemma ThreeRules(s: State, rules: map<string, Validation.Rule>, st: Store.Storage, a: string, b: string, c: string)
    requires rules.Keys == {a, b, c}
    ensures Validate(s, Some(rules), st).0 <==>
      Failure(rules, s.values, a, st).None? && Failure(rules, s.values, b, st).None? && Failure(rules, s.values, c, st).None?
  {
  }

  /** The dossier form passes exactly when its three checks do. */
  lemma DossierRulesChecks(s: State, excludeId: Option<string>, st: Store.Storage)
    ensures Validate(s, Some(Validation.DossierRules(excludeId)), st).0 <==>
      && Validation.CheckUniqueNumeroCH(excludeId, Field(s.values, "numeroCH"), st).None?
      && Validation.CheckRequired("La référence véhicule", Field(s.values, "referenceVehicule")).None?
      && Validation.CheckClientId(Field(s.values, "clientId")).None?
  {
    var rules := Validation.DossierRules(excludeId);
    ThreeRules(s, rules, st, "numeroCH", "referenceVehicule", "clientId");
    assert Failure(rules, s.values, "numeroCH", st) == Validation.CheckUniqueNumeroCH(excludeId, Field(s.values, "numeroCH"), st);
    assert Failure(rules, s.values, "referenceVehicule", st) == Validation.CheckRequired("La référence véhicule", Field(s.values, "referenceVehicule"));
    assert Failure(rules, s.values, "clientId", st) == Validation.CheckClientId(Field(s.values, "clientId"));
  }

  /** A new dossier (no id excluded) is valid exactly when its trimmed numéro CH is not blank
      and no stored dossier carries it, and the vehicle reference and the client are both filled
      in. */
  lemma NewDossierValid(s: State, st: Store.Storage)
    ensures Validate(s, Some(Validation.DossierRules(None)), st).0 <==>
      && Field(s.values, "numeroCH").Some? && !Text.Blank(s.values["numeroCH"])
      && (forall i :: 0 <= i < |st.dossiers| ==> st.dossiers[i].numeroCH != Text.Trim(s.values["numeroCH"]))
      && Field(s.values, "referenceVehicule").Some? && !Text.Blank(s.values["referenceVehicule"])
      && Field(s.values, "clientId").Some? && !Text.Blank(s.values["clientId"])
  {
    DossierRulesChecks(s, None, st);
    Validation.NewNumeroCHFree(Field(s.values, "numeroCH"), st);
  }
}

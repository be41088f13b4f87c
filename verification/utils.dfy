/** Pure helpers of the application: profit, instalment ids, phone validation, the display
    labels of the enumerations and the integer branch of the PDF amount format. */
module Utils {
  import opened Wrappers
  import opened Types
  import Text
  import Seqs
  import Decimal

  // ── Profit ───────────────────────────────────────────────

  /** Profit is the sale price less the purchase price and the expenses. */
  function CalculerBenefice(prixTotalTTC: real, prixAchat: real, depenses: real): (r: real)
    ensures r + prixAchat + depenses == prixTotalTTC
  {
    prixTotalTTC - prixAchat - depenses
  }

  // ── Instalment ids ───────────────────────────────────────

  /** The instalment number, zero-padded to two digits. */
  function TrancheSuffix(numero: nat): (r: string)
    ensures |r| >= 2 && Decimal.AllDigits(r)
  {
    Decimal.PadStart(Decimal.NatToString(numero), 2, '0')
  }

  /** `<factureId>_T<numero padded to two digits>`. */
  function GenerateTrancheId(factureId: string, numero: nat): string {
    factureId + "_T" + TrancheSuffix(numero)
  }

  /** Reading the padded suffix back in base ten gives the instalment number. */
  lemma TrancheSuffixValue(numero: nat)
    ensures Decimal.DigitsValue(TrancheSuffix(numero)) == numero
  {
    var d := Decimal.NatToString(numero);
    Decimal.NatToStringRoundTrip(numero);
    if |d| < 2 {
      assert TrancheSuffix(numero) == "0" + d;
      Decimal.LeadingZero(d);
    }
  }

  /** An instalment id is the invoice id, then `_T`, then at least two digits spelling the
      instalment number; so two instalments of one invoice get the same id only if they have
      the same number. */
  lemma TrancheIdShape(factureId: string, numero: nat, other: nat)
    ensures var id := GenerateTrancheId(factureId, numero);
      && |id| >= |factureId| + 4
      && id[..|factureId|] == factureId
      && id[|factureId|..|factureId| + 2] == "_T"
      && Decimal.AllDigits(id[|factureId| + 2..])
      && Decimal.DigitsValue(id[|factureId| + 2..]) == numero
    ensures GenerateTrancheId(factureId, numero) == GenerateTrancheId(factureId, other) ==> numero == other
  {
    var id := GenerateTrancheId(factureId, numero);
    assert id[|factureId| + 2..] == TrancheSuffix(numero);
    TrancheSuffixValue(numero);
    if GenerateTrancheId(factureId, numero) == GenerateTrancheId(factureId, other) {
      assert GenerateTrancheId(factureId, other)[|factureId| + 2..] == TrancheSuffix(other);
      TrancheSuffixValue(other);
    }
  }

  // ── Phone numbers ────────────────────────────────────────

  /** Characters removed before the phone pattern is matched: `\s`, `-`, `.`, `(`, `)`. */
  predicate IsPhoneSeparator(c: char) {
    Text.IsSpace(c) || c == '-' || c == '.' || c == '(' || c == ')'
  }

  predicate KeptInPhone(c: char) {
    !IsPhoneSeparator(c)
  }

  function CleanTelephone(tel: string): string {
    Seqs.Filter(tel, KeptInPhone)
  }

  /** `^\+?[0-9]{8,15}$`. */
  predicate MatchesPhonePattern(s: string) {
    var digits := if |s| > 0 && s[0] == '+' then s[1..] else s;
    Decimal.AllDigits(digits) && 8 <= |digits| <= 15
  }

  /** The empty string is accepted; otherwise the separators are removed and what is left must
      be an optional `+` followed by 8 to 15 digits. */
  function ValidateTelephone(tel: string): (ok: bool)
    ensures tel == "" ==> ok
    ensures tel != "" ==> (ok <==> MatchesPhonePattern(CleanTelephone(tel)))
    ensures ok && tel != "" ==> 8 <= |CleanTelephone(tel)| <= 16
    ensures (forall i :: 0 <= i < |tel| ==> !Decimal.IsDigit(tel[i])) ==> (ok <==> tel == "")
  {
    if tel == "" then true
    else
      var cleaned := CleanTelephone(tel);
      assert forall i :: 0 <= i < |cleaned| ==> cleaned[i] in tel by {
        forall i | 0 <= i < |cleaned| ensures cleaned[i] in tel {
          Seqs.FilterMembers(tel, KeptInPhone, cleaned[i]);
        }
      }
      MatchesPhonePattern(cleaned)
  }

  /** A number written as plain digits, with or without a leading `+`, passes exactly when it
      has 8 to 15 digits. */
  lemma PlainNumberValid(plus: bool, digits: string)
    requires |digits| > 0 && Decimal.AllDigits(digits)
    ensures ValidateTelephone((if plus then "+" else "") + digits) <==> 8 <= |digits| <= 15
  {
    var tel := (if plus then "+" else "") + digits;
    PlainNumberClean(plus, digits);
    if plus {
      assert tel[1..] == digits;
    } else {
      assert tel == digits;
    }
  }

  /** Digits and a leading `+` are not separators, so cleaning leaves such a number as it is. */
  lemma PlainNumberClean(plus: bool, digits: string)
    requires Decimal.AllDigits(digits)
    ensures var tel := (if plus then "+" else "") + digits; CleanTelephone(tel) == tel
  {
    var tel := (if plus then "+" else "") + digits;
    forall i | 0 <= i < |tel| ensures KeptInPhone(tel[i]) {
      var c := tel[i];
      assert c == '+' || Decimal.IsDigit(c);
      DigitOrPlusKept(c);
    }
    Seqs.FilterAll(tel, KeptInPhone);
  }

  lemma DigitOrPlusKept(c: char)
    requires c == '+' || Decimal.IsDigit(c)
    ensures KeptInPhone(c)
  {
  }

  /** A character that is neither a digit, a separator nor a leading `+` makes a number fail. */
  lemma StrayCharacterFails(tel: string, i: nat)
    requires i < |tel| && !Decimal.IsDigit(tel[i]) && !IsPhoneSeparator(tel[i])
    requires tel[i] != '+'
    ensures !ValidateTelephone(tel)
  {
    var cleaned := CleanTelephone(tel);
    Seqs.FilterMembers(tel, KeptInPhone, tel[i]);
    var j :| 0 <= j < |cleaned| && cleaned[j] == tel[i];
    if |cleaned| > 0 && cleaned[0] == '+' {
      assert cleaned[1..][j - 1] == tel[i];
    }
  }

  /** Removing the separators ignores a separator inserted anywhere. */
  lemma CleanIgnoresSeparator(a: string, b: string, sep: char)
    requires IsPhoneSeparator(sep)
    ensures CleanTelephone(a + [sep] + b) == CleanTelephone(a + b)
  {
    Seqs.FilterAppend(a + [sep], b, KeptInPhone);
    Seqs.FilterAppend(a, [sep], KeptInPhone);
    Seqs.FilterAppend(a, b, KeptInPhone);
    Seqs.FilterRejected(sep, KeptInPhone);
  }

  /** Separators can be inserted anywhere in a non-empty number without changing the verdict. */
  lemma PhoneSeparatorsIgnored(a: string, b: string, sep: char)
    requires IsPhoneSeparator(sep) && a + b != ""
    ensures ValidateTelephone(a + [sep] + b) == ValidateTelephone(a + b)
  {
    CleanIgnoresSeparator(a, b, sep);
    assert a + [sep] + b != "";
  }

  /** Whitespace alone leaves nothing once the separators are removed. */
  lemma CleanBlank(s: string)
    requires Text.Blank(s)
    ensures CleanTelephone(s) == []
  {
    Seqs.FilterNone(s, KeptInPhone);
  }

  /** Whitespace before or after a number changes nothing once the separators are removed. */
  lemma CleanAroundBlank(a: string, b: string)
    ensures Text.Blank(a) ==> CleanTelephone(a + b) == CleanTelephone(b)
    ensures Text.Blank(b) ==> CleanTelephone(a + b) == CleanTelephone(a)
  {
    Seqs.FilterAppend(a, b, KeptInPhone);
    if Text.Blank(a) {
      CleanBlank(a);
    }
    if Text.Blank(b) {
      CleanBlank(b);
    }
  }

  lemma CleanTrimStart(v: string)
    ensures CleanTelephone(Text.TrimStart(v)) == CleanTelephone(v)
  {
    var t := Text.TrimStart(v);
    var lead := v[..|v| - |t|];
    assert v == lead + t;
    CleanAroundBlank(lead, t);
  }

  lemma CleanTrimEnd(t: string)
    ensures CleanTelephone(Text.TrimEnd(t)) == CleanTelephone(t)
  {
    var u := Text.TrimEnd(t);
    var trail := t[|u|..];
    assert t == u + trail;
    CleanAroundBlank(u, trail);
  }

  /** Trimming a number removes only separators, so the cleaned number is the same. */
  lemma CleanTelephoneTrim(v: string)
    ensures CleanTelephone(Text.Trim(v)) == CleanTelephone(v)
  {
    CleanTrimStart(v);
    CleanTrimEnd(Text.TrimStart(v));
  }

  /** A number that passes the check still passes once trimmed. */
  lemma TrimmedTelephoneValid(v: string)
    requires ValidateTelephone(v)
    ensures ValidateTelephone(Text.Trim(v))
  {
    CleanTelephoneTrim(v);
  }

  // ── Labels ───────────────────────────────────────────────

  function DossierLabel(st: StatutDossier): string {
    match st
    case Lance => "Lancé"
    case ProvisoireEntree => "Provisoire (Entrée)"
    case ProvisoireSortie => "Provisoire (Sortie)"
    case CarteGriseEntree => "Carte grise (Entrée)"
    case CarteGriseSortie => "Carte grise (Sortie)"
  }

  function FactureLabel(st: StatutFacture): string {
    match st
    case EnAttente => "En attente"
    case PartiellementPayee => "Partiellement payée"
    case Soldee => "Soldée"
  }

  function TrancheLabel(st: StatutTranche): string {
    match st
    case EnAttente => "En attente"
    case Payee => "Payée"
    case EnRetard => "En retard"
  }

  function LocationLabel(st: StatutLocation): string {
    match st
    case EnCours => "En cours"
    case Terminee => "Terminée"
    case Annulee => "Annulée"
  }

  function PaiementLabel(m: ModePaiement): string {
    match m
    case Especes => "Espèces"
    case Virement => "Virement bancaire"
    case MobileMoney => "Mobile Money"
    case Cheque => "Chèque"
  }

  /** The label of a stored dossier status; an unknown value is shown as it is. */
  function StatutDossierLabel(statut: string): (r: string)
    ensures forall st: StatutDossier :: statut == st.Code() ==> r == DossierLabel(st)
    ensures ParseStatutDossier(statut).None? ==> r == statut
  {
    match ParseStatutDossier(statut)
    case Some(st) => DossierLabel(st)
    case None => statut
  }

  function StatutFactureLabel(statut: string): (r: string)
    ensures forall st: StatutFacture :: statut == st.Code() ==> r == FactureLabel(st)
    ensures ParseStatutFacture(statut).None? ==> r == statut
  {
    match ParseStatutFacture(statut)
    case Some(st) => FactureLabel(st)
    case None => statut
  }

  function StatutTrancheLabel(statut: string): (r: string)
    ensures forall st: StatutTranche :: statut == st.Code() ==> r == TrancheLabel(st)
    ensures ParseStatutTranche(statut).None? ==> r == statut
  {
    match ParseStatutTranche(statut)
    case Some(st) => TrancheLabel(st)
    case None => statut
  }

  function StatutLocationLabel(statut: string): (r: string)
    ensures forall st: StatutLocation :: statut == st.Code() ==> r == LocationLabel(st)
    ensures ParseStatutLocation(statut).None? ==> r == statut
  {
    match ParseStatutLocation(statut)
    case Some(st) => LocationLabel(st)
    case None => statut
  }

  /** `'-'` for a null or empty mode, the label of a known mode, and the value itself otherwise. */
  function ModePaiementLabel(mode: Option<string>): (r: string)
    ensures mode.None? || mode == Some("") ==> r == "-"
    ensures forall m: ModePaiement :: mode == Some(m.Code()) ==> r == PaiementLabel(m)
    ensures mode.Some? && mode.value != "" && ParseModePaiement(mode.value).None? ==> r == mode.value
  {
    match mode
    case None => "-"
    case Some(s) =>
      if s == "" then "-"
      else match ParseModePaiement(s)
        case Some(m) => PaiementLabel(m)
        case None => s
  }

  /** The label maps agree with the option lists that the forms display, and distinct values
      get distinct labels. */
  lemma LabelsMatchOptionLists()
    ensures forall i :: 0 <= i < |StatutsDossier| ==> DossierLabel(StatutsDossier[i].0) == StatutsDossier[i].1
    ensures forall i :: 0 <= i < |ModesPaiement| ==> PaiementLabel(ModesPaiement[i].0) == ModesPaiement[i].1
    ensures forall i :: 0 <= i < |StatutsFacture| ==> FactureLabel(StatutsFacture[i].0) == StatutsFacture[i].1
    ensures forall i :: 0 <= i < |StatutsLocation| ==> LocationLabel(StatutsLocation[i].0) == StatutsLocation[i].1
    ensures forall a: StatutDossier, b: StatutDossier :: a != b ==> DossierLabel(a) != DossierLabel(b)
  {
  }

  // ── PDF amounts ──────────────────────────────────────────

  predicate NotSpace(c: char) {
    c != ' '
  }

  /** Every fourth character counted from the right is a space, and only those. */
  predicate SpacedInThrees(g: string) {
    forall i :: 0 <= i < |g| ==> (g[i] == ' ' <==> (|g| - i) % 4 == 0)
  }

  /** Digits grouped in threes from the right, groups separated by one space
      (the `\B(?=(\d{3})+(?!\d))` replacement). */
  function GroupThousands(d: string): (g: string)
    requires |d| > 0 && Decimal.AllDigits(d)
    ensures |g| == |d| + (|d| - 1) / 3
    ensures SpacedInThrees(g)
  {
    if |d| <= 3 then d
    else
      var g' := GroupThousands(d[..|d| - 3]);
      GroupStepSpacing(g', d[|d| - 3..]);
      g' + " " + d[|d| - 3..]
  }

  /** A further group of three digits after a separator keeps the spacing. */
  lemma GroupStepSpacing(g': string, tail: string)
    requires |tail| == 3 && Decimal.AllDigits(tail) && SpacedInThrees(g')
    ensures SpacedInThrees(g' + " " + tail)
  {
    var g := g' + " " + tail;
    assert |g| == |g'| + 4;
    forall i | 0 <= i < |g| ensures g[i] == ' ' <==> (|g| - i) % 4 == 0 {
      if i < |g'| {
        assert g[i] == g'[i];
        ShiftByFour(|g'| - i);
      } else if i > |g'| {
        assert g[i] == tail[i - |g'| - 1];
        assert 0 < |g| - i < 4;
      }
    }
  }

  lemma ShiftByFour(n: int)
    ensures (n + 4) % 4 == n % 4
  {
  }

  /** Removing the separators from the grouped digits gives the digits back. */
  lemma {:induction false} GroupThousandsUngroups(d: string)
    requires |d| > 0 && Decimal.AllDigits(d)
    ensures Seqs.Filter(GroupThousands(d), NotSpace) == d
  {
    if |d| <= 3 {
      Seqs.FilterAll(d, NotSpace);
    } else {
      var head, tail := d[..|d| - 3], d[|d| - 3..];
      var g' := GroupThousands(head);
      GroupThousandsUngroups(head);
      Seqs.FilterAppend(g' + " ", tail, NotSpace);
      Seqs.FilterAppend(g', " ", NotSpace);
      Seqs.FilterRejected(' ', NotSpace);
      assert " " == [' '];
      Seqs.FilterAll(tail, NotSpace);
      assert head + tail == d;
    }
  }

  /** `formatMontantForPDF` for an amount below one million in absolute value: a minus sign
      for a negative amount, the digits of its absolute value grouped in threes, then `" FCFA"`. */
  function FormatMontantForPdf(montant: int): (r: string)
    requires -1000000 < montant < 1000000
    ensures var digits := Decimal.NatToString(if montant < 0 then -montant else montant);
      && |r| >= 6 && r[|r| - 5..] == " FCFA"
      && (montant < 0 <==> r[0] == '-')
      && var grouped := r[(if montant < 0 then 1 else 0)..|r| - 5];
      && SpacedInThrees(grouped)
      && |grouped| == |digits| + (|digits| - 1) / 3
      && Seqs.Filter(grouped, NotSpace) == digits
  {
    var digits := Decimal.NatToString(if montant < 0 then -montant else montant);
    var g := GroupThousands(digits);
    GroupThousandsUngroups(digits);
    var sign := if montant < 0 then "-" else "";
    assert g[0] != '-';
    var r := sign + g + " FCFA";
    assert r[|sign|..|r| - 5] == g;
    r
  }

  /** Reading a formatted amount back, the sign and the digits left once the group spaces are
      removed, gives the amount. */
  lemma FormatMontantReadsBack(montant: int)
    requires -1000000 < montant < 1000000
    ensures var r := FormatMontantForPdf(montant);
      var start := if r[0] == '-' then 1 else 0;
      var digits := Seqs.Filter(r[start..|r| - 5], NotSpace);
      Decimal.AllDigits(digits) && (if r[0] == '-' then -1 else 1) * Decimal.DigitsValue(digits) == montant
  {
    Decimal.NatToStringRoundTrip(if montant < 0 then -montant else montant);
  }
}

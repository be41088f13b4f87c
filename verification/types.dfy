/** The entities of the application and their enumerations, as stored in browser storage.
    Status and payment-mode fields hold the raw stored string; the enumerations below name
    the known values and `Parse*` recognises them. Timestamps are milliseconds since the
    epoch; a `Stamp` of `None` is a missing or empty ISO string. */
module Types {
  import opened Wrappers

  type Stamp = Option<int>

  // ── Enumerations ─────────────────────────────────────────

  /** The five customs-clearance stages of a dossier. */
  datatype StatutDossier = Lance | ProvisoireEntree | ProvisoireSortie | CarteGriseEntree | CarteGriseSortie {
    function Code(): string {
      match this
      case Lance => "Lance"
      case ProvisoireEntree => "Provisoire_Entree"
      case ProvisoireSortie => "Provisoire_Sortie"
      case CarteGriseEntree => "CarteGrise_Entree"
      case CarteGriseSortie => "CarteGrise_Sortie"
    }
  }

  datatype ModePaiement = Especes | Virement | MobileMoney | Cheque {
    function Code(): string {
      match this
      case Especes => "Especes"
      case Virement => "Virement"
      case MobileMoney => "MobileMoney"
      case Cheque => "Cheque"
    }
  }

  datatype StatutFacture = EnAttente | PartiellementPayee | Soldee {
    function Code(): string {
      match this
      case EnAttente => "En_attente"
      case PartiellementPayee => "Partiellement_payee"
      case Soldee => "Soldee"
    }
  }

  datatype StatutTranche = EnAttente | Payee | EnRetard {
    function Code(): string {
      match this
      case EnAttente => "En_attente"
      case Payee => "Payee"
      case EnRetard => "En_retard"
    }
  }

  datatype StatutLocation = EnCours | Terminee | Annulee {
    function Code(): string {
      match this
      case EnCours => "En_cours"
      case Terminee => "Terminee"
      case Annulee => "Annulee"
    }
  }

  /** Recognises a stored dossier status. */
  function ParseStatutDossier(code: string): (r: Option<StatutDossier>)
    ensures r.Some? ==> r.value.Code() == code
    ensures r.None? <==> forall st: StatutDossier :: st.Code() != code
  {
    if code == "Lance" then Some(Lance)
    else if code == "Provisoire_Entree" then Some(ProvisoireEntree)
    else if code == "Provisoire_Sortie" then Some(ProvisoireSortie)
    else if code == "CarteGrise_Entree" then Some(CarteGriseEntree)
    else if code == "CarteGrise_Sortie" then Some(CarteGriseSortie)
    else None
  }

  function ParseModePaiement(code: string): (r: Option<ModePaiement>)
    ensures r.Some? ==> r.value.Code() == code
    ensures r.None? <==> forall m: ModePaiement :: m.Code() != code
  {
    if code == "Especes" then Some(Especes)
    else if code == "Virement" then Some(Virement)
    else if code == "MobileMoney" then Some(MobileMoney)
    else if code == "Cheque" then Some(Cheque)
    else None
  }

  function ParseStatutFacture(code: string): (r: Option<StatutFacture>)
    ensures r.Some? ==> r.value.Code() == code
    ensures r.None? <==> forall st: StatutFacture :: st.Code() != code
  {
    if code == "En_attente" then Some(StatutFacture.EnAttente)
    else if code == "Partiellement_payee" then Some(PartiellementPayee)
    else if code == "Soldee" then Some(Soldee)
    else None
  }

  function ParseStatutTranche(code: string): (r: Option<StatutTranche>)
    ensures r.Some? ==> r.value.Code() == code
    ensures r.None? <==> forall st: StatutTranche :: st.Code() != code
  {
    if code == "En_attente" then Some(StatutTranche.EnAttente)
    else if code == "Payee" then Some(Payee)
    else if code == "En_retard" then Some(EnRetard)
    else None
  }

  function ParseStatutLocation(code: string): (r: Option<StatutLocation>)
    ensures r.Some? ==> r.value.Code() == code
    ensures r.None? <==> forall st: StatutLocation :: st.Code() != code
  {
    if code == "En_cours" then Some(EnCours)
    else if code == "Terminee" then Some(Terminee)
    else if code == "Annulee" then Some(Annulee)
    else None
  }

  // ── Ordered lists of values ──────────────────────────────

  /** The workflow order of the dossier stages. */
  const WorkflowOrdre: seq<StatutDossier> :=
    [Lance, ProvisoireEntree, ProvisoireSortie, CarteGriseEntree, CarteGriseSortie]

  /** The status options offered by the dossier forms, with their display labels. */
  const StatutsDossier: seq<(StatutDossier, string)> := [
    (Lance, "Lancé"),
    (ProvisoireEntree, "Provisoire (Entrée)"),
    (ProvisoireSortie, "Provisoire (Sortie)"),
    (CarteGriseEntree, "Carte grise (Entrée)"),
    (CarteGriseSortie, "Carte grise (Sortie)")
  ]

  const ModesPaiement: seq<(ModePaiement, string)> := [
    (Especes, "Espèces"),
    (Virement, "Virement bancaire"),
    (MobileMoney, "Mobile Money"),
    (Cheque, "Chèque")
  ]

  const StatutsFacture: seq<(StatutFacture, string)> := [
    (StatutFacture.EnAttente, "En attente"),
    (PartiellementPayee, "Partiellement payée"),
    (Soldee, "Soldée")
  ]

  const StatutsLocation: seq<(StatutLocation, string)> := [
    (EnCours, "En cours"),
    (Terminee, "Terminée"),
    (Annulee, "Annulée")
  ]

  /** The values of an option list, in order. */
  function Values<E, L>(opts: seq<(E, L)>): (r: seq<E>)
    ensures |r| == |opts|
    ensures forall i :: 0 <= i < |opts| ==> r[i] == opts[i].0
  {
    seq(|opts|, i requires 0 <= i < |opts| => opts[i].0)
  }

  /** No two positions of `s` hold the same element. */
  predicate Distinct<T(==)>(s: seq<T>) {
    forall i, j :: 0 <= i < j < |s| ==> s[i] != s[j]
  }

  /** The workflow lists each of the five stages exactly once, from `Lance` to `CarteGrise_Sortie`. */
  lemma WorkflowOrdreIsComplete()
    ensures |WorkflowOrdre| == 5 && Distinct(WorkflowOrdre)
    ensures forall st: StatutDossier :: st in WorkflowOrdre
    ensures WorkflowOrdre[0] == Lance && WorkflowOrdre[4] == CarteGriseSortie
  {
    forall st: StatutDossier ensures st in WorkflowOrdre {
      match st
      case Lance => assert WorkflowOrdre[0] == st;
      case ProvisoireEntree => assert WorkflowOrdre[1] == st;
      case ProvisoireSortie => assert WorkflowOrdre[2] == st;
      case CarteGriseEntree => assert WorkflowOrdre[3] == st;
      case CarteGriseSortie => assert WorkflowOrdre[4] == st;
    }
  }

  /** The status options follow the workflow order, value for value. */
  lemma StatutsDossierFollowWorkflow()
    ensures Values(StatutsDossier) == WorkflowOrdre
  {
  }

  /** Each option list names every value of its enumeration exactly once. */
  lemma OptionListsAreComplete()
    ensures Distinct(Values(ModesPaiement)) && forall m: ModePaiement :: m in Values(ModesPaiement)
    ensures Distinct(Values(StatutsFacture)) && forall st: StatutFacture :: st in Values(StatutsFacture)
    ensures Distinct(Values(StatutsLocation)) && forall st: StatutLocation :: st in Values(StatutsLocation)
  {
    var modes := Values(ModesPaiement);
    forall m: ModePaiement ensures m in modes {
      match m
      case Especes => assert modes[0] == m;
      case Virement => assert modes[1] == m;
      case MobileMoney => assert modes[2] == m;
      case Cheque => assert modes[3] == m;
    }
    var factures := Values(StatutsFacture);
    forall st: StatutFacture ensures st in factures {
      match st
      case EnAttente => assert factures[0] == st;
      case PartiellementPayee => assert factures[1] == st;
      case Soldee => assert factures[2] == st;
    }
    var locations := Values(StatutsLocation);
    forall st: StatutLocation ensures st in locations {
      match st
      case EnCours => assert locations[0] == st;
      case Terminee => assert locations[1] == st;
      case Annulee => assert locations[2] == st;
    }
  }

  // ── Records ──────────────────────────────────────────────

  datatype Client = Client(
    id: string,
    nom: string,
    prenom: string,
    telephone: string,
    email: Option<string>,
    adresse: Option<string>,
    dateCreation: Stamp,
    dateModification: Stamp)

  /** A reusable vehicle-type label; the source's field `label` is `libelle` here, `label`
      being a reserved word. */
  datatype TypeVehicule = TypeVehicule(
    id: string,
    libelle: string,
    dateCreation: Stamp,
    dateModification: Stamp)

  /** A customs case file. `nomClient`, `prenomClient` and `telephoneClient` are the legacy
      inline client fields of rows imported before clients became records. */
  datatype Dossier = Dossier(
    id: string,
    numeroCH: string,
    chassisCH: Option<string>,
    annee: Option<string>,
    referenceVehicule: string,
    typeVehicule: string,
    clientId: Option<string>,
    statut: string,
    dateCreation: Stamp,
    dateModification: Stamp,
    notes: string,
    nomClient: Option<string>,
    prenomClient: Option<string>,
    telephoneClient: Option<string>)

  /** One instalment of an invoice; the payment date and mode are null until it is paid. */
  datatype Tranche = Tranche(
    id: string,
    factureId: string,
    numeroTranche: int,
    montant: real,
    dateEcheance: string,
    datePaiement: Option<string>,
    statut: string,
    modePaiement: Option<string>)

  /** One recorded payment; `trancheId` is null for a payment not tied to an instalment. */
  datatype Paiement = Paiement(
    id: string,
    factureId: string,
    trancheId: Option<string>,
    montant: real,
    date: string,
    modePaiement: string,
    dateCreation: Stamp)

  /** An itemised expense line of an invoice or a rental. */
  datatype DepenseLigne = DepenseLigne(id: string, libelle: string, montant: real)

  /** A sales invoice. Its instalments and payments are embedded: they have no collection of their own. */
  datatype Facture = Facture(
    id: string,
    dossierId: string,
    clientId: Option<string>,
    nomClient: Option<string>,
    prenomClient: Option<string>,
    telephone: Option<string>,
    adresse: Option<string>,
    email: Option<string>,
    referenceVehicule: string,
    typeVehicule: string,
    vin: string,
    dateFacture: int,
    prixTotalTTC: real,
    prixAchat: Option<real>,
    dedouanement: Option<real>,
    depenses: Option<real>,
    depensesLignes: Option<seq<DepenseLigne>>,
    montantPaye: real,
    montantRestant: real,
    modePaiement: string,
    paysDestination: string,
    statut: string,
    tranches: seq<Tranche>,
    paiements: seq<Paiement>,
    dateCreation: Stamp,
    dateModification: Stamp)

  /** A truck-rental contract. */
  datatype Location = Location(
    id: string,
    referenceCamion: string,
    typeCamion: Option<string>,
    clientId: Option<string>,
    nomClient: Option<string>,
    prenomClient: Option<string>,
    telephoneClient: Option<string>,
    dateDebut: string,
    dateFin: string,
    montantTotal: real,
    depensesLignes: Option<seq<DepenseLigne>>,
    depenses: Option<real>,
    statut: string,
    dateCreation: Stamp,
    dateModification: Stamp,
    notes: string)

  /** The company letterhead, a singleton. */
  datatype EntrepriseInfo = EntrepriseInfo(
    nom: string,
    adresse: string,
    telephone: string,
    email: string,
    logo: Option<string>)
}

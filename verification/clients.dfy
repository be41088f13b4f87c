/** The client shown for a dossier, an invoice or a rental: the linked client record when the
    link resolves, the legacy inline fields otherwise. */
module Clients {
  import opened Wrappers
  import opened Types
  import Text
  import Seqs
  import Store

  datatype ClientDisplay = ClientDisplay(
    nom: string,
    prenom: string,
    telephone: string,
    email: Option<string>,
    adresse: Option<string>)

  /** `if (x.clientId) { const c = getClientById(x.clientId); … }`: an absent or empty link
      resolves to nothing, a dangling one too. */
  function Linked(clientId: Option<string>, clients: seq<Client>): (r: Option<Client>)
    ensures r.Some? ==> clientId.Some? && clientId.value != "" && r.value.id == clientId.value && r.value in clients
    ensures r.None? && clientId.Some? && clientId.value != "" ==> forall i :: 0 <= i < |clients| ==> clients[i].id != clientId.value
  {
    if clientId.Some? && clientId.value != "" then
      var r := Store.GetClientById(clients, clientId.value);
      var p := Store.HasId(Store.ClientId, clientId.value);
      assert r.Some? ==> p(r.value) && Store.ClientId(r.value) == r.value.id;
      assert r.None? ==> forall i :: 0 <= i < |clients| ==> !p(clients[i]) && Store.ClientId(clients[i]) == clients[i].id;
      r
    else None
  }

  function FromClient(c: Client): ClientDisplay {
    ClientDisplay(c.nom, c.prenom, c.telephone, c.email, c.adresse)
  }

  /** `getClientDisplayFromDossier`: the linked client, or the legacy name and telephone with
      `''` for a missing field. */
  function FromDossier(d: Dossier, clients: seq<Client>): (r: ClientDisplay)
    ensures Linked(d.clientId, clients).Some? ==> r == FromClient(Linked(d.clientId, clients).value)
    ensures Linked(d.clientId, clients).None? ==>
      r == ClientDisplay(d.nomClient.GetOr(""), d.prenomClient.GetOr(""), d.telephoneClient.GetOr(""), None, None)
  {
    match Linked(d.clientId, clients)
    case Some(c) => FromClient(c)
    case None => ClientDisplay(d.nomClient.GetOr(""), d.prenomClient.GetOr(""), d.telephoneClient.GetOr(""), None, None)
  }

  /** `getClientDisplayFromFacture`: as for a dossier, except that the legacy fallback also
      carries the invoice's e-mail and address. */
  function FromFacture(f: Facture, clients: seq<Client>): (r: ClientDisplay)
    ensures Linked(f.clientId, clients).Some? ==> r == FromClient(Linked(f.clientId, clients).value)
    ensures Linked(f.clientId, clients).None? ==>
      r == ClientDisplay(f.nomClient.GetOr(""), f.prenomClient.GetOr(""), f.telephone.GetOr(""), f.email, f.adresse)
  {
    match Linked(f.clientId, clients)
    case Some(c) => FromClient(c)
    case None => ClientDisplay(f.nomClient.GetOr(""), f.prenomClient.GetOr(""), f.telephone.GetOr(""), f.email, f.adresse)
  }

  /** `getClientDisplayFromLocation`: as for a dossier. */
  function FromLocation(l: Location, clients: seq<Client>): (r: ClientDisplay)
    ensures Linked(l.clientId, clients).Some? ==> r == FromClient(Linked(l.clientId, clients).value)
    ensures Linked(l.clientId, clients).None? ==>
      r == ClientDisplay(l.nomClient.GetOr(""), l.prenomClient.GetOr(""), l.telephoneClient.GetOr(""), None, None)
  {
    match Linked(l.clientId, clients)
    case Some(c) => FromClient(c)
    case None => ClientDisplay(l.nomClient.GetOr(""), l.prenomClient.GetOr(""), l.telephoneClient.GetOr(""), None, None)
  }

  /** With unique client ids, a dossier linked to a stored client shows that client, whatever its
      legacy fields say: editing the client record changes what every linked dossier shows. */
  lemma LinkedClientWins(d: Dossier, clients: seq<Client>, k: nat)
    requires Store.UniqueIds(clients, Store.ClientId)
    requires k < |clients| && d.clientId == Some(clients[k].id) && clients[k].id != ""
    ensures FromDossier(d, clients) == FromClient(clients[k])
  {
    var c := Linked(d.clientId, clients).value;
    var j :| 0 <= j < |clients| && clients[j] == c;
    assert Store.ClientId(clients[j]) == Store.ClientId(clients[k]);
  }

  /** `formatClientLabel`: first name and name separated by a space and trimmed, or `-` when
      that leaves nothing. */
  function FormatClientLabel(display: ClientDisplay): (r: string)
    ensures r != ""
    ensures !Text.IsSpace(r[0]) && !Text.IsSpace(r[|r| - 1])
    ensures Text.Blank(display.prenom + " " + display.nom) ==> r == "-"
    ensures !Text.Blank(display.prenom + " " + display.nom) ==> r == Text.Trim(display.prenom + " " + display.nom)
  {
    var name := Text.Trim(display.prenom + " " + display.nom);
    Text.TrimEmptyIffBlank(display.prenom + " " + display.nom);
    if name != "" then name else "-"
  }
}

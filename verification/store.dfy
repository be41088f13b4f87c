/** The browser-storage repository: one JSON array per collection, read whole, changed and
    written back whole. Storage is the record of the decoded collections; every operation maps
    one storage state to the next. The clock is the parameter `now`, in milliseconds. */
module Store {
  import opened Wrappers
  import opened Types
  import Seqs
  import Decimal
  import Sorting

  // ── Storage ──────────────────────────────────────────────

  /** What the vehicle-type key holds, by the shape of the decoded value: not an array (absent,
      unreadable or any other JSON value), an array whose first element is a string (the legacy
      list of labels), an array whose first element is an object with `id` and `label`, or any
      other array (an empty one included). */
  datatype StoredTypes = NotAnArray | Labels(labels: seq<string>) | Records(types: seq<TypeVehicule>) | OtherArray

  /** The six storage keys, decoded. A missing or unreadable collection reads as empty. */
  datatype Storage = Storage(
    dossiers: seq<Dossier>,
    factures: seq<Facture>,
    locations: seq<Location>,
    clients: seq<Client>,
    typesVehicule: StoredTypes,
    entreprise: Option<EntrepriseInfo>)

  /** `getItem(key, fallback)`: outside a browser, for a missing or empty entry, and when the
      entry does not parse, the fallback; otherwise the parsed value. `parse` is `JSON.parse`,
      `None` meaning that it throws. */
  function GetItem<T>(hasWindow: bool, raw: Option<string>, parse: string -> Option<T>, fallback: T): (r: T)
    ensures (!hasWindow || raw.None? || raw == Some("")) ==> r == fallback
    ensures hasWindow && raw.Some? && raw.value != "" && parse(raw.value).Some? ==> r == parse(raw.value).value
    ensures hasWindow && raw.Some? && parse(raw.value).None? ==> r == fallback
  {
    if !hasWindow then fallback
    else match raw
      case None => fallback
      case Some(text) =>
        if text == "" then fallback
        else match parse(text)
          case None => fallback
          case Some(v) => v
  }

  // ── Ids ──────────────────────────────────────────────────

  /** `x => key(x) === id`. */
  function HasId<T>(key: T -> string, id: string): T -> bool {
    x => key(x) == id
  }

  /** `x => key(x) !== id`. */
  function LacksId<T>(key: T -> string, id: string): T -> bool {
    x => key(x) != id
  }

  /** No two records share an id. */
  predicate UniqueIds<T>(list: seq<T>, key: T -> string) {
    forall i, j :: 0 <= i < j < |list| ==> key(list[i]) != key(list[j])
  }

  function DossierId(d: Dossier): string { d.id }
  function FactureId(f: Facture): string { f.id }
  function LocationId(l: Location): string { l.id }
  function ClientId(c: Client): string { c.id }
  function TypeId(t: TypeVehicule): string { t.id }

  /** `stamp || now()`: a missing or empty creation stamp is replaced by the current time. */
  function Created(stamp: Stamp, now: int): (r: Stamp)
    ensures r.Some?
    ensures stamp.Some? ==> r == stamp
  {
    if stamp.Some? then stamp else Some(now)
  }

  // ── Generic upsert and removal ───────────────────────────

  /** The save pattern shared by every collection: the first record with the same id is replaced
      by `toSave`, or, when there is none, `toAppend` goes at the end. Afterwards the id finds
      the stored record, the list grows only for a new id, and no record with another id moves
      or changes. */
  function Upsert<T>(list: seq<T>, key: T -> string, toSave: T, toAppend: T): (r: seq<T>)
    requires key(toAppend) == key(toSave)
    ensures var existed := Seqs.Any(list, HasId(key, key(toSave)));
      && |r| == (if existed then |list| else |list| + 1)
      && Seqs.Find(r, HasId(key, key(toSave))) == Some(if existed then toSave else toAppend)
      && forall j :: 0 <= j < |list| && key(list[j]) != key(toSave) ==> r[j] == list[j]
  {
    var p := HasId(key, key(toSave));
    match Seqs.FindIndex(list, p)
    case Some(i) =>
      var r := list[i := toSave];
      assert p(r[i]);
      assert forall j :: 0 <= j < i ==> r[j] == list[j] && !p(r[j]);
      assert Seqs.FindIndex(r, p) == Some(i);
      r
    case None =>
      var r := list + [toAppend];
      assert p(r[|list|]);
      assert forall j :: 0 <= j < |list| ==> r[j] == list[j] && !p(r[j]);
      assert Seqs.FindIndex(r, p) == Some(|list|);
      r
  }

  /** A record with a new id goes at the end, after every existing record. */
  lemma UpsertNewAppends<T>(list: seq<T>, key: T -> string, toSave: T, toAppend: T)
    requires key(toAppend) == key(toSave)
    requires !Seqs.Any(list, HasId(key, key(toSave)))
    ensures Upsert(list, key, toSave, toAppend) == list + [toAppend]
  {
    assert Seqs.FindIndex(list, HasId(key, key(toSave))).None?;
  }

  /** `list.filter(x => key(x) !== id)`: every record with another id stays, as many times as
      it was there, and no record with the id does. */
  function RemoveById<T(!new)>(list: seq<T>, key: T -> string, id: string): (r: seq<T>)
    ensures |r| <= |list|
    ensures forall i :: 0 <= i < |r| ==> key(r[i]) != id
    ensures forall x :: multiset(r)[x] == if key(x) != id then multiset(list)[x] else 0
    ensures forall x :: x in r <==> x in list && key(x) != id
    ensures !Seqs.Any(list, HasId(key, id)) ==> r == list
  {
    var r := Seqs.Filter(list, LacksId(key, id));
    Seqs.FilterCounts(list, LacksId(key, id));
    if !Seqs.Any(list, HasId(key, id)) then
      Seqs.FilterAll(list, LacksId(key, id));
      r
    else
      r
  }

  /** Removal works piece by piece, so the survivors keep their relative order. */
  lemma RemoveByIdAppend<T(!new)>(a: seq<T>, b: seq<T>, key: T -> string, id: string)
    ensures RemoveById(a + b, key, id) == RemoveById(a, key, id) + RemoveById(b, key, id)
  {
    Seqs.FilterAppend(a, b, LacksId(key, id));
  }

  /** A single record is removed exactly when it carries the id. With `RemoveByIdAppend` and
      the empty list this pins the removal down completely. */
  lemma RemoveByIdSingleton<T(!new)>(x: T, key: T -> string, id: string)
    ensures RemoveById([x], key, id) == if key(x) == id then [] else [x]
  {
    Seqs.FilterSingleton(x, LacksId(key, id));
  }

  /** Removal keeps every record with another id and nothing else. */
  lemma RemoveByIdMembers<T(!new)>(list: seq<T>, key: T -> string, id: string, x: T)
    ensures x in RemoveById(list, key, id) <==> x in list && key(x) != id
  {
    Seqs.FilterMembers(list, LacksId(key, id), x);
  }

  /** Removing a freshly appended id gives the list back: deletion undoes creation. */
  lemma RemoveUndoesAppend<T(!new)>(list: seq<T>, key: T -> string, x: T)
    requires !Seqs.Any(list, HasId(key, key(x)))
    ensures RemoveById(list + [x], key, key(x)) == list
  {
    var p := LacksId(key, key(x));
    Seqs.FilterAppend(list, [x], p);
    Seqs.FilterAll(list, p);
    Seqs.FilterRejected(x, p);
  }

  // ── Dossiers ─────────────────────────────────────────────

  function GetDossierById(st: Storage, id: string): Option<Dossier> {
    Seqs.Find(st.dossiers, HasId(DossierId, id))
  }

  function HasNumeroCH(ch: string): Dossier -> bool {
    (d: Dossier) => d.numeroCH == ch
  }

  function GetDossierByNumeroCH(st: Storage, ch: string): Option<Dossier> {
    Seqs.Find(st.dossiers, HasNumeroCH(ch))
  }

  /** `saveDossier`: the dossier is stamped with the modification time and, when it is new, with
      a creation time unless it carries one. Only the dossier collection changes. */
  function SaveDossier(st: Storage, d: Dossier, now: int): (r: Storage)
    ensures r == st.(dossiers := r.dossiers)
    ensures var existed := Seqs.Any(st.dossiers, HasId(DossierId, d.id));
      && GetDossierById(r, d.id) == Some(d.(dateModification := Some(now),
           dateCreation := if existed then d.dateCreation else Created(d.dateCreation, now)))
      && |r.dossiers| == (if existed then |st.dossiers| else |st.dossiers| + 1)
    ensures forall j :: 0 <= j < |st.dossiers| && st.dossiers[j].id != d.id ==> r.dossiers[j] == st.dossiers[j]
  {
    var toSave := d.(dateModification := Some(now));
    var list := Upsert(st.dossiers, DossierId, toSave, toSave.(dateCreation := Created(d.dateCreation, now)));
    st.(dossiers := list)
  }

  /** Saving a dossier with a new id appends it, stamped, after every stored dossier. */
  lemma SaveNewDossierAppends(st: Storage, d: Dossier, now: int)
    requires !Seqs.Any(st.dossiers, HasId(DossierId, d.id))
    ensures SaveDossier(st, d, now).dossiers ==
      st.dossiers + [d.(dateModification := Some(now), dateCreation := Created(d.dateCreation, now))]
  {
    var toSave := d.(dateModification := Some(now));
    UpsertNewAppends(st.dossiers, DossierId, toSave, toSave.(dateCreation := Created(d.dateCreation, now)));
  }

  function FactureOf(dossierId: string): Facture -> bool {
    (f: Facture) => f.dossierId == dossierId
  }

  /** `dossierHasFactures`: some invoice is attached to the dossier. */
  function DossierHasFactures(st: Storage, dossierId: string): (r: bool)
    ensures r <==> exists i :: 0 <= i < |st.factures| && st.factures[i].dossierId == dossierId
  {
    Seqs.Any(st.factures, FactureOf(dossierId))
  }

  /** `getFacturesByDossier`: the invoices attached to the dossier, each as many times as it is
      stored, and no other. */
  function GetFacturesByDossier(st: Storage, dossierId: string): (r: seq<Facture>)
    ensures forall i :: 0 <= i < |r| ==> r[i].dossierId == dossierId
    ensures forall f :: f in r <==> f in st.factures && f.dossierId == dossierId
    ensures forall f :: multiset(r)[f] == if f.dossierId == dossierId then multiset(st.factures)[f] else 0
    ensures |r| == 0 <==> !DossierHasFactures(st, dossierId)
  {
    Seqs.FilterCounts(st.factures, FactureOf(dossierId));
    Seqs.Filter(st.factures, FactureOf(dossierId))
  }

  const DossierLieMessage := "Impossible de supprimer un dossier lié à des factures"

  /** `deleteDossier`: refused while an invoice refers to the dossier; otherwise every dossier
      with that id goes and nothing else changes. */
  function DeleteDossier(st: Storage, id: string): (r: Result<Storage>)
    ensures r.Failure? <==> DossierHasFactures(st, id)
    ensures r.Failure? ==> r.error == DossierLieMessage
    ensures r.Success? ==>
      && r.value == st.(dossiers := r.value.dossiers)
      && GetDossierById(r.value, id).None?
      && (forall x :: x in r.value.dossiers <==> x in st.dossiers && x.id != id)
      && (forall x :: multiset(r.value.dossiers)[x] == if x.id != id then multiset(st.dossiers)[x] else 0)
      && r.value.dossiers == RemoveById(st.dossiers, DossierId, id)
  {
    if DossierHasFactures(st, id) then Failure(DossierLieMessage)
    else Success(st.(dossiers := RemoveById(st.dossiers, DossierId, id)))
  }

  // ── Additive import ──────────────────────────────────────

  /** The numéros CH present in a list of dossiers. */
  function ChSet(list: seq<Dossier>): set<string> {
    set d | d in list :: d.numeroCH
  }

  lemma ChSetAppend(list: seq<Dossier>, d: Dossier)
    ensures ChSet(list + [d]) == ChSet(list) + {d.numeroCH}
  {
    assert forall x :: x in list + [d] <==> x in list || x == d;
  }

  /** No two dossiers share a numéro CH. */
  predicate UniqueCH(list: seq<Dossier>) {
    forall i, j :: 0 <= i < j < |list| ==> list[i].numeroCH != list[j].numeroCH
  }

  /** Appending a dossier whose numéro CH no stored dossier carries keeps the numbers unique. */
  lemma AppendKeepsChUnique(list: seq<Dossier>, d: Dossier)
    requires UniqueCH(list)
    requires forall i :: 0 <= i < |list| ==> list[i].numeroCH != d.numeroCH
    ensures UniqueCH(list + [d])
  {
  }

  /** The additive import, one incoming dossier at a time: a dossier is appended when its numéro
      CH is not yet present, counting the dossiers appended before it. The existing list is kept
      as a prefix, only incoming dossiers are appended, and afterwards every incoming numéro CH
      is present. */
  function ImportFrom(acc: seq<Dossier>, incoming: seq<Dossier>): (r: seq<Dossier>)
    ensures acc <= r
    ensures forall i :: |acc| <= i < |r| ==> r[i] in incoming
    ensures forall d :: d in incoming ==> d.numeroCH in ChSet(r)
    ensures ChSet(acc) <= ChSet(r)
    decreases |incoming|
  {
    if |incoming| == 0 then acc
    else
      var d := incoming[0];
      var next := if d.numeroCH in ChSet(acc) then acc else acc + [d];
      ChSetAppend(acc, d);
      var r := ImportFrom(next, incoming[1..]);
      assert forall x :: x in incoming ==> x == d || x in incoming[1..];
      r
  }

  /** The import never introduces a duplicate numéro CH. */
  lemma {:induction false} ImportKeepsChUnique(acc: seq<Dossier>, incoming: seq<Dossier>)
    requires UniqueCH(acc)
    ensures UniqueCH(ImportFrom(acc, incoming))
    decreases |incoming|
  {
    if |incoming| > 0 {
      var d := incoming[0];
      if d.numeroCH !in ChSet(acc) {
        var next := acc + [d];
        forall i, j | 0 <= i < j < |next| ensures next[i].numeroCH != next[j].numeroCH {
          if j == |acc| {
            assert next[i] in acc;
          }
        }
        ImportKeepsChUnique(next, incoming[1..]);
      } else {
        ImportKeepsChUnique(acc, incoming[1..]);
      }
    }
  }

  /** A batch every dossier of which the additive import appends: its numéros CH are
      pairwise distinct and none is already present. */
  predicate FreshBatch(acc: seq<Dossier>, incoming: seq<Dossier>) {
    UniqueCH(incoming) && forall i :: 0 <= i < |incoming| ==> incoming[i].numeroCH !in ChSet(acc)
  }

  /** Taking the first incoming dossier, new to storage, into storage leaves a fresh batch
      exactly when the whole batch was fresh. */
  lemma FreshBatchStep(acc: seq<Dossier>, incoming: seq<Dossier>)
    requires |incoming| > 0 && incoming[0].numeroCH !in ChSet(acc)
    ensures FreshBatch(acc + [incoming[0]], incoming[1..]) <==> FreshBatch(acc, incoming)
  {
    var d, rest := incoming[0], incoming[1..];
    ChSetAppend(acc, d);
    if FreshBatch(acc + [d], rest) {
      forall i, j | 0 <= i < j < |incoming| ensures incoming[i].numeroCH != incoming[j].numeroCH {
        if i > 0 {
          assert rest[i - 1].numeroCH != rest[j - 1].numeroCH;
        } else {
          assert rest[j - 1].numeroCH !in ChSet(acc + [d]);
        }
      }
      forall i | 0 <= i < |incoming| ensures incoming[i].numeroCH !in ChSet(acc) {
        if i > 0 {
          assert rest[i - 1].numeroCH !in ChSet(acc + [d]);
        }
      }
    }
    if FreshBatch(acc, incoming) {
      forall i | 0 <= i < |rest| ensures rest[i].numeroCH !in ChSet(acc + [d]) {
        assert incoming[0].numeroCH != incoming[i + 1].numeroCH;
        assert incoming[i + 1].numeroCH !in ChSet(acc);
      }
      forall i, j | 0 <= i < j < |rest| ensures rest[i].numeroCH != rest[j].numeroCH {
        assert incoming[i + 1].numeroCH != incoming[j + 1].numeroCH;
      }
    }
  }

  /** The additive import appends at most one dossier per incoming one. */
  lemma {:induction false} ImportLengthBound(acc: seq<Dossier>, incoming: seq<Dossier>)
    ensures |ImportFrom(acc, incoming)| <= |acc| + |incoming|
    decreases |incoming|
  {
    if |incoming| > 0 {
      var d := incoming[0];
      var next := if d.numeroCH in ChSet(acc) then acc else acc + [d];
      assert ImportFrom(acc, incoming) == ImportFrom(next, incoming[1..]);
      ImportLengthBound(next, incoming[1..]);
    }
  }

  /** An incoming dossier whose numéro CH is new is appended before the rest is imported. */
  lemma ImportAppendsNew(acc: seq<Dossier>, incoming: seq<Dossier>)
    requires |incoming| > 0 && incoming[0].numeroCH !in ChSet(acc)
    ensures ImportFrom(acc, incoming) == ImportFrom(acc + [incoming[0]], incoming[1..])
  {
  }

  /** The first dossier of a fresh batch is appended, and the rest of the batch is fresh
      against the storage that holds it. */
  lemma ImportFreshStep(acc: seq<Dossier>, incoming: seq<Dossier>)
    requires FreshBatch(acc, incoming) && |incoming| > 0
    ensures ImportFrom(acc, incoming) == ImportFrom(acc + [incoming[0]], incoming[1..])
    ensures FreshBatch(acc + [incoming[0]], incoming[1..])
  {
    ImportAppendsNew(acc, incoming);
    FreshBatchStep(acc, incoming);
  }

  /** A fresh batch is appended whole, in order. */
  lemma {:induction false} ImportFreshAppendsAll(acc: seq<Dossier>, incoming: seq<Dossier>)
    requires FreshBatch(acc, incoming)
    ensures ImportFrom(acc, incoming) == acc + incoming
    decreases |incoming|
  {
    if |incoming| > 0 {
      ImportFreshStep(acc, incoming);
      ImportFreshAppendsAll(acc + [incoming[0]], incoming[1..]);
      Seqs.AppendHead(acc, incoming);
    }
  }

  /** When every incoming dossier is appended, the batch was fresh. */
  lemma {:induction false} ImportAllAddedIsFresh(acc: seq<Dossier>, incoming: seq<Dossier>)
    requires |ImportFrom(acc, incoming)| == |acc| + |incoming|
    ensures FreshBatch(acc, incoming)
    decreases |incoming|
  {
    if |incoming| > 0 {
      var d := incoming[0];
      if d.numeroCH in ChSet(acc) {
        assert ImportFrom(acc, incoming) == ImportFrom(acc, incoming[1..]);
        ImportLengthBound(acc, incoming[1..]);
      } else {
        assert ImportFrom(acc, incoming) == ImportFrom(acc + [d], incoming[1..]);
        ImportAllAddedIsFresh(acc + [d], incoming[1..]);
        FreshBatchStep(acc, incoming);
      }
    }
  }

  /** Incoming dossier `i` is the first of the batch with its numéro CH, and storage does not
      hold that number. */
  predicate FirstNew(acc: seq<Dossier>, incoming: seq<Dossier>, i: int)
    requires 0 <= i < |incoming|
  {
    incoming[i].numeroCH !in ChSet(acc)
    && forall j :: 0 <= j < i ==> incoming[j].numeroCH != incoming[i].numeroCH
  }

  /** The first `n` incoming dossiers filtered by their index with `FirstNew`, in index order:
      a description of the import that does not follow its loop. */
  function FirstNewOf(acc: seq<Dossier>, incoming: seq<Dossier>, n: nat): (r: seq<Dossier>)
    requires n <= |incoming|
    ensures |r| <= n
    ensures forall x :: x in r ==> exists j :: 0 <= j < n && incoming[j] == x && FirstNew(acc, incoming, j)
  {
    if n == 0 then []
    else
      var r := FirstNewOf(acc, incoming, n - 1);
      if FirstNew(acc, incoming, n - 1) then r + [incoming[n - 1]] else r
  }

  /** Each earlier prefix of the filter is a prefix of a later one. */
  lemma {:induction false} FirstNewOfPrefix(acc: seq<Dossier>, incoming: seq<Dossier>, m: nat, n: nat)
    requires m <= n <= |incoming|
    ensures FirstNewOf(acc, incoming, m) <= FirstNewOf(acc, incoming, n)
    decreases n
  {
    if m < n {
      FirstNewOfPrefix(acc, incoming, m, n - 1);
    }
  }

  /** After the first `k` incoming dossiers, every one of their numéros CH is present: in
      storage, or through the first dossier that carried it. */
  lemma {:induction false} FirstNewCovers(acc: seq<Dossier>, incoming: seq<Dossier>, k: nat, j: nat)
    requires j < k <= |incoming|
    ensures incoming[j].numeroCH in ChSet(acc + FirstNewOf(acc, incoming, k))
    decreases j
  {
    var all := acc + FirstNewOf(acc, incoming, k);
    var ch := incoming[j].numeroCH;
    if ch in ChSet(acc) {
      assert forall x :: x in acc ==> x in all;
    } else if FirstNew(acc, incoming, j) {
      FirstNewOfPrefix(acc, incoming, j + 1, k);
      assert incoming[j] in FirstNewOf(acc, incoming, j + 1);
      assert incoming[j] in all;
    } else {
      var j' :| 0 <= j' < j && incoming[j'].numeroCH == ch;
      FirstNewCovers(acc, incoming, k, j');
    }
  }

  /** The import after `k` incoming dossiers is the import of the rest into storage extended
      with the filter of those `k`. */
  lemma {:induction false} ImportPrefix(acc: seq<Dossier>, incoming: seq<Dossier>, k: nat)
    requires k <= |incoming|
    ensures ImportFrom(acc, incoming) == ImportFrom(acc + FirstNewOf(acc, incoming, k), incoming[k..])
    decreases k
  {
    if k == 0 {
      assert acc + [] == acc && incoming[0..] == incoming;
    } else {
      ImportPrefix(acc, incoming, k - 1);
      var prev := acc + FirstNewOf(acc, incoming, k - 1);
      var xs := incoming[k - 1..];
      assert xs[0] == incoming[k - 1] && xs[1..] == incoming[k..];
      ImportUnfold(prev, xs);
      if FirstNew(acc, incoming, k - 1) {
        FirstNewAbsent(acc, incoming, k - 1);
      } else {
        NotFirstNewPresent(acc, incoming, k - 1);
      }
    }
  }

  /** One step of the import. */
  lemma ImportUnfold(acc: seq<Dossier>, xs: seq<Dossier>)
    requires |xs| > 0
    ensures ImportFrom(acc, xs) == ImportFrom(if xs[0].numeroCH in ChSet(acc) then acc else acc + [xs[0]], xs[1..])
  {
  }

  /** The number of a dossier that is not first-new is already present after the dossiers
      before it. */
  lemma NotFirstNewPresent(acc: seq<Dossier>, incoming: seq<Dossier>, k: nat)
    requires k < |incoming| && !FirstNew(acc, incoming, k)
    ensures incoming[k].numeroCH in ChSet(acc + FirstNewOf(acc, incoming, k))
    ensures FirstNewOf(acc, incoming, k + 1) == FirstNewOf(acc, incoming, k)
  {
    var prev := acc + FirstNewOf(acc, incoming, k);
    if incoming[k].numeroCH !in ChSet(acc) {
      var j :| 0 <= j < k && incoming[j].numeroCH == incoming[k].numeroCH;
      FirstNewCovers(acc, incoming, k, j);
    } else {
      assert forall x :: x in acc ==> x in prev;
    }
  }

  /** The number of a first-new dossier is not yet present after the dossiers before it. */
  lemma FirstNewAbsent(acc: seq<Dossier>, incoming: seq<Dossier>, k: nat)
    requires k < |incoming| && FirstNew(acc, incoming, k)
    ensures incoming[k].numeroCH !in ChSet(acc + FirstNewOf(acc, incoming, k))
    ensures acc + FirstNewOf(acc, incoming, k + 1) == acc + FirstNewOf(acc, incoming, k) + [incoming[k]]
  {
    var prev := acc + FirstNewOf(acc, incoming, k);
    forall x | x in prev ensures x.numeroCH != incoming[k].numeroCH {
      if x !in acc {
        assert x in FirstNewOf(acc, incoming, k);
      }
    }
  }

  /** The additive import appends exactly the incoming dossiers that are the first of the batch
      with their numéro CH and whose number storage does not hold, in input order: of two
      dossiers sharing a new number only the earlier is kept. */
  lemma ImportKeepsFirstOccurrences(acc: seq<Dossier>, incoming: seq<Dossier>)
    ensures ImportFrom(acc, incoming) == acc + FirstNewOf(acc, incoming, |incoming|)
  {
    ImportPrefix(acc, incoming, |incoming|);
    assert incoming[|incoming|..] == [];
  }

  /** `importDossiers(dossiers, replace)`: in replace mode the incoming list becomes the stored
      list; otherwise the dossiers whose numéro CH is not yet present are appended, one at a time.
      The result counts the dossiers added. */
  method ImportDossiers(st: Storage, incoming: seq<Dossier>, replace: bool) returns (r: Storage, added: nat)
    ensures r == st.(dossiers := r.dossiers)
    ensures replace ==> r.dossiers == incoming && added == |incoming|
    ensures !replace ==> r.dossiers == ImportFrom(st.dossiers, incoming)
    ensures !replace ==> added == |r.dossiers| - |st.dossiers|
  {
    if replace {
      return st.(dossiers := incoming), |incoming|;
    }
    var existing := st.dossiers;
    var chs := ChSet(existing);
    added := 0;
    for i := 0 to |incoming|
      invariant |existing| == |st.dossiers| + added
      invariant chs == ChSet(existing)
      invariant ImportFrom(existing, incoming[i..]) == ImportFrom(st.dossiers, incoming)
    {
      var d := incoming[i];
      assert incoming[i..][1..] == incoming[i + 1..];
      if d.numeroCH !in chs {
        ChSetAppend(existing, d);
        existing := existing + [d];
        chs := chs + {d.numeroCH};
        added := added + 1;
      }
    }
    assert incoming[|incoming|..] == [];
    r := st.(dossiers := existing);
  }

  // ── Factures, locations ──────────────────────────────────

  function GetFactureById(st: Storage, id: string): Option<Facture> {
    Seqs.Find(st.factures, HasId(FactureId, id))
  }

  /** `saveFacture`, with the stamping of `saveDossier`. */
  function SaveFacture(st: Storage, f: Facture, now: int): (r: Storage)
    ensures r == st.(factures := r.factures)
    ensures var existed := Seqs.Any(st.factures, HasId(FactureId, f.id));
      && GetFactureById(r, f.id) == Some(f.(dateModification := Some(now),
           dateCreation := if existed then f.dateCreation else Created(f.dateCreation, now)))
      && |r.factures| == (if existed then |st.factures| else |st.factures| + 1)
    ensures forall j :: 0 <= j < |st.factures| && st.factures[j].id != f.id ==> r.factures[j] == st.factures[j]
  {
    var toSave := f.(dateModification := Some(now));
    st.(factures := Upsert(st.factures, FactureId, toSave, toSave.(dateCreation := Created(f.dateCreation, now))))
  }

  /** `deleteFacture`: unconditional. */
  function DeleteFacture(st: Storage, id: string): (r: Storage)
    ensures r == st.(factures := r.factures)
    ensures GetFactureById(r, id).None?
    ensures forall x :: x in r.factures <==> x in st.factures && x.id != id
    ensures forall x :: multiset(r.factures)[x] == if x.id != id then multiset(st.factures)[x] else 0
    ensures r.factures == RemoveById(st.factures, FactureId, id)
  {
    st.(factures := RemoveById(st.factures, FactureId, id))
  }

  function GetLocationById(st: Storage, id: string): Option<Location> {
    Seqs.Find(st.locations, HasId(LocationId, id))
  }

  /** `saveLocation`, with the stamping of `saveDossier`. */
  function SaveLocation(st: Storage, l: Location, now: int): (r: Storage)
    ensures r == st.(locations := r.locations)
    ensures var existed := Seqs.Any(st.locations, HasId(LocationId, l.id));
      && GetLocationById(r, l.id) == Some(l.(dateModification := Some(now),
           dateCreation := if existed then l.dateCreation else Created(l.dateCreation, now)))
      && |r.locations| == (if existed then |st.locations| else |st.locations| + 1)
    ensures forall j :: 0 <= j < |st.locations| && st.locations[j].id != l.id ==> r.locations[j] == st.locations[j]
  {
    var toSave := l.(dateModification := Some(now));
    st.(locations := Upsert(st.locations, LocationId, toSave, toSave.(dateCreation := Created(l.dateCreation, now))))
  }

  /** `deleteLocation`: unconditional. */
  function DeleteLocation(st: Storage, id: string): (r: Storage)
    ensures r == st.(locations := r.locations)
    ensures GetLocationById(r, id).None?
    ensures forall x :: x in r.locations <==> x in st.locations && x.id != id
    ensures forall x :: multiset(r.locations)[x] == if x.id != id then multiset(st.locations)[x] else 0
    ensures r.locations == RemoveById(st.locations, LocationId, id)
  {
    st.(locations := RemoveById(st.locations, LocationId, id))
  }

  // ── Clients ──────────────────────────────────────────────

  function GetClientById(clients: seq<Client>, id: string): Option<Client> {
    Seqs.Find(clients, HasId(ClientId, id))
  }

  /** `saveClient`, with the stamping of `saveDossier`. */
  function SaveClient(st: Storage, c: Client, now: int): (r: Storage)
    ensures r == st.(clients := r.clients)
    ensures var existed := Seqs.Any(st.clients, HasId(ClientId, c.id));
      && GetClientById(r.clients, c.id) == Some(c.(dateModification := Some(now),
           dateCreation := if existed then c.dateCreation else Created(c.dateCreation, now)))
      && |r.clients| == (if existed then |st.clients| else |st.clients| + 1)
    ensures forall j :: 0 <= j < |st.clients| && st.clients[j].id != c.id ==> r.clients[j] == st.clients[j]
  {
    var toSave := c.(dateModification := Some(now));
    st.(clients := Upsert(st.clients, ClientId, toSave, toSave.(dateCreation := Created(c.dateCreation, now))))
  }

  /** `deleteClient`: unconditional here; the clients page asks `clientInUse` first. */
  function DeleteClient(st: Storage, id: string): (r: Storage)
    ensures r == st.(clients := r.clients)
    ensures GetClientById(r.clients, id).None?
    ensures forall x :: x in r.clients <==> x in st.clients && x.id != id
    ensures forall x :: multiset(r.clients)[x] == if x.id != id then multiset(st.clients)[x] else 0
    ensures r.clients == RemoveById(st.clients, ClientId, id)
  {
    st.(clients := RemoveById(st.clients, ClientId, id))
  }

  function DossierOfClient(id: string): Dossier -> bool { (d: Dossier) => d.clientId == Some(id) }
  function FactureOfClient(id: string): Facture -> bool { (f: Facture) => f.clientId == Some(id) }
  function LocationOfClient(id: string): Location -> bool { (l: Location) => l.clientId == Some(id) }

  /** `clientInUse`: a dossier, an invoice or a rental refers to the client. */
  function ClientInUse(st: Storage, id: string): (r: bool)
    ensures r <==>
      || (exists i :: 0 <= i < |st.dossiers| && st.dossiers[i].clientId == Some(id))
      || (exists i :: 0 <= i < |st.factures| && st.factures[i].clientId == Some(id))
      || (exists i :: 0 <= i < |st.locations| && st.locations[i].clientId == Some(id))
  {
    Seqs.Any(st.dossiers, DossierOfClient(id))
      || Seqs.Any(st.factures, FactureOfClient(id))
      || Seqs.Any(st.locations, LocationOfClient(id))
  }

  // ── Vehicle types ────────────────────────────────────────

  const DefaultLabels: seq<string> := ["Berline", "SUV", "Pick-up", "Porteur", "Semi-remorque", "Camion-citerne"]

  /** The id given to the `i`-th label of a legacy list of labels. */
  function MigratedId(i: nat, libelle: string): string {
    "tv_" + Decimal.NatToString(i) + "_" + libelle
  }

  /** The id of the `i`-th built-in type. */
  function DefaultId(i: nat): string {
    "tv_default_" + Decimal.NatToString(i)
  }

  /** `migrateTypesVehicule`: a legacy list of labels becomes records numbered by position, a list
      of records is kept as it is, anything else gives no type at all. */
  function MigrateTypesVehicule(raw: StoredTypes): (r: seq<TypeVehicule>)
    ensures raw.Labels? ==>
      && |r| == |raw.labels|
      && forall i :: 0 <= i < |r| ==> r[i].libelle == raw.labels[i] && r[i].id == MigratedId(i, raw.labels[i])
    ensures raw.Records? ==> r == raw.types
    ensures raw.NotAnArray? || raw.OtherArray? ==> r == []
  {
    match raw
    case Labels(labels) => seq(|labels|, i requires 0 <= i < |labels| => TypeVehicule(MigratedId(i, labels[i]), labels[i], None, None))
    case Records(types) => types
    case _ => []
  }

  /** The six built-in types, used whenever storage yields none. */
  function DefaultTypes(): (r: seq<TypeVehicule>)
    ensures |r| == |DefaultLabels|
    ensures forall i :: 0 <= i < |r| ==> r[i].libelle == DefaultLabels[i] && r[i].id == DefaultId(i)
  {
    seq(|DefaultLabels|, i requires 0 <= i < |DefaultLabels| => TypeVehicule(DefaultId(i), DefaultLabels[i], None, None))
  }

  /** `getTypesVehicule`: the stored or migrated types, or the built-in ones when there are none;
      never empty. */
  function GetTypesVehicule(raw: StoredTypes): (r: seq<TypeVehicule>)
    ensures |r| > 0
    ensures |MigrateTypesVehicule(raw)| > 0 ==> r == MigrateTypesVehicule(raw)
    ensures |MigrateTypesVehicule(raw)| == 0 ==> r == DefaultTypes()
  {
    var migrated := MigrateTypesVehicule(raw);
    if |migrated| > 0 then migrated else DefaultTypes()
  }

  /** The id of a migrated label determines its position and its label: the digits stop at
      the first `_`. */
  lemma MigratedIdInjective(i: nat, a: string, j: nat, b: string)
    requires MigratedId(i, a) == MigratedId(j, b)
    ensures i == j && a == b
  {
    var si, sj := Decimal.NatToString(i), Decimal.NatToString(j);
    var w := MigratedId(i, a)[3..];
    assert w == si + ("_" + a);
    assert w == sj + ("_" + b);
    Decimal.DigitPrefixOfDigits(si, "_" + a);
    Decimal.DigitPrefixOfDigits(sj, "_" + b);
    Decimal.NatToStringInjective(i, j);
    assert a == w[|si| + 1..] == b;
  }

  /** Migrated legacy labels receive pairwise distinct ids, even when labels repeat. */
  lemma MigratedIdsDistinct(labels: seq<string>)
    ensures UniqueIds(MigrateTypesVehicule(Labels(labels)), TypeId)
  {
    var r := MigrateTypesVehicule(Labels(labels));
    forall i, j | 0 <= i < j < |r| ensures r[i].id != r[j].id {
      if r[i].id == r[j].id {
        MigratedIdInjective(i, labels[i], j, labels[j]);
      }
    }
  }

  /** The built-in types have pairwise distinct ids. */
  lemma DefaultIdsDistinct()
    ensures UniqueIds(DefaultTypes(), TypeId)
  {
    var r := DefaultTypes();
    forall i, j | 0 <= i < j < |r| ensures r[i].id != r[j].id {
      assert r[i].id[11..] == Decimal.NatToString(i);
      assert r[j].id[11..] == Decimal.NatToString(j);
      if Decimal.NatToString(i) == Decimal.NatToString(j) {
        Decimal.NatToStringInjective(i, j);
      }
    }
  }

  /** `list.map(t => t.id === id ? toSave : t)`: every record with the id is replaced. */
  function ReplaceAll(list: seq<TypeVehicule>, id: string, toSave: TypeVehicule): (r: seq<TypeVehicule>)
    ensures |r| == |list|
    ensures forall i :: 0 <= i < |r| ==> r[i] == (if list[i].id == id then toSave else list[i])
  {
    seq(|list|, i requires 0 <= i < |list| => if list[i].id == id then toSave else list[i])
  }

  /** `saveTypeVehicule`: works on the list `getTypesVehicule` returns, so the first save into
      an empty store persists the built-in types along with the new one; an existing id has
      every one of its records replaced. The key then holds a list of records. */
  function SaveTypeVehicule(raw: StoredTypes, t: TypeVehicule, now: int): (r: StoredTypes)
    ensures r.Records?
    ensures var list := GetTypesVehicule(raw);
      var existed := Seqs.Any(list, HasId(TypeId, t.id));
      && |r.types| == (if existed then |list| else |list| + 1)
      && (forall i :: 0 <= i < |list| && list[i].id != t.id ==> r.types[i] == list[i])
      && (forall i :: 0 <= i < |r.types| && r.types[i].id == t.id ==>
            r.types[i] == t.(dateModification := Some(now),
              dateCreation := if existed then t.dateCreation else Created(t.dateCreation, now)))
  {
    var list := GetTypesVehicule(raw);
    var toSave := t.(dateModification := Some(now));
    if Seqs.Any(list, HasId(TypeId, t.id)) then Records(ReplaceAll(list, t.id, toSave))
    else
      assert forall i :: 0 <= i < |list| ==> list[i].id != t.id;
      Records(list + [toSave.(dateCreation := Created(t.dateCreation, now))])
  }

  /** `deleteTypeVehicule`: the remaining types are written back; deleting the last one brings
      the built-in types back on the next read. */
  function DeleteTypeVehicule(raw: StoredTypes, id: string): (r: StoredTypes)
    ensures r.Records? && forall i :: 0 <= i < |r.types| ==> r.types[i].id != id
    ensures forall t :: t in r.types <==> t in GetTypesVehicule(raw) && t.id != id
    ensures forall t :: multiset(r.types)[t] == if t.id != id then multiset(GetTypesVehicule(raw))[t] else 0
    ensures r.types == RemoveById(GetTypesVehicule(raw), TypeId, id)
    ensures |r.types| == 0 ==> GetTypesVehicule(r) == DefaultTypes()
    ensures |r.types| > 0 ==> GetTypesVehicule(r) == r.types
  {
    Records(RemoveById(GetTypesVehicule(raw), TypeId, id))
  }

  /** The first save into a store without types keeps the six built-in ones ahead of the new one. */
  lemma SaveIntoEmptyKeepsDefaults(t: TypeVehicule, now: int)
    requires forall i :: 0 <= i < |DefaultLabels| ==> t.id != DefaultId(i)
    ensures SaveTypeVehicule(NotAnArray, t, now).types
      == DefaultTypes() + [t.(dateModification := Some(now), dateCreation := Created(t.dateCreation, now))]
  {
    var list := GetTypesVehicule(NotAnArray);
    assert list == DefaultTypes();
    assert !Seqs.Any(list, HasId(TypeId, t.id));
  }

  function DossierOfType(libelle: string): Dossier -> bool { (d: Dossier) => d.typeVehicule == libelle }
  function LocationOfType(libelle: string): Location -> bool { (l: Location) => l.typeCamion == Some(libelle) }
  function FactureOfType(libelle: string): Facture -> bool { (f: Facture) => f.typeVehicule == libelle }

  /** `typeVehiculeInUse`: types are referred to by label, not by id. */
  function TypeVehiculeInUse(st: Storage, libelle: string): (r: bool)
    ensures r <==>
      || (exists i :: 0 <= i < |st.dossiers| && st.dossiers[i].typeVehicule == libelle)
      || (exists i :: 0 <= i < |st.locations| && st.locations[i].typeCamion == Some(libelle))
      || (exists i :: 0 <= i < |st.factures| && st.factures[i].typeVehicule == libelle)
  {
    Seqs.Any(st.dossiers, DossierOfType(libelle))
      || Seqs.Any(st.locations, LocationOfType(libelle))
      || Seqs.Any(st.factures, FactureOfType(libelle))
  }

  // ── Company ──────────────────────────────────────────────

  const DefaultEntreprise := EntrepriseInfo("Haidara Service Commercial (HSC)", "", "", "", None)

  /** `getEntreprise`: the stored letterhead or the default one. */
  function GetEntreprise(st: Storage): (r: EntrepriseInfo)
    ensures st.entreprise.Some? ==> r == st.entreprise.value
    ensures st.entreprise.None? ==> r == DefaultEntreprise
  {
    st.entreprise.GetOr(DefaultEntreprise)
  }

  /** `saveEntreprise`: what is saved is what is read back. */
  function SaveEntreprise(st: Storage, info: EntrepriseInfo): (r: Storage)
    ensures r == st.(entreprise := r.entreprise)
    ensures GetEntreprise(r) == info
  {
    st.(entreprise := Some(info))
  }
}

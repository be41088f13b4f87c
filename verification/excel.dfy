/** The pure part of the spreadsheet adapter: header matching and status recognition for the
    dossier import, the row-to-dossier mapping, and the arithmetic of the exports. Decoding and
    writing workbooks is not modelled; a decoded row is the sequence of its (header, cell) pairs
    in key order, every cell already spelled as a string. */
module Excel {
  import opened Wrappers
  import opened Types
  import Text
  import Seqs
  import Decimal
  import Utils

  // ── Normalisation ────────────────────────────────────────

  /** The accented letters the import keeps: `àâäéèêëïîôùûüÿç`. */
  predicate AccentedLetter(c: char) {
    || c == 'à' || c == 'â' || c == 'ä' || c == 'é' || c == 'è' || c == 'ê' || c == 'ë' || c == 'ï'
    || c == 'î' || c == 'ô' || c == 'ù' || c == 'û' || c == 'ü' || c == 'ÿ' || c == 'ç'
  }

  /** The characters a normalised text keeps: `a`..`z`, the accented letters and, for headers,
      the digits. */
  predicate Kept(c: char, digits: bool) {
    ('a' <= c <= 'z') || AccentedLetter(c) || (digits && Decimal.IsDigit(c))
  }

  function KeptBy(digits: bool): char -> bool {
    (c: char) => Kept(c, digits)
  }

  /** `s.toLowerCase().replace(/[^a-zàâäéèêëïîôùûüÿç0-9]/g, '')` for headers (`digits`), and the
      same without the digits for statuses. */
  function Norm(s: string, digits: bool): (r: string)
    ensures |r| <= |s|
    ensures forall i :: 0 <= i < |r| ==> Kept(r[i], digits)
  {
    Seqs.Filter(Text.Lower(s), KeptBy(digits))
  }

  /** Normalisation works character by character, so it distributes over concatenation. */
  lemma NormAppend(a: string, b: string, digits: bool)
    ensures Norm(a + b, digits) == Norm(a, digits) + Norm(b, digits)
  {
    Text.LowerAppend(a, b);
    Seqs.FilterAppend(Text.Lower(a), Text.Lower(b), KeptBy(digits));
  }

  /** Lowercase letters the normalisation keeps come through unchanged. */
  lemma NormKeeps(s: string, digits: bool)
    requires forall i :: 0 <= i < |s| ==> Text.LowerChar(s[i]) == s[i] && Kept(s[i], digits)
    ensures Norm(s, digits) == s
  {
    assert Text.Lower(s) == s;
    Seqs.FilterAll(s, KeptBy(digits));
  }

  /** A normalised text is normalised already. */
  lemma NormIdempotent(s: string, digits: bool)
    ensures Norm(Norm(s, digits), digits) == Norm(s, digits)
  {
    NormKeeps(Norm(s, digits), digits);
  }

  /** Every character of `w` lowercases to one the normalisation drops. */
  predicate Dropped(w: string, digits: bool) {
    forall i :: 0 <= i < |w| ==> !Kept(Text.LowerChar(w[i]), digits)
  }

  /** Characters the normalisation drops leave nothing. */
  lemma NormDrops(s: string, digits: bool)
    requires Dropped(s, digits)
    ensures Norm(s, digits) == ""
  {
    Seqs.FilterNone(Text.Lower(s), KeptBy(digits));
  }

  /** A capital letter normalises to its lowercase letter. */
  lemma NormCapital(c: char, digits: bool)
    requires 'A' <= c <= 'Z'
    ensures Norm([c], digits) == [(c as int + 32) as char]
  {
    assert Text.Lower([c]) == [(c as int + 32) as char];
    Seqs.FilterAll(Text.Lower([c]), KeptBy(digits));
  }

  /** The normal form holds only lowercased characters of the text. */
  lemma NormOmits(h: string, c: char, digits: bool)
    requires forall i :: 0 <= i < |h| ==> Text.LowerChar(h[i]) != c
    ensures c !in Norm(h, digits)
  {
    Seqs.FilterMembers(Text.Lower(h), KeptBy(digits), c);
  }

  // ── Header matching ──────────────────────────────────────

  /** Some candidate occurs in the normalised text (`candidates.some(c => n.includes(c))`). */
  predicate MatchesAny(normalized: string, candidates: seq<string>) {
    |candidates| > 0 && (Text.Contains(normalized, candidates[0]) || MatchesAny(normalized, candidates[1..]))
  }

  lemma {:induction false} MatchesAnyIff(normalized: string, candidates: seq<string>)
    ensures MatchesAny(normalized, candidates) <==> exists c :: c in candidates && Text.Contains(normalized, c)
  {
    if |candidates| > 0 {
      MatchesAnyIff(normalized, candidates[1..]);
      if Text.Contains(normalized, candidates[0]) {
        assert candidates[0] in candidates;
      } else if exists c :: c in candidates && Text.Contains(normalized, c) {
        var c :| c in candidates && Text.Contains(normalized, c);
        assert c in candidates[1..];
      }
    }
  }

  /** When every candidate starts with `u` and `u` does not occur, no candidate occurs. */
  lemma NoCandidateOccurs(normalized: string, candidates: seq<string>, u: string)
    requires forall c :: c in candidates ==> Text.StartsWith(c, u)
    requires !Text.Contains(normalized, u)
    ensures !MatchesAny(normalized, candidates)
  {
    MatchesAnyIff(normalized, candidates);
    forall c | c in candidates
      ensures !Text.Contains(normalized, c)
    {
      if Text.Contains(normalized, c) {
        Text.ContainsPrefix(normalized, c, u);
      }
    }
  }

  /** The first key, in key order, that satisfies `p`: every satisfying key comes at or after it. */
  function FirstKey(keys: seq<string>, p: string -> bool): (r: Option<string>)
    ensures r.Some? ==> r.value in keys && p(r.value)
    ensures r.Some? ==> forall j :: 0 <= j < |keys| && p(keys[j]) ==> r.value in keys[..j + 1]
    ensures r.None? <==> forall j :: 0 <= j < |keys| ==> !p(keys[j])
  {
    match Seqs.FindIndex(keys, p)
    case Some(i) =>
      assert forall j :: 0 <= j < |keys| && p(keys[j]) ==> i <= j && keys[..j + 1][i] == keys[i];
      Some(keys[i])
    case None => None
  }

  predicate HeaderMatch(key: string, candidates: seq<string>) {
    MatchesAny(Norm(key, true), candidates)
  }

  function HeaderMatches(candidates: seq<string>): string -> bool {
    (k: string) => HeaderMatch(k, candidates)
  }

  /** `findColumn(row, candidates)`: the first key whose normalised form contains one of the
      candidates, accents kept on both sides. */
  function FindColumn(keys: seq<string>, candidates: seq<string>): (r: Option<string>)
    ensures r.Some? ==> r.value in keys && HeaderMatch(r.value, candidates)
    ensures r.Some? ==> forall j :: 0 <= j < |keys| && HeaderMatch(keys[j], candidates) ==> r.value in keys[..j + 1]
    ensures r.None? <==> forall j :: 0 <= j < |keys| ==> !HeaderMatch(keys[j], candidates)
  {
    FirstKey(keys, HeaderMatches(candidates))
  }

  // ── Accent folding (the corrected header match) ──────────

  /** Maps each kept accented letter to its base letter. */
  function FoldChar(c: char): char {
    if c == 'à' || c == 'â' || c == 'ä' then 'a'
    else if c == 'é' || c == 'è' || c == 'ê' || c == 'ë' then 'e'
    else if c == 'ï' || c == 'î' then 'i'
    else if c == 'ô' then 'o'
    else if c == 'ù' || c == 'û' || c == 'ü' then 'u'
    else if c == 'ÿ' then 'y'
    else if c == 'ç' then 'c'
    else c
  }

  /** The letters that accent folding produces from some other letter. */
  predicate FoldImage(c: char) {
    c == 'a' || c == 'e' || c == 'i' || c == 'o' || c == 'u' || c == 'y' || c == 'c'
  }

  function Fold(s: string): (r: string)
    ensures |r| == |s|
    ensures forall i :: 0 <= i < |s| ==> r[i] == FoldChar(s[i])
  {
    seq(|s|, i requires 0 <= i < |s| => FoldChar(s[i]))
  }

  function FoldAll(candidates: seq<string>): (r: seq<string>)
    ensures |r| == |candidates|
    ensures forall i :: 0 <= i < |candidates| ==> r[i] == Fold(candidates[i])
  {
    seq(|candidates|, i requires 0 <= i < |candidates| => Fold(candidates[i]))
  }

  lemma FoldAppend(a: string, b: string)
    ensures Fold(a + b) == Fold(a) + Fold(b)
  {
    assert forall i :: 0 <= i < |a + b| ==> Fold(a + b)[i] == (Fold(a) + Fold(b))[i];
  }

  /** Folding keeps every occurrence: the folded text contains the folded search term. */
  lemma {:induction false} FoldContains(s: string, t: string)
    ensures Text.Contains(s, t) ==> Text.Contains(Fold(s), Fold(t))
    decreases |s|
  {
    if Text.StartsWith(s, t) {
      assert Fold(s)[..|t|] == Fold(t);
    } else if |s| > 0 {
      FoldContains(s[1..], t);
      assert Fold(s)[1..] == Fold(s[1..]);
    }
  }

  /** A letter no accent folds to stays missing after folding. */
  lemma FoldOmits(s: string, c: char)
    requires c !in s && !FoldImage(c)
    ensures c !in Fold(s)
  {
    forall i | 0 <= i < |s|
      ensures Fold(s)[i] != c
    {
      assert s[i] in s;
    }
  }

  /** The header match with accents folded on both sides, so that `Référence` meets `reference`
      and `Prénom` meets `prenom`. */
  predicate FoldedMatch(key: string, candidates: seq<string>) {
    MatchesAny(Fold(Norm(key, true)), FoldAll(candidates))
  }

  function FoldedMatches(candidates: seq<string>): string -> bool {
    (k: string) => FoldedMatch(k, candidates)
  }

  /** `findColumn` with accents folded: the first key whose folded normal form contains one of
      the folded candidates. */
  function FindColumnFolded(keys: seq<string>, candidates: seq<string>): (r: Option<string>)
    ensures r.Some? ==> r.value in keys && FoldedMatch(r.value, candidates)
    ensures r.Some? ==> forall j :: 0 <= j < |keys| && FoldedMatch(keys[j], candidates) ==> r.value in keys[..j + 1]
    ensures r.None? <==> forall j :: 0 <= j < |keys| ==> !FoldedMatch(keys[j], candidates)
  {
    FirstKey(keys, FoldedMatches(candidates))
  }

  /** Folding only adds matches: every header the accent-keeping match accepts, the folded one
      accepts too, so a column found before is still found. */
  lemma FoldedMatchExtends(key: string, candidates: seq<string>)
    ensures HeaderMatch(key, candidates) ==> FoldedMatch(key, candidates)
  {
    var n := Norm(key, true);
    MatchesAnyIff(n, candidates);
    MatchesAnyIff(Fold(n), FoldAll(candidates));
    if HeaderMatch(key, candidates) {
      var c :| c in candidates && Text.Contains(n, c);
      var i :| 0 <= i < |candidates| && candidates[i] == c;
      FoldContains(n, c);
      assert FoldAll(candidates)[i] in FoldAll(candidates);
    }
  }

  lemma FindColumnFoldedFindsMore(keys: seq<string>, candidates: seq<string>)
    ensures FindColumn(keys, candidates).Some? ==> FindColumnFolded(keys, candidates).Some?
  {
    var r := FindColumn(keys, candidates);
    if r.Some? {
      var j :| 0 <= j < |keys| && keys[j] == r.value;
      FoldedMatchExtends(keys[j], candidates);
    }
  }

  // ── Status recognition ───────────────────────────────────

  /** `mapStatut`: the stored status a spreadsheet cell denotes, read from its letters alone
      (lowercased, digits and everything else dropped). `cartegrise` is checked before
      `provisoire` and an exit before an entry; an entry may be spelt `entree` or `entrée`;
      anything else, `lancé` included, is a launched dossier. */
  function MapStatut(raw: string): (r: StatutDossier)
    ensures var s := Norm(raw, false);
      && (r == CarteGriseSortie || r == CarteGriseEntree ==> Text.Contains(s, "cartegrise"))
      && (r == ProvisoireSortie || r == ProvisoireEntree ==> Text.Contains(s, "provisoire"))
      && (r == CarteGriseSortie || r == ProvisoireSortie ==> Text.Contains(s, "sortie"))
      && (!Text.Contains(s, "cartegrise") && !Text.Contains(s, "provisoire") ==> r == Lance)
  {
    var s := Norm(raw, false);
    var entree := Text.Contains(s, "entree") || Text.Contains(s, "entrée");
    if Text.Contains(s, "cartegrise") && Text.Contains(s, "sortie") then CarteGriseSortie
    else if Text.Contains(s, "cartegrise") && entree then CarteGriseEntree
    else if Text.Contains(s, "provisoire") && Text.Contains(s, "sortie") then ProvisoireSortie
    else if Text.Contains(s, "provisoire") && entree then ProvisoireEntree
    else Lance
  }

  lemma NormFour(h: string, a: string, b: string, c: string, d: string, digits: bool)
    requires h == a + b + c + d
    ensures Norm(h, digits) == Norm(a, digits) + Norm(b, digits) + Norm(c, digits) + Norm(d, digits)
  {
    NormAppend(a + b + c, d, digits);
    NormAppend(a + b, c, digits);
    NormAppend(a, b, digits);
  }

  /** Every character of `w` lowercases to one the normalisation keeps. */
  predicate Letters(w: string, digits: bool) {
    forall i :: 0 <= i < |w| ==> Kept(Text.LowerChar(w[i]), digits)
  }

  lemma NormLetters(w: string, digits: bool)
    requires Letters(w, digits)
    ensures Norm(w, digits) == Text.Lower(w)
  {
    Seqs.FilterAll(Text.Lower(w), KeptBy(digits));
  }

  /** A word followed by separators normalises to the lowercased word. */
  lemma NormWordGap(h: string, w: string, l: string, g: string, digits: bool)
    requires h == w + g
    requires Letters(w, digits) && Text.Lower(w) == l && Dropped(g, digits)
    ensures Norm(h, digits) == l
  {
    NormAppend(w, g, digits);
    NormLetters(w, digits);
    NormDrops(g, digits);
  }

  lemma NormTwoWords(h: string, w1: string, l1: string, g1: string, w2: string, l2: string, g2: string, digits: bool)
    requires h == w1 + g1 + w2 + g2
    requires Letters(w1, digits) && Text.Lower(w1) == l1 && Dropped(g1, digits)
    requires Letters(w2, digits) && Text.Lower(w2) == l2 && Dropped(g2, digits)
    ensures Norm(h, digits) == l1 + l2
  {
    assert h == (w1 + g1) + (w2 + g2);
    NormAppend(w1 + g1, w2 + g2, digits);
    NormWordGap(w1 + g1, w1, l1, g1, digits);
    NormWordGap(w2 + g2, w2, l2, g2, digits);
  }

  lemma NormThreeWords(h: string, w1: string, l1: string, g1: string, w2: string, l2: string, g2: string,
                       w3: string, l3: string, g3: string, digits: bool)
    requires h == w1 + g1 + w2 + g2 + w3 + g3
    requires Letters(w1, digits) && Text.Lower(w1) == l1 && Dropped(g1, digits)
    requires Letters(w2, digits) && Text.Lower(w2) == l2 && Dropped(g2, digits)
    requires Letters(w3, digits) && Text.Lower(w3) == l3 && Dropped(g3, digits)
    ensures Norm(h, digits) == l1 + l2 + l3
  {
    assert h == (w1 + g1) + (w2 + g2 + w3 + g3);
    NormAppend(w1 + g1, w2 + g2 + w3 + g3, digits);
    NormWordGap(w1 + g1, w1, l1, g1, digits);
    NormTwoWords(w2 + g2 + w3 + g3, w2, l2, g2, w3, l3, g3, digits);
  }

  /** A status cell that spells neither `g` nor `p` is a launched dossier. */
  lemma ReadsLance(raw: string)
    requires 'g' !in Norm(raw, false) && 'p' !in Norm(raw, false)
    ensures MapStatut(raw) == Lance
  {
    Text.MissingChar(Norm(raw, false), "cartegrise", 'g');
    Text.MissingChar(Norm(raw, false), "provisoire", 'p');
  }

  /** The two spellings of an entry. */
  predicate EntreeWord(w: string) {
    w == "entrée" || w == "entree"
  }

  /** `provisoire` followed by an entry word: a provisional entry, since the text holds no `ti`
      and so no `sortie`. */
  lemma ProvisoireEntreeReads(s: string, w: string)
    requires s == "provisoire" + w && EntreeWord(w)
    ensures !Text.Contains(s, "cartegrise") && Text.Contains(s, "provisoire") && !Text.Contains(s, "sortie")
    ensures Text.Contains(s, "entree") || Text.Contains(s, "entrée")
  {
    Text.MissingChar(s, "cartegrise", 'g');
    Text.ContainsParts("provisoire", w);
    Text.LacksPair(s, "sortie", 3);
  }

  /** `provisoire` followed by `sortie`: a provisional exit. */
  lemma ProvisoireSortieReads(s: string)
    requires s == "provisoire" + "sortie"
    ensures !Text.Contains(s, "cartegrise") && Text.Contains(s, "provisoire") && Text.Contains(s, "sortie")
  {
    Text.MissingChar(s, "cartegrise", 'g');
    Text.ContainsParts("provisoire", "sortie");
  }

  /** `cartegrise` followed by an entry word: a registration entry, since the text holds no `o`
      and so no `sortie`. */
  lemma CarteGriseEntreeReads(s: string, w: string)
    requires s == "cartegrise" + w && EntreeWord(w)
    ensures Text.Contains(s, "cartegrise") && !Text.Contains(s, "sortie")
    ensures Text.Contains(s, "entree") || Text.Contains(s, "entrée")
  {
    Text.ContainsParts("cartegrise", w);
    Text.MissingChar(s, "sortie", 'o');
  }

  /** `cartegrise` followed by `sortie`: a registration exit. */
  lemma CarteGriseSortieReads(s: string)
    requires s == "cartegrise" + "sortie"
    ensures Text.Contains(s, "cartegrise") && Text.Contains(s, "sortie")
  {
    Text.ContainsParts("cartegrise", "sortie");
  }

  // The stored codes and display labels of the dossier statuses, normalised.

  lemma NormLance(h: string)
    requires h == "Lancé" || h == "Lance"
    ensures 'g' !in Norm(h, false) && 'p' !in Norm(h, false)
  {
    NormOmits(h, 'g', false);
    NormOmits(h, 'p', false);
  }

  lemma CarteGrisePieces(w1: string, g: string, w2: string)
    requires w1 == "Carte" && g == " " && w2 == "grise"
    ensures Letters(w1, false) && Text.Lower(w1) == "carte" && Dropped(g, false)
    ensures Letters(w2, false) && Text.Lower(w2) == "grise"
  {
  }

  lemma DirectionPieces(open: string, w: string, l: string, close: string)
    requires open == " (" && close == ")"
    requires (w == "Entrée" && l == "entrée") || (w == "Sortie" && l == "sortie")
    ensures Dropped(open, false) && Letters(w, false) && Text.Lower(w) == l && Dropped(close, false)
  {
  }

  lemma NormProvisoireEntreeLabel(h: string)
    requires h == "Provisoire (Entrée)"
    ensures Norm(h, false) == "provisoire" + "entrée"
  {
    NormTwoWords(h, "Provisoire", "provisoire", " (", "Entrée", "entrée", ")", false);
  }

  lemma NormProvisoireEntreeCode(h: string)
    requires h == "Provisoire_Entree"
    ensures Norm(h, false) == "provisoire" + "entree"
  {
    NormTwoWords(h, "Provisoire", "provisoire", "_", "Entree", "entree", "", false);
  }

  lemma NormProvisoireSortieLabel(h: string)
    requires h == "Provisoire (Sortie)"
    ensures Norm(h, false) == "provisoire" + "sortie"
  {
    NormTwoWords(h, "Provisoire", "provisoire", " (", "Sortie", "sortie", ")", false);
  }

  lemma NormProvisoireSortieCode(h: string)
    requires h == "Provisoire_Sortie"
    ensures Norm(h, false) == "provisoire" + "sortie"
  {
    NormTwoWords(h, "Provisoire", "provisoire", "_", "Sortie", "sortie", "", false);
  }

  lemma NormCarteGriseEntreeLabel(h: string)
    requires h == "Carte grise (Entrée)"
    ensures Norm(h, false) == "cartegrise" + "entrée"
  {
    CarteGrisePieces("Carte", " ", "grise");
    DirectionPieces(" (", "Entrée", "entrée", ")");
    NormThreeWords(h, "Carte", "carte", " ", "grise", "grise", " (", "Entrée", "entrée", ")", false);
  }

  lemma NormCarteGriseEntreeCode(h: string)
    requires h == "CarteGrise_Entree"
    ensures Norm(h, false) == "cartegrise" + "entree"
  {
    NormTwoWords(h, "CarteGrise", "cartegrise", "_", "Entree", "entree", "", false);
  }

  lemma NormCarteGriseSortieLabel(h: string)
    requires h == "Carte grise (Sortie)"
    ensures Norm(h, false) == "cartegrise" + "sortie"
  {
    CarteGrisePieces("Carte", " ", "grise");
    DirectionPieces(" (", "Sortie", "sortie", ")");
    NormThreeWords(h, "Carte", "carte", " ", "grise", "grise", " (", "Sortie", "sortie", ")", false);
  }

  lemma NormCarteGriseSortieCode(h: string)
    requires h == "CarteGrise_Sortie"
    ensures Norm(h, false) == "cartegrise" + "sortie"
  {
    NormTwoWords(h, "CarteGrise", "cartegrise", "_", "Sortie", "sortie", "", false);
  }

  /** `mapStatut` reads every status back from its display label and from its stored code, so
      a sheet exported from the application, or filled in with the labels the form offers,
      imports with the statuses it shows. */
  lemma StatutReadsBack(raw: string, st: StatutDossier)
    requires raw == Utils.DossierLabel(st) || raw == st.Code()
    ensures MapStatut(raw) == st
  {
    match st
    case Lance =>
      LanceReadsBack(raw);
    case ProvisoireEntree =>
      ProvisoireEntreeReadsBack(raw);
    case ProvisoireSortie =>
      ProvisoireSortieReadsBack(raw);
    case CarteGriseEntree =>
      CarteGriseEntreeReadsBack(raw);
    case CarteGriseSortie =>
      CarteGriseSortieReadsBack(raw);
  }

  lemma LanceReadsBack(raw: string)
    requires raw == "Lancé" || raw == "Lance"
    ensures MapStatut(raw) == Lance
  {
    NormLance(raw);
    ReadsLance(raw);
  }

  lemma ProvisoireEntreeReadsBack(raw: string)
    requires raw == "Provisoire (Entrée)" || raw == "Provisoire_Entree"
    ensures MapStatut(raw) == ProvisoireEntree
  {
    if raw == "Provisoire (Entrée)" {
      NormProvisoireEntreeLabel(raw);
      ProvisoireEntreeReads(Norm(raw, false), "entrée");
    } else {
      NormProvisoireEntreeCode(raw);
      ProvisoireEntreeReads(Norm(raw, false), "entree");
    }
  }

  lemma ProvisoireSortieReadsBack(raw: string)
    requires raw == "Provisoire (Sortie)" || raw == "Provisoire_Sortie"
    ensures MapStatut(raw) == ProvisoireSortie
  {
    if raw == "Provisoire (Sortie)" {
      NormProvisoireSortieLabel(raw);
    } else {
      NormProvisoireSortieCode(raw);
    }
    ProvisoireSortieReads(Norm(raw, false));
  }

  lemma CarteGriseEntreeReadsBack(raw: string)
    requires raw == "Carte grise (Entrée)" || raw == "CarteGrise_Entree"
    ensures MapStatut(raw) == CarteGriseEntree
  {
    if raw == "Carte grise (Entrée)" {
      NormCarteGriseEntreeLabel(raw);
      CarteGriseEntreeReads(Norm(raw, false), "entrée");
    } else {
      NormCarteGriseEntreeCode(raw);
      CarteGriseEntreeReads(Norm(raw, false), "entree");
    }
  }

  lemma CarteGriseSortieReadsBack(raw: string)
    requires raw == "Carte grise (Sortie)" || raw == "CarteGrise_Sortie"
    ensures MapStatut(raw) == CarteGriseSortie
  {
    if raw == "Carte grise (Sortie)" {
      NormCarteGriseSortieLabel(raw);
    } else {
      NormCarteGriseSortieCode(raw);
    }
    CarteGriseSortieReads(Norm(raw, false));
  }

  // ── The import template's headers ────────────────────────

  /** The candidate lists of the dossier import, in the order the columns are looked up. */
  const ChCandidates: seq<string> := ["ch", "numeroch", "numch", "nch"]
  const ChassisCandidates: seq<string> := ["chassis", "châssis"]
  const AnneeCandidates: seq<string> := ["annee", "année", "year"]
  const RefCandidates: seq<string> := ["ref", "reference", "refvehicule"]
  const TypeCandidates: seq<string> := ["type", "typevehicule"]
  const NomCandidates: seq<string> := ["nom", "nomclient"]
  const PrenomCandidates: seq<string> := ["prenom", "prenomclient"]
  const TelCandidates: seq<string> := ["tel", "telephone", "phone"]
  const StatutCandidates: seq<string> := ["statut", "status", "etat"]
  const NotesCandidates: seq<string> := ["note", "observation", "commentaire"]

  /** The header row of the downloadable import template, in column order. */
  const TemplateHeaders: seq<string> := [
    "Numéro CH", "Châssis CH", "Année", "Référence Véhicule", "Type Véhicule",
    "Nom Client", "Prénom Client", "Téléphone", "Statut", "Notes"]

  /** The template's vehicle-reference and first-name headers. */
  const TemplateRefHeader: string := TemplateHeaders[3]
  const TemplatePrenomHeader: string := TemplateHeaders[6]

  /** No character of `h` lowercases to `c`. */
  predicate LacksLetter(h: string, c: char) {
    forall i :: 0 <= i < |h| ==> Text.LowerChar(h[i]) != c
  }

  /** Every candidate starts with `u`, and `u` holds the letter `c`, which folding neither
      produces nor changes: a text without `c` matches none of the candidates. */
  predicate Excludes(c: char, u: string, candidates: seq<string>) {
    && c in u && !FoldImage(c) && FoldChar(c) == c
    && forall x :: x in candidates ==> Text.StartsWith(x, u)
  }

  /** A header without the letter `c`, matched against candidates that all start with a term
      holding `c`, matches none of them, accents folded or not. */
  lemma HeaderLacks(h: string, c: char, u: string, candidates: seq<string>)
    requires Excludes(c, u, candidates) && LacksLetter(h, c)
    ensures !HeaderMatch(h, candidates) && !FoldedMatch(h, candidates)
  {
    var n := Norm(h, true);
    NormOmits(h, c, true);
    Text.MissingChar(n, u, c);
    NoCandidateOccurs(n, candidates, u);
    FoldOmits(n, c);
    var k :| 0 <= k < |u| && u[k] == c;
    assert Fold(u)[k] == c;
    Text.MissingChar(Fold(n), Fold(u), c);
    forall x | x in FoldAll(candidates)
      ensures Text.StartsWith(x, Fold(u))
    {
      var i :| 0 <= i < |candidates| && FoldAll(candidates)[i] == x;
      assert candidates[i] in candidates;
      assert x[..|u|] == Fold(candidates[i][..|u|]);
    }
    NoCandidateOccurs(Fold(n), FoldAll(candidates), Fold(u));
  }

  /** When `u` can only occur in `head + tail` inside `head`, and `head` lacks one of its letters,
      no candidate starting with `u` occurs. */
  lemma HeadOnlyOccurrence(head: string, tail: string, u: string, missing: char, candidates: seq<string>)
    requires |u| > 0 && u[|u| - 1] !in tail && missing in u && missing !in head
    requires forall x :: x in candidates ==> Text.StartsWith(x, u)
    ensures !MatchesAny(head + tail, candidates)
  {
    Text.ContainsBefore(head, tail, u);
    Text.MissingChar(head, u, missing);
    NoCandidateOccurs(head + tail, candidates, u);
  }

  /** A text whose folded head is the first folded candidate matches the folded candidates. */
  lemma FoldedHeadMatches(head: string, tail: string, candidates: seq<string>)
    requires |candidates| > 0 && Fold(head) == Fold(candidates[0])
    ensures MatchesAny(Fold(head + tail), FoldAll(candidates))
  {
    FoldAppend(head, tail);
    Text.ContainsParts(Fold(head), Fold(tail));
  }

  /** Splitting a text splits its normal form. */
  lemma NormSplit(h: string, head: string, tail: string, digits: bool)
    requires h == head + tail
    ensures Norm(h, digits) == Norm(head, digits) + Norm(tail, digits)
  {
    NormAppend(head, tail, digits);
  }

  /** A header whose normal form is `head` followed by the normal form of `rawTail`, where only
      `head` can hold the term `u` and lacks one of its letters, matches no candidate starting
      with `u`; folded, it matches when `head` folds to the first candidate. */
  lemma SplitHeader(h: string, rawTail: string, head: string, u: string, missing: char, candidates: seq<string>)
    requires Norm(h, true) == head + Norm(rawTail, true)
    requires |u| > 0 && forall i :: 0 <= i < |rawTail| ==> Text.LowerChar(rawTail[i]) != u[|u| - 1]
    requires missing in u && missing !in head
    requires forall x :: x in candidates ==> Text.StartsWith(x, u)
    requires |candidates| > 0 && Fold(head) == Fold(candidates[0])
    ensures !HeaderMatch(h, candidates) && FoldedMatch(h, candidates)
  {
    var tail := Norm(rawTail, true);
    NormOmits(rawTail, u[|u| - 1], true);
    HeadOnlyOccurrence(head, tail, u, missing, candidates);
    FoldedHeadMatches(head, tail, candidates);
  }

  lemma NormRef()
    ensures Norm("Réf", true) == "réf"
  {
  }

  lemma ReferenceHeaderNorm()
    ensures Norm("Référence Véhicule", true) == "réf" + Norm("érence Véhicule", true)
  {
    NormSplit("Référence Véhicule", "Réf", "érence Véhicule", true);
    NormRef();
  }

  lemma ReferenceHeaderFacts()
    ensures forall i :: 0 <= i < |"érence Véhicule"| ==> Text.LowerChar("érence Véhicule"[i]) != 'f'
    ensures 'e' !in "réf" && Fold("réf") == Fold(RefCandidates[0])
    ensures forall x :: x in RefCandidates ==> Text.StartsWith(x, "ref")
  {
    assert Fold("réf") == "ref";
  }

  /** `Référence Véhicule` normalises to `référencevéhicule`: it does not contain `ref`, yet folded
      it starts with it. */
  lemma ReferenceHeader(h: string)
    requires h == "Référence Véhicule"
    ensures !HeaderMatch(h, RefCandidates)
    ensures FoldedMatch(h, RefCandidates)
  {
    ReferenceHeaderNorm();
    ReferenceHeaderFacts();
    SplitHeader(h, "érence Véhicule", "réf", "ref", 'e', RefCandidates);
  }

  lemma NormPre()
    ensures Norm("Pré", true) == "pré"
  {
  }

  lemma NormNom()
    ensures Norm("nom", true) == "nom"
  {
  }

  lemma NormPrenom()
    ensures Norm("Prénom", true) == "prénom"
  {
    NormSplit("Prénom", "Pré", "nom", true);
    NormPre();
    NormNom();
  }

  lemma PrenomHeaderNorm()
    ensures Norm("Prénom Client", true) == "prénom" + Norm(" Client", true)
  {
    NormSplit("Prénom Client", "Prénom", " Client", true);
    NormPrenom();
  }

  lemma PrenomHeaderFacts()
    ensures forall i :: 0 <= i < |" Client"| ==> Text.LowerChar(" Client"[i]) != 'm'
    ensures 'e' !in "prénom" && Fold("prénom") == Fold(PrenomCandidates[0])
    ensures forall x :: x in PrenomCandidates ==> Text.StartsWith(x, "prenom")
  {
    assert Fold("prénom") == "prenom";
  }

  /** `Prénom Client` normalises to `prénomclient`: it does not contain `prenom`, yet folded it
      starts with it. */
  lemma PrenomHeader(h: string)
    requires h == "Prénom Client"
    ensures !HeaderMatch(h, PrenomCandidates)
    ensures FoldedMatch(h, PrenomCandidates)
  {
    PrenomHeaderNorm();
    PrenomHeaderFacts();
    SplitHeader(h, " Client", "prénom", "prenom", 'e', PrenomCandidates);
  }

  /** When every key but `keys[k]` lacks the letter `c` or the letter `d`, both excluding the
      candidates, and `keys[k]` does not match either, no key matches. */
  lemma AllMissExcept(keys: seq<string>, k: nat, c: char, d: char, u: string, candidates: seq<string>)
    requires Excludes(c, u, candidates) && Excludes(d, u, candidates)
    requires k < |keys| && !HeaderMatch(keys[k], candidates)
    requires forall j :: 0 <= j < |keys| && j != k ==> LacksLetter(keys[j], c) || LacksLetter(keys[j], d)
    ensures FindColumn(keys, candidates) == None
  {
    forall j | 0 <= j < |keys| && j != k
      ensures !HeaderMatch(keys[j], candidates)
    {
      if LacksLetter(keys[j], c) {
        HeaderLacks(keys[j], c, u, candidates);
      } else {
        HeaderLacks(keys[j], d, u, candidates);
      }
    }
  }

  /** When every key before `keys[k]` lacks the letter `c` or the letter `d`, both excluding the
      candidates, and `keys[k]` matches with accents folded, the folded search finds `keys[k]`. */
  lemma FoldedFindsAt(keys: seq<string>, k: nat, c: char, d: char, u: string, candidates: seq<string>)
    requires Excludes(c, u, candidates) && Excludes(d, u, candidates)
    requires k < |keys| && FoldedMatch(keys[k], candidates)
    requires forall j :: 0 <= j < k ==> LacksLetter(keys[j], c) || LacksLetter(keys[j], d)
    ensures FindColumnFolded(keys, candidates) == Some(keys[k])
  {
    forall j | 0 <= j < k
      ensures !FoldedMatch(keys[j], candidates)
    {
      if LacksLetter(keys[j], c) {
        HeaderLacks(keys[j], c, u, candidates);
      } else {
        HeaderLacks(keys[j], d, u, candidates);
      }
    }
    var r := FindColumnFolded(keys, candidates);
    var i :| 0 <= i <= k && keys[..k + 1][i] == r.value;
    assert r.value == keys[k];
  }

  lemma TemplateHeaderNames()
    ensures |TemplateHeaders| == 10
    ensures TemplateHeaders[3] == "Référence Véhicule" && TemplateHeaders[6] == "Prénom Client"
    ensures TemplateRefHeader == "Référence Véhicule" && TemplatePrenomHeader == "Prénom Client"
  {
  }

  lemma RefExcluded()
    ensures Excludes('f', "ref", RefCandidates)
  {
    ReferenceHeaderFacts();
  }

  lemma PrenomExcluded()
    ensures Excludes('p', "prenom", PrenomCandidates) && Excludes('r', "prenom", PrenomCandidates)
  {
    PrenomHeaderFacts();
  }

  lemma TemplateReference()
    ensures 3 < |TemplateHeaders|
    ensures !HeaderMatch(TemplateHeaders[3], RefCandidates) && FoldedMatch(TemplateHeaders[3], RefCandidates)
  {
    TemplateHeaderNames();
    ReferenceHeader(TemplateHeaders[3]);
  }

  lemma TemplatePrenom()
    ensures 6 < |TemplateHeaders|
    ensures !HeaderMatch(TemplateHeaders[6], PrenomCandidates) && FoldedMatch(TemplateHeaders[6], PrenomCandidates)
  {
    TemplateHeaderNames();
    PrenomHeader(TemplateHeaders[6]);
  }

  lemma TemplateLacksFBefore()
    ensures forall j :: 0 <= j < 3 ==> LacksLetter(TemplateHeaders[j], 'f')
  {
  }

  lemma TemplateLacksFAfter()
    ensures forall j :: 3 < j < |TemplateHeaders| ==> LacksLetter(TemplateHeaders[j], 'f')
  {
  }

  lemma TemplateLacksF()
    ensures forall j :: 0 <= j < |TemplateHeaders| && j != 3 ==> LacksLetter(TemplateHeaders[j], 'f')
  {
    TemplateLacksFBefore();
    TemplateLacksFAfter();
  }

  lemma TemplateLacksPFirst()
    ensures forall j :: 0 <= j < 4 ==> LacksLetter(TemplateHeaders[j], 'p')
  {
  }

  lemma TemplateLacksPOrRMiddle()
    ensures LacksLetter(TemplateHeaders[4], 'r') && LacksLetter(TemplateHeaders[5], 'p')
  {
  }

  lemma TemplateLacksPOrRBefore()
    ensures forall j :: 0 <= j < 6 ==> LacksLetter(TemplateHeaders[j], 'p') || LacksLetter(TemplateHeaders[j], 'r')
  {
    TemplateLacksPFirst();
    TemplateLacksPOrRMiddle();
  }

  lemma TemplateLacksPOrRAfter()
    ensures forall j :: 6 < j < |TemplateHeaders| ==> LacksLetter(TemplateHeaders[j], 'p') || LacksLetter(TemplateHeaders[j], 'r')
  {
    assert LacksLetter(TemplateHeaders[7], 'r');
  }

  lemma TemplateLacksPOrR()
    ensures forall j :: 0 <= j < |TemplateHeaders| && j != 6 ==> LacksLetter(TemplateHeaders[j], 'p') || LacksLetter(TemplateHeaders[j], 'r')
  {
    TemplateLacksPOrRBefore();
    TemplateLacksPOrRAfter();
  }

  /** The import as written loses the reference and the first name of every row of its own
      template: no template header matches those candidates. */
  lemma TemplateLosesReference()
    ensures FindColumn(TemplateHeaders, RefCandidates) == None
  {
    RefExcluded();
    TemplateReference();
    TemplateLacksF();
    AllMissExcept(TemplateHeaders, 3, 'f', 'f', "ref", RefCandidates);
  }

  lemma TemplateLosesPrenom()
    ensures FindColumn(TemplateHeaders, PrenomCandidates) == None
  {
    PrenomExcluded();
    TemplatePrenom();
    TemplateLacksPOrR();
    AllMissExcept(TemplateHeaders, 6, 'p', 'r', "prenom", PrenomCandidates);
  }

  /** With accents folded, the template's `Référence Véhicule` and `Prénom Client` columns are the
      ones found. */
  lemma TemplateFoldedFindsReference()
    ensures FindColumnFolded(TemplateHeaders, RefCandidates) == Some(TemplateHeaders[3])
  {
    RefExcluded();
    TemplateReference();
    TemplateLacksFBefore();
    FoldedFindsAt(TemplateHeaders, 3, 'f', 'f', "ref", RefCandidates);
  }

  lemma TemplateFoldedFindsPrenom()
    ensures FindColumnFolded(TemplateHeaders, PrenomCandidates) == Some(TemplateHeaders[6])
  {
    PrenomExcluded();
    TemplatePrenom();
    TemplateLacksPOrRBefore();
    FoldedFindsAt(TemplateHeaders, 6, 'p', 'r', "prenom", PrenomCandidates);
  }

  // ── Importing dossiers ───────────────────────────────────

  /** One spreadsheet row as the sheet reader returns it with empty defaults: each column's
      header with the cell's text, in the sheet reader's key order. */
  type Row = seq<(string, string)>

  function Headers(row: Row): (r: seq<string>)
    ensures |r| == |row| && forall i :: 0 <= i < |row| ==> r[i] == row[i].0
  {
    seq(|row|, i requires 0 <= i < |row| => row[i].0)
  }

  function KeyIs(key: string): ((string, string)) -> bool {
    (cell: (string, string)) => cell.0 == key
  }

  /** `col ? row[col] ?? '' : ''`: the text under the column, `''` when no column was found or
      the row has no cell under it. */
  function Cell(row: Row, col: Option<string>): (r: string)
    ensures col.None? ==> r == ""
    ensures col.Some? && (forall i :: 0 <= i < |row| ==> row[i].0 != col.value) ==> r == ""
    ensures col.Some? ==> forall i :: 0 <= i < |row| && row[i].0 == col.value && (forall j :: 0 <= j < i ==> row[j].0 != col.value) ==> r == row[i].1
  {
    if col.None? then ""
    else
      var p := KeyIs(col.value);
      match Seqs.FindIndex(row, p)
      case None => ""
      case Some(k) =>
        assert forall i :: 0 <= i < |row| && row[i].0 == col.value && (forall j :: 0 <= j < i ==> row[j].0 != col.value) ==> i == k by {
          assert forall j :: 0 <= j < k ==> !p(row[j]);
          assert p(row[k]);
        }
        row[k].1
  }

  /** The column each dossier field is read from. */
  datatype Columns = Columns(
    ch: Option<string>,
    chassis: Option<string>,
    annee: Option<string>,
    ref: Option<string>,
    typeVehicule: Option<string>,
    nom: Option<string>,
    prenom: Option<string>,
    tel: Option<string>,
    statut: Option<string>,
    notes: Option<string>)

  /** The columns as the import looks them up, once, in the headers of the first row: the
      normalised header must contain a candidate, accents kept. */
  function ImportColumns(headers: seq<string>): (r: Columns)
    ensures r.ch == FindColumn(headers, ChCandidates)
    ensures r.chassis == FindColumn(headers, ChassisCandidates)
    ensures r.annee == FindColumn(headers, AnneeCandidates)
    ensures r.ref == FindColumn(headers, RefCandidates)
    ensures r.typeVehicule == FindColumn(headers, TypeCandidates)
    ensures r.nom == FindColumn(headers, NomCandidates)
    ensures r.prenom == FindColumn(headers, PrenomCandidates)
    ensures r.tel == FindColumn(headers, TelCandidates)
    ensures r.statut == FindColumn(headers, StatutCandidates)
    ensures r.notes == FindColumn(headers, NotesCandidates)
  {
    Columns(
      FindColumn(headers, ChCandidates),
      FindColumn(headers, ChassisCandidates),
      FindColumn(headers, AnneeCandidates),
      FindColumn(headers, RefCandidates),
      FindColumn(headers, TypeCandidates),
      FindColumn(headers, NomCandidates),
      FindColumn(headers, PrenomCandidates),
      FindColumn(headers, TelCandidates),
      FindColumn(headers, StatutCandidates),
      FindColumn(headers, NotesCandidates))
  }

  /** The corrected lookup: the same candidates, with accents folded on both sides. */
  function ImportColumnsFolded(headers: seq<string>): (r: Columns)
    ensures r.ch == FindColumnFolded(headers, ChCandidates)
    ensures r.chassis == FindColumnFolded(headers, ChassisCandidates)
    ensures r.annee == FindColumnFolded(headers, AnneeCandidates)
    ensures r.ref == FindColumnFolded(headers, RefCandidates)
    ensures r.typeVehicule == FindColumnFolded(headers, TypeCandidates)
    ensures r.nom == FindColumnFolded(headers, NomCandidates)
    ensures r.prenom == FindColumnFolded(headers, PrenomCandidates)
    ensures r.tel == FindColumnFolded(headers, TelCandidates)
    ensures r.statut == FindColumnFolded(headers, StatutCandidates)
    ensures r.notes == FindColumnFolded(headers, NotesCandidates)
  {
    Columns(
      FindColumnFolded(headers, ChCandidates),
      FindColumnFolded(headers, ChassisCandidates),
      FindColumnFolded(headers, AnneeCandidates),
      FindColumnFolded(headers, RefCandidates),
      FindColumnFolded(headers, TypeCandidates),
      FindColumnFolded(headers, NomCandidates),
      FindColumnFolded(headers, PrenomCandidates),
      FindColumnFolded(headers, TelCandidates),
      FindColumnFolded(headers, StatutCandidates),
      FindColumnFolded(headers, NotesCandidates))
  }

  /** One imported dossier: a fresh id, the import time as creation stamp, no linked client, a
      recognised status, and every text field the cell under its column. */
  function ImportRow(row: Row, cols: Columns, id: string, now: int): (d: Dossier)
    ensures d.id == id && d.dateCreation == Some(now) && d.dateModification == None && d.clientId == None
    ensures ParseStatutDossier(d.statut) == Some(MapStatut(Cell(row, cols.statut)))
    ensures d.numeroCH == Cell(row, cols.ch) && d.referenceVehicule == Cell(row, cols.ref)
    ensures d.typeVehicule == Cell(row, cols.typeVehicule) && d.notes == Cell(row, cols.notes)
    ensures d.chassisCH == Some(Cell(row, cols.chassis)) && d.annee == Some(Cell(row, cols.annee))
    ensures d.nomClient == Some(Cell(row, cols.nom)) && d.prenomClient == Some(Cell(row, cols.prenom))
    ensures d.telephoneClient == Some(Cell(row, cols.tel))
  {
    var st := MapStatut(Cell(row, cols.statut));
    CodeParses(st);
    Dossier(
      id := id,
      numeroCH := Cell(row, cols.ch),
      chassisCH := Some(Cell(row, cols.chassis)),
      annee := Some(Cell(row, cols.annee)),
      referenceVehicule := Cell(row, cols.ref),
      typeVehicule := Cell(row, cols.typeVehicule),
      clientId := None,
      statut := st.Code(),
      dateCreation := Some(now),
      dateModification := None,
      notes := Cell(row, cols.notes),
      nomClient := Some(Cell(row, cols.nom)),
      prenomClient := Some(Cell(row, cols.prenom)),
      telephoneClient := Some(Cell(row, cols.tel)))
  }

  lemma CodeParses(st: StatutDossier)
    ensures ParseStatutDossier(st.Code()) == Some(st)
  {
    match st
    case Lance =>
    case ProvisoireEntree =>
    case ProvisoireSortie =>
    case CarteGriseEntree =>
    case CarteGriseSortie =>
  }

  /** Every row becomes one dossier, in order, read through the same columns. */
  function ImportRows(rows: seq<Row>, cols: Columns, ids: seq<string>, now: int): (r: seq<Dossier>)
    requires |ids| == |rows|
    ensures |r| == |rows|
    ensures forall i :: 0 <= i < |r| ==> r[i] == ImportRow(rows[i], cols, ids[i], now)
  {
    seq(|rows|, i requires 0 <= i < |rows| => ImportRow(rows[i], cols, ids[i], now))
  }

  /** `parseExcelFile` from the decoded rows on, with one generated id per row: no rows import
      nothing; otherwise the columns are chosen from the first row's headers alone, accents
      kept as the code does. */
  function ParseRows(rows: seq<Row>, ids: seq<string>, now: int): (r: seq<Dossier>)
    requires |ids| == |rows|
    ensures |r| == |rows|
    ensures |rows| > 0 ==> r == ImportRows(rows, ImportColumns(Headers(rows[0])), ids, now)
  {
    if |rows| == 0 then [] else ImportRows(rows, ImportColumns(Headers(rows[0])), ids, now)
  }

  /** The corrected import: the same reading through the accent-folded columns. */
  function ParseRowsFolded(rows: seq<Row>, ids: seq<string>, now: int): (r: seq<Dossier>)
    requires |ids| == |rows|
    ensures |r| == |rows|
    ensures |rows| > 0 ==> r == ImportRows(rows, ImportColumnsFolded(Headers(rows[0])), ids, now)
  {
    if |rows| == 0 then [] else ImportRows(rows, ImportColumnsFolded(Headers(rows[0])), ids, now)
  }

  /** Headers that match no reference and no first-name candidate import every row with both
      fields empty. */
  lemma MissingColumnsImportEmpty(rows: seq<Row>, ids: seq<string>, now: int)
    requires |ids| == |rows| && |rows| > 0
    requires FindColumn(Headers(rows[0]), RefCandidates) == None
    requires FindColumn(Headers(rows[0]), PrenomCandidates) == None
    ensures var r := ParseRows(rows, ids, now);
      forall i :: 0 <= i < |r| ==> r[i].referenceVehicule == "" && r[i].prenomClient == Some("")
  {
    UnmatchedColumnIsEmpty(rows, ImportColumns(Headers(rows[0])), ids, now);
  }

  /** As written, a sheet laid out like the application's own template imports every dossier
      with an empty vehicle reference and an empty first name, whatever its cells hold. */
  lemma TemplateImportLosesFields(rows: seq<Row>, ids: seq<string>, now: int)
    requires |ids| == |rows| && |rows| > 0 && Headers(rows[0]) == TemplateHeaders
    ensures var r := ParseRows(rows, ids, now);
      forall i :: 0 <= i < |r| ==> r[i].referenceVehicule == "" && r[i].prenomClient == Some("")
  {
    TemplateLosesReference();
    TemplateLosesPrenom();
    MissingColumnsImportEmpty(rows, ids, now);
  }

  /** Headers whose folded lookup finds the columns `ref` and `prenom` import row `i`'s
      reference and first name from its cells under those headers. */
  lemma FoundColumnsImportCell(rows: seq<Row>, ids: seq<string>, now: int, ref: string, prenom: string, i: nat)
    requires |ids| == |rows| && i < |rows|
    requires FindColumnFolded(Headers(rows[0]), RefCandidates) == Some(ref)
    requires FindColumnFolded(Headers(rows[0]), PrenomCandidates) == Some(prenom)
    ensures var d := ParseRowsFolded(rows, ids, now)[i];
      d.referenceVehicule == Cell(rows[i], Some(ref)) && d.prenomClient == Some(Cell(rows[i], Some(prenom)))
  {
    var cols := ImportColumnsFolded(Headers(rows[0]));
    assert ParseRowsFolded(rows, ids, now)[i] == ImportRow(rows[i], cols, ids[i], now);
  }

  /** Corrected, the same sheet fills the reference and the first name of every row `i` from
      its cells under the template's `Référence Véhicule` and `Prénom Client` headers
      (`TemplateHeaderNames` spells them out). */
  lemma TemplateFoldedImportReadsFields(rows: seq<Row>, ids: seq<string>, now: int, i: nat)
    requires |ids| == |rows| && i < |rows| && Headers(rows[0]) == TemplateHeaders
    ensures var d := ParseRowsFolded(rows, ids, now)[i];
      && d.referenceVehicule == Cell(rows[i], Some(TemplateRefHeader))
      && d.prenomClient == Some(Cell(rows[i], Some(TemplatePrenomHeader)))
  {
    TemplateFoldedFindsReference();
    TemplateFoldedFindsPrenom();
    FoundColumnsImportCell(rows, ids, now, TemplateRefHeader, TemplatePrenomHeader, i);
  }

  /** Each imported dossier carries its own generated id, the import time as its creation stamp,
      and a status the application recognises, so the dashboard counts every one of them. */
  lemma ImportedDossiersAreWellFormed(rows: seq<Row>, ids: seq<string>, now: int)
    requires |ids| == |rows|
    ensures var r := ParseRows(rows, ids, now);
      forall i :: 0 <= i < |r| ==> r[i].id == ids[i] && r[i].dateCreation == Some(now) && ParseStatutDossier(r[i].statut).Some?
  {
  }

  /** A column missing from the headers leaves its field empty in every imported dossier,
      whatever the rows hold; a missing status column imports every dossier as launched. */
  lemma UnmatchedColumnIsEmpty(rows: seq<Row>, cols: Columns, ids: seq<string>, now: int)
    requires |ids| == |rows|
    ensures var r := ImportRows(rows, cols, ids, now);
      && (cols.ch.None? ==> forall i :: 0 <= i < |r| ==> r[i].numeroCH == "")
      && (cols.ref.None? ==> forall i :: 0 <= i < |r| ==> r[i].referenceVehicule == "")
      && (cols.prenom.None? ==> forall i :: 0 <= i < |r| ==> r[i].prenomClient == Some(""))
      && (cols.statut.None? ==> forall i :: 0 <= i < |r| ==> r[i].statut == Lance.Code())
  {
    if cols.statut.None? {
      NormDrops("", false);
      ReadsLance("");
    }
  }

  /** A status cell holding a status's display label or stored code imports as that status. */
  lemma ImportReadsStatut(row: Row, cols: Columns, id: string, now: int, st: StatutDossier)
    requires Cell(row, cols.statut) == Utils.DossierLabel(st) || Cell(row, cols.statut) == st.Code()
    ensures ImportRow(row, cols, id, now).statut == st.Code()
  {
    StatutReadsBack(Cell(row, cols.statut), st);
  }

  /** The status an export writes for a dossier with a recognised status, read back by the
      import, is the dossier's status. */
  lemma ExportedStatutReadsBack(statut: string)
    requires ParseStatutDossier(statut).Some?
    ensures MapStatut(Utils.StatutDossierLabel(statut)).Code() == statut
  {
    var st := ParseStatutDossier(statut).value;
    StatutReadsBack(Utils.DossierLabel(st), st);
  }
}

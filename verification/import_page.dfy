/** The spreadsheet import page: which files it accepts, the preview a parsed file leaves, and
    the import of that preview into storage. Reading and decoding the file is a parameter: the
    dossiers it parsed into, or `None` when reading threw. */
module ImportPage {
  import opened Wrappers
  import opened Types
  import Text
  import Store

  /** The MIME types of `.xlsx`, `.xls` and `.csv` files. */
  const ValidTypes: seq<string> := [
    "application/vnd.openxmlformats-officedocument.spreadsheetml.sheet",
    "application/vnd.ms-excel",
    "text/csv"]

  const ValidExtensions: seq<string> := [".xlsx", ".xls", ".csv"]

  /** The last index below `j` where `s` holds `c`, `-1` when there is none. */
  function LastIndexBelow(s: string, c: char, j: nat): (r: int)
    requires j <= |s|
    ensures -1 <= r < j
    ensures r >= 0 ==> s[r] == c
    ensures forall k :: r < k < j ==> s[k] != c
    decreases j
  {
    if j == 0 then -1
    else if s[j - 1] == c then j - 1
    else LastIndexBelow(s, c, j - 1)
  }

  /** `s.lastIndexOf(c)`. */
  function LastIndexOf(s: string, c: char): (r: int)
    ensures -1 <= r < |s|
    ensures r >= 0 ==> s[r] == c
    ensures forall k :: r < k < |s| ==> s[k] != c
  {
    LastIndexBelow(s, c, |s|)
  }

  /** `name.substring(name.lastIndexOf('.'))`: the suffix from the last dot. `substring` reads a
      negative start as 0, so a name without a dot is its own extension. */
  function Extension(name: string): (r: string)
    ensures |r| <= |name| && r == name[|name| - |r|..]
    ensures '.' !in name ==> r == name
    ensures '.' in name ==> |r| > 0 && r[0] == '.' && forall k :: 0 < k < |r| ==> r[k] != '.'
  {
    var i := LastIndexOf(name, '.');
    if i < 0 then name else name[i..]
  }

  /** `handleFile`'s format check: a listed MIME type, or a listed extension once lowercased. */
  predicate Accepted(name: string, mimeType: string) {
    mimeType in ValidTypes || Text.Lower(Extension(name)) in ValidExtensions
  }

  /** The name ends with `suffix`, ignoring case. */
  predicate EndsWithCaseless(name: string, suffix: string) {
    |suffix| <= |name| && Text.Lower(name[|name| - |suffix|..]) == suffix
  }

  /** A suffix that lowercases to a listed extension begins with the name's last dot, so it is
      the name's extension. */
  lemma ListedSuffixIsExtension(name: string, x: string)
    requires x in ValidExtensions && EndsWithCaseless(name, x)
    ensures Extension(name) == name[|name| - |x|..]
    ensures Text.Lower(Extension(name)) == x
  {
    var t := name[|name| - |x|..];
    assert Text.LowerChar(t[0]) == '.';
    assert t[0] == '.';
    assert name[|name| - |x|] == '.';
    forall k | |name| - |x| < k < |name| ensures name[k] != '.' {
      assert Text.LowerChar(t[k - (|name| - |x|)]) != '.';
    }
    assert LastIndexOf(name, '.') == |name| - |x|;
  }

  /** A file is accepted exactly when its MIME type is listed or its name ends, in any case,
      with `.xlsx`, `.xls` or `.csv`. */
  lemma AcceptedIff(name: string, mimeType: string)
    ensures Accepted(name, mimeType) <==>
      || mimeType in ValidTypes
      || EndsWithCaseless(name, ".xlsx") || EndsWithCaseless(name, ".xls") || EndsWithCaseless(name, ".csv")
  {
    if Text.Lower(Extension(name)) in ValidExtensions {
      ListedExtensionEndsName(name);
    }
    if EndsWithCaseless(name, ".xlsx") {
      ListedSuffixIsExtension(name, ".xlsx");
    } else if EndsWithCaseless(name, ".xls") {
      ListedSuffixIsExtension(name, ".xls");
    } else if EndsWithCaseless(name, ".csv") {
      ListedSuffixIsExtension(name, ".csv");
    }
  }

  /** A listed extension is one of the three suffixes the name ends with. */
  lemma ListedExtensionEndsName(name: string)
    requires Text.Lower(Extension(name)) in ValidExtensions
    ensures EndsWithCaseless(name, ".xlsx") || EndsWithCaseless(name, ".xls") || EndsWithCaseless(name, ".csv")
  {
    ExtensionEndsName(name);
  }

  /** A name ends, ignoring case, with its own lowercased extension. */
  lemma ExtensionEndsName(name: string)
    ensures EndsWithCaseless(name, Text.Lower(Extension(name)))
  {
    var e := Extension(name);
    assert name[|name| - |e|..] == e;
  }

  /** Only a text beginning with a dot lowercases to a listed extension. */
  lemma ListedStartsWithDot(s: string)
    ensures Text.Lower(s) in ValidExtensions ==> |s| > 0 && s[0] == '.'
  {
    if Text.Lower(s) in ValidExtensions {
      assert Text.LowerChar(s[0]) == Text.Lower(s)[0];
    }
  }

  /** A name without a dot is accepted only by its MIME type. */
  lemma NoDotNeedsType(name: string, mimeType: string)
    requires '.' !in name
    ensures Accepted(name, mimeType) <==> mimeType in ValidTypes
  {
    ListedStartsWithDot(name);
  }

  /** What the import reports: the dossiers added and the size of storage afterwards. */
  datatype ImportSummary = ImportSummary(added: nat, total: nat)

  /** The page state: the dossiers awaiting confirmation, the chosen file's name, the last
      import's summary and the replace switch. */
  datatype Page = Page(
    preview: Option<seq<Dossier>>,
    fileName: string,
    importResult: Option<ImportSummary>,
    replaceMode: bool)

  /** A preview, when there is one, holds at least one dossier. */
  predicate PreviewNonEmpty(p: Page) {
    p.preview.Some? ==> |p.preview.value| > 0
  }

  /** `handleFile`: a refused file changes nothing; an accepted one records its name and clears
      the last summary, and the parsed dossiers become the preview unless reading threw or
      found none, in which case the preview is left as it was. */
  function HandleFile(p: Page, name: string, mimeType: string, parsed: Option<seq<Dossier>>): (r: Page)
    ensures !Accepted(name, mimeType) ==> r == p
    ensures Accepted(name, mimeType) ==> r.fileName == name && r.importResult.None?
    ensures r.replaceMode == p.replaceMode
    ensures r.preview != p.preview ==> r.preview == parsed && parsed.Some? && |parsed.value| > 0
    ensures Accepted(name, mimeType) && parsed.Some? && |parsed.value| > 0 ==> r.preview == parsed
  {
    if !Accepted(name, mimeType) then p
    else
      var loaded := p.(fileName := name, importResult := None);
      match parsed
      case Some(ds) => if |ds| == 0 then loaded else loaded.(preview := Some(ds))
      case None => loaded
  }

  /** Choosing a file never leaves an empty preview behind. */
  lemma HandleFileKeepsPreviewNonEmpty(p: Page, name: string, mimeType: string, parsed: Option<seq<Dossier>>)
    requires PreviewNonEmpty(p)
    ensures PreviewNonEmpty(HandleFile(p, name, mimeType, parsed))
  {
  }

  /** `handleImport`: without a preview nothing happens. Otherwise the preview is imported in
      the page's mode, the summary reports the preview's length in replace mode and the
      repository's count otherwise, with the size of storage afterwards, and the preview is
      dropped. */
  method HandleImport(p: Page, st: Store.Storage) returns (r: Page, st': Store.Storage)
    ensures p.preview.None? ==> r == p && st' == st
    ensures p.preview.Some? ==> r == p.(preview := None, importResult := r.importResult)
    ensures p.preview.Some? ==> st' == st.(dossiers := st'.dossiers) && r.importResult.Some?
    ensures p.preview.Some? ==> r.importResult.value.total == |st'.dossiers|
    ensures p.preview.Some? && p.replaceMode ==>
      st'.dossiers == p.preview.value && r.importResult.value.added == |p.preview.value|
    ensures p.preview.Some? && !p.replaceMode ==>
      && st'.dossiers == Store.ImportFrom(st.dossiers, p.preview.value)
      && r.importResult.value.added == |st'.dossiers| - |st.dossiers|
    ensures p.preview.Some? ==> r.importResult.value.added <= |p.preview.value|
    ensures p.preview.Some? && !p.replaceMode ==>
      (r.importResult.value.added == |p.preview.value| <==> Store.FreshBatch(st.dossiers, p.preview.value))
  {
    if p.preview.None? {
      return p, st;
    }
    var preview := p.preview.value;
    var added;
    st', added := Store.ImportDossiers(st, preview, p.replaceMode);
    if !p.replaceMode {
      Store.ImportLengthBound(st.dossiers, preview);
      if added == |preview| {
        Store.ImportAllAddedIsFresh(st.dossiers, preview);
      }
      if Store.FreshBatch(st.dossiers, preview) {
        Store.ImportFreshAppendsAll(st.dossiers, preview);
      }
    }
    var reported := if p.replaceMode then |preview| else added;
    r := p.(preview := None, importResult := Some(ImportSummary(reported, |st'.dossiers|)));
  }
}

# HSC customs and vehicle-trade records, modelled in Dafny

HSC is a single-user web application for a customs broker and vehicle dealer. It keeps five
collections in the browser's local storage: customs **dossiers** (one per imported vehicle,
keyed in practice by its numéro CH and following a five-stage workflow), **factures** (sales
invoices, optionally split into instalments), **locations** (truck rentals with itemised
expenses), **clients**, and **types de véhicule**. Records can be imported from a spreadsheet and
exported to one.

This project models the core of that application as pure Dafny functions over immutable data:

- the repository (`Store`). It covers reading a stored key, the save functions that stamp
  creation and modification times, and the guarded and unguarded deletions. It also covers the
  additive import, which skips numéros CH already present, the migration of legacy vehicle-type
  lists, and the dashboard figures (`Dashboard`).
- the helpers (`Utils`, `Decimal`, `Text`, `Clients`): profit, instalment ids, the phone
  check, the status labels, the PDF amount format, `parseFloat`, trimming, lowercasing, and the
  client shown for a record.
- the validators (`Validation`) and the form hook (`Form`).
- the spreadsheet import (`Excel`): header matching, status recognition and the mapping of rows
  to dossiers.
- the export arithmetic (`ExcelExport`): profit columns and the full report's summary sheet.
- the pages: the four creation forms (`NouveauDossier`, `NouveauClient`, `NouvelleFacture`,
  `NouvelleLocation`), the import page (`ImportPage`), and the five list pages (`DossiersPage`,
  `FacturesPage`, `LocationsPage`, `ClientsPage`, `TypesPage`). The list pages share their
  filters and sort (`ListPages`).

Local storage is a `Store.Storage` value, and every operation that writes returns the new one.
The clock (`now`) and the generated ids are parameters. A missing optional field is `None`.
Amounts are `real`. Statuses are kept as the raw strings found in storage, with enumerations
and `Parse…` functions for the known values. The vehicle type's `label` field is called
`libelle`, because `label` is a Dafny keyword.

## Model

| member | source | states |
|---|---|---|
| Store.GetItem | lib/store.ts:12-20 | No window, no stored text or an empty one gives the fallback. Text that parses gives the parsed value. Text that throws on parsing gives the fallback. |
| Store.Created | lib/store.ts:52 | A creation stamp is always present after a save. A stamp already carried is kept. |
| Store.Upsert | lib/store.ts:45-55 | A known id keeps the length and a new id adds one. Searching for the id finds the saved record. Every record with another id stays at its place. |
| Store.UpsertNewAppends | lib/store.ts:49-53 | A record with a new id goes after all existing records. |
| Store.RemoveById | lib/store.ts:65-68 | No remaining record carries the id. Every other record keeps its multiplicity, and a record survives exactly when it was present under another id. A missing id leaves the list unchanged. |
| Store.RemoveByIdAppend | lib/store.ts:67 | Removal distributes over concatenation, so the survivors keep their input order. |
| Store.RemoveByIdSingleton | lib/store.ts:67 | A one-record list loses its record exactly when the record has the id. |
| Store.RemoveByIdMembers | lib/store.ts:67 | A record survives removal exactly when it was present and has another id. |
| Store.RemoveUndoesAppend | lib/store.ts:52-67 | Deleting a freshly appended id restores the previous list. |
| Store.SaveDossier | lib/store.ts:45-55 | The saved dossier is found by its id, stamped with the modification time. A new dossier gets a creation time unless it already carries one. Other dossiers and other collections are untouched. |
| Store.SaveNewDossierAppends | lib/store.ts:49-53 | Saving a new dossier appends it, stamped, after every stored dossier. |
| Store.DossierHasFactures | lib/store.ts:57-59 | True exactly when some invoice refers to the dossier. |
| Store.GetFacturesByDossier | lib/store.ts:100-102 | An invoice is listed exactly when it is stored and belongs to the dossier, as often as it is stored. It is empty exactly when the dossier has none. |
| Store.DeleteDossier | lib/store.ts:61-69 | Fails, with the source's message, exactly when an invoice refers to the dossier. Otherwise the dossiers are exactly the stored ones under another id, each as often as before, and nothing else changes. |
| Store.AppendKeepsChUnique | lib/store.ts:80-82 | Appending a dossier whose numéro CH is new keeps the numéros CH unique. |
| Store.ImportFrom | lib/store.ts:76-87 | The additive import only appends, and only incoming dossiers. Every incoming numéro CH is present afterwards. Which dossiers are appended, and in what order, is stated by `Store.ImportKeepsFirstOccurrences`. |
| Store.ImportKeepsChUnique | lib/store.ts:77-85 | The additive import never introduces a duplicate numéro CH. |
| Store.ImportLengthBound | lib/store.ts:79-85 | At most one dossier is appended per incoming dossier. |
| Store.ImportFreshAppendsAll | lib/store.ts:79-85 | A batch whose numéros CH are new and distinct is appended whole, in order. |
| Store.ImportKeepsFirstOccurrences | lib/store.ts:76-87 | The import appends exactly the incoming dossiers whose numéro CH storage lacks and no earlier incoming dossier carries, in input order. Of two dossiers sharing a new number, only the earlier is kept. |
| Store.ImportAllAddedIsFresh | lib/store.ts:79-85 | If every incoming dossier was appended, the batch's numéros CH were new and distinct. |
| Store.FreshBatchStep | lib/store.ts:80-82 | Taking in a first dossier with a new number leaves a fresh remainder exactly when the whole batch was fresh. |
| Store.ImportDossiers | lib/store.ts:71-88 | Replace mode stores the batch as it is and reports its length. Additive mode imports as `ImportFrom` and reports how many were added. Only the dossiers change. |
| Store.SaveFacture | lib/store.ts:104-114 | Same upsert and stamping as dossiers, on the invoices. |
| Store.DeleteFacture | lib/store.ts:116-121 | Unconditional. The invoices left are exactly the stored ones under another id, each as often as before. Only the invoices change. |
| Store.SaveLocation | lib/store.ts:133-143 | Same upsert and stamping as dossiers, on the rentals. |
| Store.DeleteLocation | lib/store.ts:145-150 | Unconditional. The rentals left are exactly the stored ones under another id, each as often as before. Only the rentals change. |
| Store.SaveClient | lib/store.ts:162-172 | Same upsert and stamping as dossiers, on the clients. |
| Store.DeleteClient | lib/store.ts:174-179 | Unconditional. The clients left are exactly the stored ones under another id, each as often as before. Only the clients change. |
| Store.ClientInUse | lib/store.ts:181-187 | True exactly when a dossier, an invoice or a rental links the client. |
| Store.MigrateTypesVehicule | lib/store.ts:193-204 | Legacy labels become `tv_<i>_<label>` records in order. A record list is kept. Anything else gives no type. |
| Store.DefaultTypes | lib/store.ts:191-210 | The six built-in labels in order, with ids `tv_default_<i>`. |
| Store.GetTypesVehicule | lib/store.ts:206-211 | Never empty. It is the migrated list when that has entries, and the built-in types otherwise. |
| Store.MigratedIdInjective | lib/store.ts:197 | A migrated id determines both its position and its label. |
| Store.MigratedIdsDistinct | lib/store.ts:197 | Migrated types have distinct ids, even when labels repeat. |
| Store.DefaultIdsDistinct | lib/store.ts:210 | The built-in types have distinct ids. |
| Store.ReplaceAll | lib/store.ts:221 | Every record with the id is replaced. The rest are kept in place. |
| Store.SaveTypeVehicule | lib/store.ts:217-223 | Works on the list as read, so the defaults or migrated types are included. A new type is appended with a creation stamp. A known id has every one of its records replaced. |
| Store.SaveIntoEmptyKeepsDefaults | lib/store.ts:206-223 | The first save into an empty store writes the six built-in types, then the new type. |
| Store.DeleteTypeVehicule | lib/store.ts:225-227 | The types stored are exactly the ones read under another id, each as often as before. Deleting the last type brings the built-in types back on the next read. |
| Store.TypeVehiculeInUse | lib/store.ts:229-235 | True exactly when a dossier, a rental or an invoice names the type by its label. |
| Store.GetEntreprise | lib/store.ts:239-248 | The stored letterhead, or the default one. |
| Store.SaveEntreprise | lib/store.ts:250-252 | What is saved is what is read back. Nothing else changes. |
| Dashboard.GetDashboardStats | lib/store.ts:256-302 | Collection sizes are exact. The per-status counters never exceed the dossier count, and equal it exactly when every status is known. Sales, receipts and outstanding are the sums of the invoices' prices, paid amounts and remaining amounts. The outstanding total equals sales minus receipts over balanced invoices. Each recent list holds at most five records, newest first, with nothing newer left out. Each is the head of its collection sorted newest first, with equal stamps in stored order. |
| Dashboard.Recent | lib/store.ts:279-289 | At most five records, newest first, with nothing newer left out. They are the head of the collection sorted newest first, with equal stamps in stored order. |
| Dashboard.StatutCountsAddUp | lib/store.ts:269-273 | The five counters sum to the number of dossiers with a known status. |
| Dashboard.StatutCountersCover | lib/store.ts:261-273 | The counters cover every dossier exactly when every status is known. |
| Dashboard.NewFactureRaisesTotals | lib/store.ts:275-277 | Saving an invoice with a new id adds one to the count and raises sales, receipts and outstanding by its own amounts. |
| Dashboard.BalancedTotals | lib/store.ts:275-277 | Over balanced invoices, the outstanding total is sales minus receipts. |
| Sorting.SortBy | lib/store.ts:280 | A permutation of the input, ordered by the key. Records with equal keys keep their input order. |
| Sorting.InsertKeepsTies | lib/store.ts:280 | Inserting a record puts it after every record already there with the same key. |
| Sorting.SortDescBy | lib/store.ts:280 | A permutation of the input, in descending key order. Records with equal keys keep their input order. |
| Sorting.SortSortedIsIdentity | lib/store.ts:280 | The sort is stable: an already ordered list is returned unchanged. |
| Sorting.Latest | lib/store.ts:279-289 | The first `n` in descending key order: `min(n, size)` elements, all drawn from the input. Whatever is left out is no newer than anything kept. The result is the head of the stable descending sort, so among equal keys at the cut the earliest in input order are kept. |
| Utils.CalculerBenefice | lib/utils.ts:58-61 | Profit plus purchase price plus expenses equals the sale price. |
| Utils.TrancheSuffix | lib/utils.ts:18 | At least two digits. |
| Utils.TrancheSuffixValue | lib/utils.ts:18 | Read back in base ten, the padded suffix is the instalment number. |
| Utils.TrancheIdShape | lib/utils.ts:17-19 | An instalment id is the invoice id, then `_T`, then the padded number. Different numbers give different ids. |
| Decimal.PadStart | lib/utils.ts:18 | The string is left-padded with the fill character up to the width. |
| Decimal.NatToString | lib/utils.ts:18 | Digits only, with no leading zero except for 0 itself. |
| Decimal.NatToStringRoundTrip | lib/utils.ts:18 | Reading the spelling back gives the number. |
| Decimal.NatToStringInjective | lib/utils.ts:18 | Distinct numbers have distinct spellings. |
| Utils.ValidateTelephone | lib/utils.ts:91-95 | The empty string passes. Any other text passes exactly when, with spaces, dashes, dots and parentheses removed, it is an optional `+` and 8 to 15 digits. A passing number has 8 to 16 characters once cleaned. Text with no digit passes only when empty. |
| Utils.PhoneSeparatorsIgnored | lib/utils.ts:93 | Inserting a space, dash, dot or parenthesis never changes the verdict on a non-empty number. |
| Utils.PlainNumberValid | lib/utils.ts:94 | A plain run of digits, with or without a leading `+`, passes exactly when it has 8 to 15 digits. |
| Utils.StrayCharacterFails | lib/utils.ts:93-94 | A letter or any other character that is not a digit, separator or `+` makes a number fail. |
| Utils.CleanTelephoneTrim | lib/utils.ts:93 | Trimming does not change the cleaned number. |
| Utils.TrimmedTelephoneValid | lib/utils.ts:91-95 | A number that passes still passes once trimmed. |
| Utils.StatutDossierLabel | lib/utils.ts:99-134 | A known status gets its label. Other text that is not an inherited object key is shown as it is. |
| Utils.StatutFactureLabel | lib/utils.ts:107-138 | A known status gets its label. Other text that is not an inherited object key is shown as it is. |
| Utils.StatutTrancheLabel | lib/utils.ts:113-142 | A known status gets its label. Other text that is not an inherited object key is shown as it is. |
| Utils.StatutLocationLabel | lib/utils.ts:119-146 | A known status gets its label. Other text that is not an inherited object key is shown as it is. |
| Utils.ModePaiementLabel | lib/utils.ts:125-151 | `-` for a null or empty mode, the label for a known mode, the value itself for any other text that is not an inherited object key. |
| Utils.LabelsMatchOptionLists | lib/utils.ts:99-130 | The label maps agree with the forms' option lists. Distinct dossier statuses have distinct labels. Also rests on `lib/types.ts:8-39`. |
| Utils.GroupThousands | lib/utils.ts:85 | Digits are grouped in threes from the right, with one space between groups. |
| Utils.GroupThousandsUngroups | lib/utils.ts:85 | Removing the spaces gives the digits back. |
| Utils.FormatMontantForPdf | lib/utils.ts:78-87 | For amounts under a million in absolute value: a minus sign exactly for negatives, then the digits of the absolute value in groups of three, with one space between groups, then ` FCFA`. |
| Utils.FormatMontantReadsBack | lib/utils.ts:78-87 | Dropping the group spaces and reading the sign and digits back gives the amount. |
| Types.ParseStatutDossier | lib/types.ts:1-6 | Recognises exactly the five stored codes. |
| Types.ParseModePaiement | lib/types.ts:24 | Recognises exactly the four stored codes. |
| Types.ParseStatutFacture | lib/types.ts:33 | Recognises exactly the three stored codes. |
| Types.ParseStatutTranche | lib/types.ts:41 | Recognises exactly the three stored codes. |
| Types.ParseStatutLocation | lib/types.ts:137 | Recognises exactly the three stored codes. |
| Types.WorkflowOrdreIsComplete | lib/types.ts:16-22 | The workflow lists each of the five stages exactly once, from `Lance` to `CarteGrise_Sortie`. |
| Types.StatutsDossierFollowWorkflow | lib/types.ts:8-22 | The status options follow the workflow order. |
| Types.OptionListsAreComplete | lib/types.ts:26-39 | Each option list names every value of its enumeration exactly once. Also rests on `lib/types.ts:139-143`. |
| Clients.Linked | lib/clients.ts:13-16 | A link that is absent, empty or dangling resolves to nothing. Otherwise it resolves to the stored client with that id. |
| Clients.FromDossier | lib/clients.ts:12-22 | Shows the linked client, or else the legacy fields with `''` for missing ones. |
| Clients.FromFacture | lib/clients.ts:24-36 | As for dossiers, except that the fallback also carries the invoice's e-mail and address. |
| Clients.FromLocation | lib/clients.ts:38-48 | As for dossiers. |
| Clients.LinkedClientWins | lib/clients.ts:12-16 | With unique client ids, a linked dossier shows the client record whatever its legacy fields say. |
| Clients.FormatClientLabel | lib/clients.ts:50-53 | Never empty and never padded with spaces. Gives `-` when first name plus name is blank, and that text trimmed otherwise. |
| Text.TrimEmptyIffBlank | lib/validation.ts:6 | A text trims to nothing exactly when it is all whitespace. |
| Text.TrimIdempotent | lib/validation.ts:13 | Trimming twice is trimming once. |
| Text.LowerIdempotent | app/dossiers/page.tsx:44-48 | Lowercasing twice is lowercasing once. |
| Text.ContainsIff | app/dossiers/page.tsx:48 | `includes` holds exactly when the text occurs at some position. |
| Validation.CheckRequired | lib/validation.ts:4-9 | Fails, with `<subject> est obligatoire`, exactly for an absent or blank value. |
| Validation.Taken | lib/validation.ts:15-16 | True exactly when the first stored dossier with the number exists and is not the one being edited. |
| Validation.CheckUniqueNumeroCH | lib/validation.ts:11-19 | A blank number fails as required. Otherwise the check fails exactly when the first dossier carrying the trimmed number is another dossier. |
| Validation.UniqueNumeroCHIff | lib/validation.ts:11-19 | With unique numbers in storage, it fails exactly for a blank number or one another dossier carries. |
| Validation.NumeroCHConflicts | lib/validation.ts:15-16 | A new dossier conflicts with a stored number. The dossier being edited never conflicts with itself. |
| Validation.NewNumeroCHFree | lib/validation.ts:11-19 | For a new dossier it passes exactly when the number is not blank and no stored dossier carries it. |
| Validation.CheckTelephone | lib/validation.ts:21-27 | Passes exactly when the value is absent, empty or a valid number. An error always carries the phone message. |
| Validation.CheckPositive | lib/validation.ts:29-35 | Passes exactly when the value parses to a number above zero. |
| Validation.CheckNonNegative | lib/validation.ts:37-45 | A blank value passes. Otherwise it passes exactly when the trimmed value parses to a number that is not negative. |
| Validation.CheckClientId | lib/validation.ts:47-52 | Fails, with the client message, exactly for an absent or blank value. |
| Validation.Check | hooks/useForm.ts:43-44 | A failing rule always produces a non-empty message, so it registers as an error. |
| Validation.NaturalAmountPositive | lib/validation.ts:29-35 | A natural number typed as text is a valid positive amount exactly when it is not zero. |
| Validation.NaturalAmountNonNegative | lib/validation.ts:37-45 | A natural number typed as text is always a valid non-negative amount. |
| Decimal.ParseNumber | lib/validation.ts:31 | `parseFloat`: it gives a number only when the text holds a digit. |
| Decimal.ParseNumberOfNat | lib/validation.ts:31 | `parseFloat(String(n))` is `n`. |
| Decimal.ParseNumberOfDigits | lib/validation.ts:31 | A digit string parses to its decimal value. |
| Decimal.HexSpellingReadsLeadingZero | lib/validation.ts:31 | As with `parseFloat`, reading stops at the first character that cannot continue a decimal number, so `0x10` reads as 0. |
| Form.SetValue | hooks/useForm.ts:17-25 | The field takes the value and its error is dropped unless the message is empty. Every other field and error is kept. |
| Form.Reset | hooks/useForm.ts:32-35 | The values become the data, or the initial values when none is given, and every error is cleared. |
| Form.Validate | hooks/useForm.ts:37-49 | No rules means valid. Otherwise the errors are exactly the failing rules' messages, none empty. Valid exactly when no rule fails. The values are untouched. |
| Form.HandleSubmit | hooks/useForm.ts:51-54 | `onSubmit` receives the values exactly when validation passes. |
| Form.ValidateIdempotent | hooks/useForm.ts:37-49 | Validating twice gives the same verdict and errors as once. |
| Form.EditClearsOnlyThatError | hooks/useForm.ts:17-49 | Editing a field after validating clears that field's error and keeps every other one. |
| Form.ThreeRules | hooks/useForm.ts:37-49 | A form with three rules is valid exactly when each rule passes. |
| Form.DossierRulesChecks | lib/validation.ts:54-60 | The dossier rules pass exactly when the numéro CH, reference and client checks pass. |
| Form.NewDossierValid | lib/validation.ts:54-60 | A new dossier form passes exactly when all three hold: the number is not blank and not stored, the reference is not blank, and the client is not blank. |
| NouveauDossier.Initial | app/dossiers/nouveau/page.tsx:22-31 | Every field is empty except the status, which is `Lance`. |
| NouveauDossier.NewDossier | app/dossiers/nouveau/page.tsx:49-60 | Text fields are trimmed. The client and status are copied. The dossier is created now, with no legacy client fields. |
| NouveauDossier.SubmitDossier | app/dossiers/nouveau/page.tsx:45-64 | The dossier is saved exactly when the dossier rules pass with no excluded id. |
| NouveauDossier.SubmittedDossierFields | app/dossiers/nouveau/page.tsx:45-64 | A saved dossier has a non-empty numéro CH and reference, and a number no stored dossier carried. |
| NouveauDossier.SubmitKeepsChUnique | app/dossiers/nouveau/page.tsx:45-64 | Creating a dossier under a new id appends it and keeps the numéros CH unique. |
| NouveauClient.Initial | app/clients/nouveau/page.tsx:16-22 | The five fields start empty. |
| NouveauClient.TrimmedOrAbsent | app/clients/nouveau/page.tsx:40-41 | Absent exactly when the value is absent or blank. Otherwise the value is trimmed and non-empty. |
| NouveauClient.NewClient | app/clients/nouveau/page.tsx:35-42 | Name, first name and telephone are trimmed. E-mail and address are absent when blank. The save stamps the dates. |
| NouveauClient.SubmitClient | app/clients/nouveau/page.tsx:27-46 | The client is saved exactly when its rules pass. |
| NouveauClient.ValidClientForm | app/clients/nouveau/page.tsx:29-33 | Valid exactly when name and first name are not blank and the telephone passes the phone check. |
| NouveauClient.SubmittedClientFields | app/clients/nouveau/page.tsx:27-46 | A saved client has a name, a first name, and a valid trimmed telephone. |
| NouvelleFacture.AmountOf | app/factures/nouvelle/page.tsx:110-111 | An instalment amount is accepted only when it parses above zero. |
| NouvelleFacture.CheckRows | app/factures/nouvelle/page.tsx:108-113 | One amount error per rejected amount and one date error per missing date, nothing else. The total sums the accepted amounts. |
| NouvelleFacture.ValidateTranches | app/factures/nouvelle/page.tsx:104-118 | No rows gives the single global error. Row errors are as in `CheckRows`. The global error is set exactly when the price parses and differs from the total by more than 0.01. The result is ok exactly when there is no error. |
| NouvelleFacture.ErrorsIffRejected | app/factures/nouvelle/page.tsx:105-117 | The error map is empty exactly when every row is accepted and there is no global error. |
| NouvelleFacture.KeyStringInjective | app/factures/nouvelle/page.tsx:111-112 | The source's error keys `<i>_montant`, `<i>_date` and `global` never collide. |
| NouvelleFacture.BuildTranches | app/factures/nouvelle/page.tsx:61-67 | Instalments are numbered from one in order. Each has the derived id, awaits payment, and has no payment date or mode. |
| NouvelleFacture.TrancheIdsDistinct | app/factures/nouvelle/page.tsx:63 | The instalments of one invoice have distinct ids. |
| NouvelleFacture.AcceptedAmountsKept | app/factures/nouvelle/page.tsx:64 | Once every amount is accepted, each instalment carries the amount typed for it. |
| NouvelleFacture.AcceptedTranchesAddUp | app/factures/nouvelle/page.tsx:57-67 | After the check passes, the instalments sum to the price within 0.01. Also rests on `app/factures/nouvelle/page.tsx:114`. |
| NouvelleFacture.NewFacture | app/factures/nouvelle/page.tsx:75-85 | Vehicle fields come from the dossier and the VIN from its chassis number. Nothing is paid yet and the invoice is balanced. Blank or unreadable costs count as zero. |
| NouvelleFacture.NewFactureProfit | app/factures/nouvelle/page.tsx:75-85 | The exported profit is the price minus the typed purchase price and clearance cost. Also rests on `lib/excel.ts:164-166`. |
| NouvelleFacture.SubmitFacture | app/factures/nouvelle/page.tsx:56-88 | Tranche errors are reported exactly when instalments are on. The invoice is saved exactly when the instalment check passes (or is off) and the dossier exists, and is then the built invoice. |
| NouvelleFacture.ValidFormPrice | app/factures/nouvelle/page.tsx:49-55 | A valid form has a price above zero. |
| NouvelleLocation.DefaultDateDebut | app/locations/nouvelle/page.tsx:74-79 | An empty start date becomes today. A typed one and every other field are kept. |
| NouvelleLocation.Clean | app/locations/nouvelle/page.tsx:50 | The label is trimmed. The amount is `parseFloat` of the text, or zero when that fails. |
| NouvelleLocation.CleanLinesMembers | app/locations/nouvelle/page.tsx:49-51 | A saved line is exactly a cleaned typed line with a label or an amount above zero. |
| NouvelleLocation.LabelledLineKept | app/locations/nouvelle/page.tsx:51 | A line with a non-blank label is always saved. |
| NouvelleLocation.DisplayedBenefice | app/locations/nouvelle/page.tsx:83-85 | The profit shown plus the expenses shown equals the typed total, which counts as zero when unreadable. |
| NouvelleLocation.SavedDepensesAgainstDisplayed | app/locations/nouvelle/page.tsx:49-52 | The saved expenses are never below the ones shown, and equal them when no amount is negative. Also rests on `app/locations/nouvelle/page.tsx:83`. |
| NouvelleLocation.DroppedNonPositive | app/locations/nouvelle/page.tsx:51 | The dropped lines add up to zero or less. |
| NouvelleLocation.RemoveLine | app/locations/nouvelle/page.tsx:145 | A single line is never removed. Otherwise exactly the lines with the id go. |
| NouvelleLocation.RemoveLineKeepsOne | app/locations/nouvelle/page.tsx:145 | The list never becomes empty. An unknown id changes nothing. |
| NouvelleLocation.NewLocation | app/locations/nouvelle/page.tsx:54-67 | Text fields are trimmed. The end date falls back on the start date. The cleaned lines are saved with their total as the expenses. |
| NouvelleLocation.NewLocationExported | app/locations/nouvelle/page.tsx:52-63 | The export and the rentals list read the saved total. The profit is the amount minus the saved expenses. Also rests on `lib/excel.ts:135-136`. |
| NouvelleLocation.ValidLocationForm | lib/validation.ts:62-68 | A valid rental form has a reference, a client, and an amount above zero. |
| NouvelleLocation.SubmitLocation | app/locations/nouvelle/page.tsx:36-72 | The rental is saved exactly when the rental rules pass. |
| ImportPage.LastIndexOf | app/import/page.tsx:34 | The last index holding the character, or -1 when it does not occur. |
| ImportPage.Extension | app/import/page.tsx:34 | A suffix of the name. It is the whole name when there is no dot. Otherwise it starts at the last dot and holds no other dot. |
| ImportPage.AcceptedIff | app/import/page.tsx:28-39 | A file is accepted exactly when its MIME type is listed or its name ends, in any case, with `.xlsx`, `.xls` or `.csv`. |
| ImportPage.NoDotNeedsType | app/import/page.tsx:34-36 | A name without a dot is accepted only by its MIME type. |
| ImportPage.HandleFile | app/import/page.tsx:27-59 | A refused file changes nothing. An accepted one records the name and clears the summary. The preview changes only to a non-empty parsed list. |
| ImportPage.HandleFileKeepsPreviewNonEmpty | app/import/page.tsx:49-53 | Choosing a file never leaves an empty preview. |
| ImportPage.HandleImport | app/import/page.tsx:72-79 | No preview means nothing happens. Otherwise the preview is imported and dropped, and the summary gives the count and the new size of storage. In additive mode, all were added exactly when the batch's numéros CH were new and distinct. |
| Excel.Norm | lib/excel.ts:14-42 | Lowercases and keeps only the listed letters and, for headers, digits. Never longer than the input. |
| Excel.NormAppend | lib/excel.ts:14 | The normalisation works character by character. |
| Excel.NormIdempotent | lib/excel.ts:14 | A normalised text is already normal. |
| Excel.MatchesAnyIff | lib/excel.ts:15-17 | A header matches exactly when some candidate occurs in its normal form. |
| Excel.FindColumn | lib/excel.ts:12-20 | As written. The first key, in key order, whose accent-keeping normal form contains a candidate, or none. |
| Excel.FindColumnFolded | lib/excel.ts:12-20 | Corrected. The first key whose accent-folded normal form contains a folded candidate, or none. |
| Excel.FoldedMatchExtends | lib/excel.ts:14-16 | Folding only adds matches. |
| Excel.FindColumnFoldedFindsMore | lib/excel.ts:12-20 | Any column the original finds, the folded search finds too. |
| Excel.TemplateLosesReference | lib/excel.ts:218-232 | As written, no column of the import template matches the reference candidates. The candidates are at `lib/excel.ts:33`. |
| Excel.TemplateLosesPrenom | lib/excel.ts:218-232 | As written, no column of the import template matches the first-name candidates. The candidates are at `lib/excel.ts:36`. |
| Excel.TemplateFoldedFindsReference | lib/excel.ts:218-232 | Folded, the reference column found is `Référence Véhicule`. The candidates are at `lib/excel.ts:33`. |
| Excel.TemplateFoldedFindsPrenom | lib/excel.ts:218-232 | Folded, the first-name column found is `Prénom Client`. The candidates are at `lib/excel.ts:36`. |
| Excel.MapStatut | lib/excel.ts:41-51 | A registration status only when the text contains `cartegrise`, a provisional one only with `provisoire`, and an exit only with `sortie`. Anything else is `Lance`. |
| Excel.StatutReadsBack | lib/excel.ts:41-51 | Every status's display label and stored code are read back as that status. Also rests on `lib/utils.ts:99-105`. |
| Excel.ExportedStatutReadsBack | lib/excel.ts:41-51 | The status the dossier export writes is imported as the dossier's status. Also rests on `lib/excel.ts:102`. |
| Excel.Cell | lib/excel.ts:55-65 | The cell under the column. It is `''` when no column was found or the row has no cell there. |
| Excel.ImportRow | lib/excel.ts:53-66 | Each field comes from its column's cell. The dossier gets a fresh id, the import time and no client link. The status is recognised. |
| Excel.ImportRows | lib/excel.ts:53 | One dossier per row, in order. |
| Excel.ImportColumns | lib/excel.ts:29-39 | As written. Each of the ten columns is the first header of the first row that contains one of its candidates, accents kept. |
| Excel.ImportColumnsFolded | lib/excel.ts:29-39 | Corrected. The same candidates, looked up with accents folded. |
| Excel.ParseRows | lib/excel.ts:22-67 | As written. No rows give no dossiers. Otherwise one dossier per row, read through the columns found in the first row's headers alone. |
| Excel.ParseRowsFolded | lib/excel.ts:22-67 | Corrected. The same import through the accent-folded columns. |
| Excel.MissingColumnsImportEmpty | lib/excel.ts:58-61 | Headers matching no reference and no first-name candidate import every dossier with both fields empty. |
| Excel.TemplateImportLosesFields | lib/excel.ts:218-232 | As written, a sheet headed like the template imports every dossier with an empty reference and first name, whatever its cells hold. |
| Excel.FoundColumnsImportCell | lib/excel.ts:58-61 | Once the folded lookup finds the reference and first-name columns, each dossier takes those fields from its row's cells. |
| Excel.TemplateFoldedImportReadsFields | lib/excel.ts:218-232 | Corrected, a sheet headed like the template fills each dossier's reference and first name from its cells. |
| Excel.ImportedDossiersAreWellFormed | lib/excel.ts:53-66 | Every imported dossier has its own id, the import time and a known status. |
| Excel.UnmatchedColumnIsEmpty | lib/excel.ts:55-63 | A missing column leaves its field empty in every dossier. A missing status column means every dossier is launched. |
| Excel.ImportReadsStatut | lib/excel.ts:63 | A status cell holding a label or code imports as that status. |
| ExcelExport.FactureBenefice | lib/excel.ts:164-166 | Profit plus purchase price plus clearance cost equals the price. |
| ExcelExport.DedouanementFallsBack | lib/excel.ts:165 | The clearance cost is the recorded one, else the legacy expenses, else zero. The itemised lines never change it. |
| ExcelExport.LocationBenefice | lib/excel.ts:135-136 | Profit plus expenses equals the rental amount. |
| ExcelExport.LocationDepensesPrecedence | lib/excel.ts:135 | A recorded expense total hides the lines. Otherwise the lines' sum is used, and a new line adds its amount. |
| ExcelExport.FullReportSummary | lib/excel.ts:256-311 | The counts are exact and the outstanding total is sales minus receipts. Sales, receipts and total profit are the sums of the invoices' prices, paid amounts and profits. Total profit is sales minus purchase prices minus clearance costs. |
| ExcelExport.SummaryAdditive | lib/excel.ts:300-302 | The summary of two batches of invoices is the sum of their summaries. |
| ExcelExport.SummaryAgreesWithDashboard | lib/excel.ts:300-309 | The report's counts, sales and receipts are the dashboard's. So is its outstanding total when every invoice is balanced. Also rests on `lib/store.ts:275-277`. |
| ListPages.ToggleSort | app/dossiers/page.tsx:64-67 | The same column flips the direction. Another column is taken ascending. |
| ListPages.ToggleTwice | app/dossiers/page.tsx:64-67 | Clicking the sort column twice restores the state. Clicking another column twice ends descending on it. |
| ListPages.ByStatus | app/dossiers/page.tsx:42 | `all` keeps everything. Any other value keeps exactly the records with that status. |
| ListPages.BySearch | app/dossiers/page.tsx:43-50 | A blank search keeps everything. Otherwise it keeps exactly the records the page's test accepts. |
| ListPages.MentionsIgnoresCase | app/dossiers/page.tsx:44-48 | The search ignores the case of the search text. |
| ListPages.Arrange | app/dossiers/page.tsx:51-59 | The same records, ordered by the numeric key in the chosen direction. Records with equal keys keep their input order. |
| ListPages.LatestStamp | app/factures/page.tsx:48-58 | The largest stamp, or the epoch when there is none. |
| DossiersPage.Filtered | app/dossiers/page.tsx:40-50 | Exactly the dossiers passing the status filter and the search on number, client text and reference. |
| ListPages.TouchedKey | app/dossiers/page.tsx:54-55 | The date column's key is the later of the creation and modification stamps, a missing one read as the epoch. The rentals, clients and vehicle-types lists use the same key. |
| DossiersPage.ListedByDate | app/dossiers/page.tsx:40-62 | Under the default column, the filtered dossiers in date order. Records with equal keys keep their order among the filtered ones. |
| DossiersPage.TryDelete | app/dossiers/page.tsx:69-75 | The confirmation opens exactly when no invoice refers to the dossier. |
| DossiersPage.TryDeleteAgreesWithStore | app/dossiers/page.tsx:69-75 | The page lets a deletion through exactly when the repository would accept it. Also rests on `lib/store.ts:61-64`. |
| FacturesPage.Filtered | app/factures/page.tsx:35-45 | Exactly the invoices passing the status filter and the search on id, client text and reference. |
| FacturesPage.DateKey | app/factures/page.tsx:48-58 | The latest of the creation, modification and invoice dates. |
| FacturesPage.NumericKey | app/factures/page.tsx:46-62 | A numeric comparison for every column except the client's. |
| FacturesPage.Listed | app/factures/page.tsx:35-66 | Under a numeric column, exactly the filtered invoices, ordered by that column in the chosen direction. Records with equal keys keep their order among the filtered ones. |
| FacturesPage.DearestFirst | app/factures/page.tsx:61-63 | Sorted by price descending, the first invoice is among the dearest that pass the filters. |
| LocationsPage.Filtered | app/locations/page.tsx:40-50 | Exactly the rentals passing the status filter and the search on reference, client text and truck type. |
| LocationsPage.BeneficeKey | app/locations/page.tsx:58-62 | The amount minus the expenses, where a recorded total wins over the lines. |
| LocationsPage.NumericKey | app/locations/page.tsx:51-64 | A numeric comparison exactly for the date, amount and profit columns. |
| LocationsPage.Listed | app/locations/page.tsx:40-68 | Under a numeric column, exactly the filtered rentals, ordered by that column in the chosen direction. Records with equal keys keep their order among the filtered ones. |
| LocationsPage.RecordedExpensesDecideProfitOrder | app/locations/page.tsx:58-62 | For equal amounts, higher recorded expenses sort as less profitable. |
| ClientsPage.Listed | app/clients/page.tsx:24-39 | Exactly the clients the search keeps, most recently touched first. Records with equal keys keep their order among the filtered ones. |
| ClientsPage.HandleDelete | app/clients/page.tsx:41-52 | No pending id, or an empty one, does nothing. A client still in use stays. A free one is deleted. Otherwise the confirmation closes either way. |
| ClientsPage.DeleteKeepsOtherIds | app/clients/page.tsx:48 | Deleting one client keeps every other. |
| ClientsPage.HandleDeleteKeepsLinks | app/clients/page.tsx:41-52 | The guarded deletion never leaves a link to a missing client. |
| TypesPage.Listed | app/types-vehicule/page.tsx:23-35 | Exactly the types whose label the search mentions, most recently touched first. Records with equal keys keep their order among the filtered ones. |
| TypesPage.HandleDelete | app/types-vehicule/page.tsx:37-49 | No pending id, or an empty one, does nothing. An id the page does not list is deleted unguarded. Otherwise the confirmation closes. |
| TypesPage.DeleteGuardedByLabel | app/types-vehicule/page.tsx:39-45 | A listed type with an empty id, or whose label is in use, stays. Otherwise its id is gone from storage. |

## Left out

- Reading and writing local storage: JSON encoding and `localStorage` are replaced by the
  `Storage` value. `GetItem` takes the raw text and a parser as parameters.
- The clock and the random ids (`generateId`, `generateFactureId`, `crypto.randomUUID`) are
  parameters.
- Decoding `.xlsx`/`.csv` files (`XLSX.read`, `sheet_to_json`) and reading the file are left out.
  The import starts from rows of (header, cell) pairs in `Object.keys` order. The page receives
  the parsed dossiers, or `None` when reading threw.
- The sheet and PDF writers (`exportClientsToExcel`, `exportDossiersToExcel`,
  `exportLocationsToExcel`, `exportFacturesToExcel`, `exportTranchesToExcel`, `generateTemplate`,
  and the sheets of `exportFullReport`) are left out, because they only lay out columns for the
  file library. Kept are their arithmetic (profit columns, summary sheet) and the template's
  header row.
- `formatDate`, `formatDateTime`, `formatDateCourt` and `formatMontant` are left out, because they
  depend on locale libraries (`date-fns`, `Intl`).
- Utils.FormatMontantForPdf: covers amounts under one million in absolute value only. The
  compact `M`/`Md FCFA` forms need decimal rounding of floating point, which is not modelled.
  Integer amounts stand for already rounded ones.
- Decimal.ParseNumber: reads leading whitespace, a sign, digits and a fraction. Exponents and
  `Infinity` are not modelled.
- Floating point is modelled as exact `real` arithmetic. The 0.01 tolerance of the instalment
  check is kept, but rounding error is not.
- Text.Lower: covers ASCII and Latin-1 letters only, which is every letter the headers,
  statuses and extensions involve. The full Unicode lowercase mapping is not modelled.
- The orders that use `localeCompare` are not modelled: client name, status, numéro CH and
  truck reference. `FacturesPage.Listed` and `LocationsPage.Listed` return `None` for those
  columns. `DossiersPage.ListedByDate` covers the dossiers page's default date column only.
- Missing stamps: `new Date(undefined)` is `NaN` in the source's comparators, and the model reads
  a missing creation stamp as the epoch instead. A stamp is an integer time, not an ISO string.
- The lists' staleness: each page reads its collection once on mount. `TypesPage.HandleDelete`
  receives that list as a parameter.
- Toasts, the router, confirmation dialogs and rendering are left out. An error toast is modelled
  as "nothing changes".
- Two effects are left out. One is the invoice form's effect on choosing a dossier
  (app/factures/nouvelle/page.tsx:91-102): it overwrites the form's `clientId` with the chosen
  dossier's client when the dossier has one. The model takes the form values, `clientId`
  included, as input, so it covers every value the effect can produce, but it does not state
  the link from dossier to client. The other is the loading of the option lists for the select
  boxes.
- The payment screens (`app/factures/[id]`) are not part of this model.
- `parStatut[d.statut]` also finds inherited object keys such as `constructor`. The model counts
  only the five statuses.
- Store.ImportFrom: its own contract states only the prefix, the origin of appended dossiers and
  the coverage of every incoming number. The exact appended list is stated once, by
  `Store.ImportKeepsFirstOccurrences`, against an index-based filter of the batch.
- Utils.StatutDossierLabel: for an inherited object key such as `constructor`, `toString` or
  `__proto__`, `DOSSIER_LABELS[statut] ?? statut` yields a member of `Object.prototype`, not a
  string. The model has no prototype chain and returns the text itself.
- Utils.StatutFactureLabel: the same inherited-key case of `FACTURE_LABELS[statut] ?? statut`
  returns the text in the model.
- Utils.StatutTrancheLabel: the same inherited-key case of `TRANCHE_LABELS[statut] ?? statut`
  returns the text in the model.
- Utils.StatutLocationLabel: the same inherited-key case of `LOCATION_LABELS[statut] ?? statut`
  returns the text in the model.
- Utils.ModePaiementLabel: the same inherited-key case of `PAIEMENT_LABELS[mode] ?? mode`
  returns the text in the model.

## Findings

| source | as written | input that shows it | evidently intended | confidence | as-written member | corrected member |
|---|---|---|---|---|---|---|
| lib/excel.ts:14-16, lib/excel.ts:33, lib/excel.ts:36 | `findColumn` lowercases and strips headers but keeps accented letters. The reference and first-name candidates are unaccented (`ref`, `prenom`). | The application's own template, `generateTemplate` (lib/excel.ts:218-232): `Référence Véhicule` normalises to `référencevéhicule` and `Prénom Client` to `prénomclient`. Neither contains a candidate and no other header does, so every imported dossier gets an empty reference and first name. | Accented headers match their unaccented candidates: compare with accents folded on both sides. | high, not executed | Excel.TemplateLosesReference, Excel.TemplateLosesPrenom, Excel.TemplateImportLosesFields (on Excel.FindColumn, Excel.ImportColumns, Excel.ParseRows) | Excel.FindColumnFolded, Excel.ImportColumnsFolded, Excel.ParseRowsFolded, Excel.TemplateFoldedImportReadsFields |

# Work-record database: a Dafny model

This project models the deterministic core of a Next.js work-instruction
database for a machining shop. The database has drawings, per-machine work
steps, contributions, troubleshooting advice and a knowledge search. The
project also models the Python and Node maintenance scripts that migrate its
folder tree and mask its demo data. The model keeps the pieces that are pure
string, sequence and map transformations and leaves out the I/O and the
rendering around them:

- naming and sanitising: machine-type keys and step-folder names, both
  drawing-number sanitisers, file names, file types, company ids, the default
  instruction template and the per-folder extension whitelist;
- validation: the drawing-registration checks on the server and in the
  registration form, and the automatic keywords;
- the editor's list operations: work steps with renumbering, warnings,
  keywords, tools and near misses, and the index guards of the machine tabs;
- search: the search bar's scoring, ranking and history, the knowledge
  search's dictionary extraction, relevance score and result text, the admin
  list's filter and paging, and the first-match loaders;
- navigation: the troubleshooting tree, the translation lookup and the
  per-machine step counts and folders of the instruction view;
- the migration scripts, as functions over an abstract directory tree;
- the anonymisation scripts, as functions from a tree of JSON-like records to a
  masked tree plus the script's report.

Each source area is one module in one file. `Wrappers`, `Strings`, `Seqs`,
`Replace`, `FirstSeen` and `FileTree` are shared helpers. They model the
JavaScript string operations: `trim`, `toLowerCase`, `split`/`join`,
`padStart`, `parseInt`, `includes`, `replace` and regex replace-all with an
escaped literal. They also hold the first-seen label assignment and a
directory tree keyed by path. Functions carry named results and contracts.
Lemmas relate operations to their partners: inverses, reference definitions
and preserved invariants.

## Model

| member | source | states |
|---|---|---|
| MachineType.MachineTypeKey | src/lib/machineTypeUtils.ts:4-25 | the key is always one of the five English keys, and a name that is not one of the six Japanese names gives `other` |
| MachineType.MachineTypeJapanese | src/lib/machineTypeUtils.ts:14-30 | the result is always a known Japanese name, and an unknown English key gives その他 |
| MachineType.KeyRoundTrip | src/lib/machineTypeUtils.ts:4-30 | converting an English key to Japanese and back gives the key again |
| MachineType.JapaneseRoundTrip | src/lib/machineTypeUtils.ts:4-30 | converting a Japanese name to its key and back gives the name again, except フライス, which comes back as その他 |
| MachineType.EnglishKeyIsOther | src/lib/machineTypeUtils.ts:23-25 | an English key such as `machining` passed to the key function gives `other` |
| MachineType.LegacyFolderName | src/lib/machineTypeUtils.ts:33-43 | the legacy folder is `step_` and the number left-padded to two characters; a longer number is kept whole |
| MachineType.StepFolderNameOfNat | src/lib/machineTypeUtils.ts:33-35 | for a number n the folder is `step_` + two-digit n: `step_0d` below 10 and the plain digits from 10 on |
| MachineType.PossibleFolderNames | src/lib/machineTypeUtils.ts:53-69 | the candidates are [new, legacy] with a machine type and [legacy] without; the last is always the legacy name |
| MachineType.MatchStepAt | src/lib/machineTypeUtils.ts:48 | a match of `step_\d+_(.+)` at a position starts with `step_` and captures at least one character |
| MachineType.ExtractMachineType | src/lib/machineTypeUtils.ts:47-50 | a captured machine type is non-empty, contains no line terminator, and comes from a name containing `step_` |
| MachineType.StepFolderNameExtract | src/lib/machineTypeUtils.ts:33-50 | extracting from the folder name built for a digit step number and a machine type gives back that type's key |
| MachineType.LegacyFolderNameExtract | src/lib/machineTypeUtils.ts:42-50 | a legacy folder name yields no machine type |
| MachineType.NoStepMatch | src/lib/machineTypeUtils.ts:47-50 | a name without the letter `s` yields no machine type |
| Sanitize.DashUnsafe | src/lib/fileUtils.ts:11 | each character outside [a-zA-Z0-9-_] is replaced one-for-one by `-`; the length is kept and the result is safe |
| Sanitize.SanitizeDrawingNumberStrict | src/lib/fileUtils.ts:4-20 | fails exactly on the empty number; otherwise the result is safe, has length min(\|d\|, 100), and keeps each safe character in place and dashes the rest |
| Sanitize.StrictIdempotent | src/lib/fileUtils.ts:10-13 | sanitising an already sanitised number gives it back unchanged |
| Sanitize.SanitizeDrawingNumberLoose | src/lib/admin/utils.ts:24-26 | the result is the subsequence of the safe characters, every one of them and as many as the input has: safe, a subsequence, containing each safe character, of length the number of safe characters |
| Sanitize.LooseFixesSafe | src/lib/admin/utils.ts:24-26 | a number made only of safe characters passes through unchanged |
| Sanitize.LooseIdempotent | src/lib/admin/utils.ts:24-26 | the deleting sanitiser is idempotent |
| Sanitize.SanitizersAgreeOnSafe | src/lib/fileUtils.ts:4-20 | on a non-empty safe number of at most 100 characters both sanitisers return the number itself |
| Sanitize.SanitizersDisagree | src/lib/admin/utils.ts:24-26 | on `A/B` the two sanitisers differ: `A-B` and `AB` |
| Sanitize.DropLeadingDots | src/lib/admin/utils.ts:39 | removing `^\.+` leaves a suffix that does not start with a dot |
| Sanitize.DropTrailingDots | src/lib/admin/utils.ts:39 | removing `\.+$` leaves a prefix that does not end with a dot |
| Sanitize.RemoveReserved | src/lib/admin/utils.ts:37 | the result is the input with the reserved characters deleted: reserved-free, a subsequence keeping every other character, of length the number of non-reserved characters, and the input itself when it had none |
| Sanitize.FileNameCore | src/lib/admin/utils.ts:33-39 | after the three steps the name has no separator or reserved character and neither starts nor ends with a dot |
| Sanitize.SanitizeFileName | src/lib/admin/utils.ts:33-42 | the result is never empty (it falls back to `unnamed`), is clean, and neither starts nor ends with a dot |
| Sanitize.SanitizeFileNameFixesClean | src/lib/admin/utils.ts:33-42 | a clean name without edge blanks or edge dots is returned unchanged |
| Sanitize.DetermineFileType | src/lib/admin/utils.ts:100-127 | pdf iff the MIME contains `pdf` or the name ends in `.pdf`; otherwise a program extension gives programs; otherwise an image MIME or extension gives images, so video only when neither image test holds |
| Sanitize.ProgramBeatsMime | src/lib/admin/utils.ts:107-114 | a name with a program extension is `programs` whatever its non-pdf MIME type, even `image/*` |
| Sanitize.UnknownIff | src/lib/admin/utils.ts:100-127 | `unknown` exactly when none of the pdf, program, image and video tests match |
| DrawingUtils.DashNonAlnum | src/lib/drawingUtils.ts:26 | each character outside [a-z0-9] becomes `-` and every other character stays, so the result uses only [a-z0-9-] |
| DrawingUtils.CollapseDashes | src/lib/drawingUtils.ts:27 | collapsing runs of dashes keeps the first and last character, never lengthens the text and leaves no `--` |
| DrawingUtils.StripEndDashes | src/lib/drawingUtils.ts:28 | removing one leading and one trailing dash leaves an infix that, when the input had no `--`, neither starts nor ends with `-` |
| DrawingUtils.CompanyIdUncut | src/lib/drawingUtils.ts:23-28 | before the cut to 30 characters the id uses [a-z0-9-], has no `--`, and has no dash at either end |
| DrawingUtils.GenerateCompanyId | src/lib/drawingUtils.ts:23-30 | the id has at most 30 characters from [a-z0-9-], no `--` and no leading dash; a trailing dash appears only through the cut |
| DrawingUtils.CompanyIdOfNonAscii | src/lib/drawingUtils.ts:23-30 | a name with no ASCII letter or digit, such as an all-Japanese name, gives the empty id |
| DrawingUtils.CompanyIdFixesValid | src/lib/drawingUtils.ts:23-30 | a well-formed id of at most 30 characters is its own company id |
| DrawingUtils.CompanyIdIdempotent | src/lib/drawingUtils.ts:23-30 | generating an id from an id that does not end in a dash gives it back |
| DrawingUtils.RequiredDirectoriesShape | src/lib/drawingUtils.ts:46-64 | the plan has 4 rows per media kind plus two: `overview` and the legacy folders of steps 1 to 3 for each of images, videos, pdfs and programs |
| DrawingUtils.DrawingFolder | src/lib/drawingUtils.ts:41-43 | the folder is `drawing-` + the strict sanitiser's result, and fails exactly on an empty number |
| DrawingUtils.TotalMinutes | src/lib/drawingUtils.ts:150 | the total is the estimate as a radix-less `parseInt` reads it (decimal, or hexadecimal after `0x`), or 180 when it does not parse or parses to 0; it is never 0 |
| DrawingUtils.TotalMinutesHex | src/lib/drawingUtils.ts:150 | an estimate of `0x1A` gives 26 minutes, as JavaScript's `parseInt` reads hexadecimal |
| DrawingUtils.PrepMinutes | src/lib/drawingUtils.ts:151 | the preparation time is a fifth of the total rounded down (`5p <= total < 5p + 5`) below 30 and exactly 30 once the total reaches 150 |
| DrawingUtils.GenerateBasicInstruction | src/lib/drawingUtils.ts:139-263 | the template has three steps numbered 1, 2, 3 with levels normal, important, normal; step 1 takes the preparation time; the estimate is the raw text + 分; the description falls back to title + の加工を行います and the warnings to [] |
| DrawingUtils.InstructionTimesSumToTotal | src/lib/drawingUtils.ts:150-172 | reading the written preparation and processing texts back as numbers gives two values that add up to the total |
| FilesApi.DataRoot | src/app/api/files/route.ts:6-24 | `USE_NAS=true` wins with its path or the NAS default; otherwise a development path wins; the root can be empty only when no rule applies and the working-directory path is itself empty |
| FilesApi.DataRootNonEmpty | src/app/api/files/route.ts:6-24 | the data root is never empty |
| FilesApi.IdeaParamsCheckUnreachable | src/app/api/files/route.ts:46-53 | inside the idea branch the inner check never fires |
| FilesApi.ValidateRequest | src/app/api/files/route.ts:38-62 | a missing folder type is the first error; a missing drawing number is an error only outside idea mode; the idea-parameter error never occurs; the request passes iff it has a folder type and either both idea parameters or a drawing number |
| FilesApi.FolderPath | src/app/api/files/route.ts:71-79 | the folder is `join` of the handler's arguments: no segment is empty, `.` or holds a `/`, and any `..` (a folder above the data root) comes first |
| FilesApi.PlainFolderPath | src/app/api/files/route.ts:71-79 | when every path parameter is a single plain segment, `join` keeps the handler's arguments as they are, one segment each |
| FilesApi.FolderPathDetermines | src/app/api/files/route.ts:71-79 | two requests whose path parameters are single plain segments (no `/`, not `.` or `..`) list the same folder only when they agree on the mode, the folder type, the sub-folder and the drawing number (or the idea category and id) |
| FilesApi.DrawingNumberReachesIdea | src/app/api/files/route.ts:73-78 | a drawing number `x/../../ideas-library/c/i` passes the checks as a drawing request and lists the same folder as the idea request for category `c` and id `i` |
| FilesApi.CorrectedFolderStaysInside | src/app/api/files/route.ts:71-79 | with every path parameter checked to be a single plain segment, a request lists exactly its own drawing's or idea's folder, and no segment climbs with `..` |
| FilesApi.Extension | src/app/api/files/route.ts:115 | the extension contains no dot |
| FilesApi.ExtensionIff | src/app/api/files/route.ts:115 | the extension is `ext` iff the lower-cased name is `ext` or ends in `.ext` |
| FilesApi.AllowedExtensions | src/app/api/files/route.ts:116-127 | there is a whitelist exactly for images, videos, pdfs and programs, and its entries have no dot |
| FilesApi.PdfFilter | src/app/api/files/route.ts:121-122 | a file is kept in `pdfs` iff its lower-cased name is `pdf` or ends in `.pdf` |
| FilesApi.FileNames | src/app/api/files/route.ts:104-111 | the listing keeps exactly the names of the regular files |
| FilesApi.ListFiles | src/app/api/files/route.ts:26-147 | a 400 iff validation fails, with that error; an empty list iff nothing is at the folder path; a 500 iff the path holds something other than a directory; otherwise the listed names are exactly the regular files that pass the folder type's filter, and count is their number |
| FilesApi.DirectoryListing | src/app/api/files/route.ts:101-136 | the listed names are the folder's regular files that pass the folder type's filter, each one listed, and count is their number |
| FilesApi.ListingOrder | src/app/api/files/route.ts:104-128 | the listing keeps the directory order, and an unknown folder type keeps every file |
| DrawingsApi.ValidateDrawingData | src/app/api/admin/drawings/route.ts:52-107 | valid iff there is no error, and a check is reported iff it fails: each blank required field, a number outside [a-zA-Z0-9-_], a time whose parseInt is not positive, an unknown difficulty |
| DrawingsApi.ErrorMessages | src/app/api/admin/drawings/route.ts:53-105 | one message per reported error |
| DrawingsApi.ValidationOrder | src/app/api/admin/drawings/route.ts:55-101 | the errors come in the order the checks are written |
| DrawingsApi.ValidIffAcceptable | src/app/api/admin/drawings/route.ts:52-107 | validation passes iff the drawing meets every requirement stated on its own |
| DrawingsApi.PassingAcceptable | src/app/api/admin/drawings/route.ts:55-101 | a drawing that fails none of the eleven checks is acceptable |
| DrawingsApi.FailsNotAcceptable | src/app/api/admin/drawings/route.ts:55-101 | a drawing that fails any one check is not acceptable |
| DrawingsApi.ValidNumberIsSafe | src/app/api/admin/drawings/route.ts:89-91 | a validated number is unchanged by the deleting sanitiser and, up to 100 characters, by the strict one |
| DrawingsApi.TimeWithUnit | src/app/api/admin/drawings/route.ts:93-96 | `12分` is accepted as a positive time |
| DrawingsApi.TimeRejected | src/app/api/admin/drawings/route.ts:93-96 | `0` and `abc` are rejected as times |
| DrawingsApi.ItemErrors | src/app/api/admin/drawings/route.ts:115-118 | an item adds one error carrying its index iff it is invalid |
| DrawingsApi.DuplicateErrors | src/app/api/admin/drawings/route.ts:120-126 | an item adds one duplicate error iff its number is non-empty and an earlier item had it |
| DrawingsApi.ValidateMultiple | src/app/api/admin/drawings/route.ts:110-133 | item errors carry a 1-based index within the request, and duplicate errors name a non-empty number |
| DrawingsApi.DuplicateCount | src/app/api/admin/drawings/route.ts:110-133 | a number that occurs k > 0 times yields exactly k−1 duplicate errors |
| DrawingsApi.ValidateMultipleIff | src/app/api/admin/drawings/route.ts:110-133 | the batch passes iff every item is valid and no non-empty number repeats |
| DrawingsApi.ExistingNumbers | src/lib/drawingUtils.ts:109-136 | the reported numbers are exactly the request's numbers whose sanitised folder exists |
| DrawingsApi.PostDrawings | src/app/api/admin/drawings/route.ts:136-342 | the drawings are registered iff the caller is authorised, the payload parses, the batch is valid, no folder exists and the data step succeeds; then total is the item count, successful + failed is the number processed, and success iff nothing failed |
| DrawingsApi.PostCreatedIff | src/app/api/admin/drawings/route.ts:314-333 | the status is 201 iff registered with every drawing processed, and 207 iff registered with some failure |
| DrawingsApi.Matching | src/app/api/admin/drawings/route.ts:368-375 | the search keeps, in order and with repeats, exactly the drawings whose number, title, product or company contains the term case-insensitively, so its length is the number of such drawings; an empty term keeps all |
| DrawingsApi.CeilDiv | src/app/api/admin/drawings/route.ts:387 | the page count r is the least r with a ≤ r·b |
| DrawingsApi.PageOf | src/app/api/admin/drawings/route.ts:378-379 | a page holds at most `limit` of the filtered drawings; a page or limit that does not parse gives an empty page |
| DrawingsApi.ListDrawings | src/app/api/admin/drawings/route.ts:345-399 | unauthorised iff not authorised; total is the filtered count; every listed drawing matches the search |
| DrawingsApi.ListDrawingsPage | src/app/api/admin/drawings/route.ts:356-387 | for a valid page and limit the page is the slice from (page−1)·limit of length limit, clipped, and totalPages is ⌈total/limit⌉ |
| DrawingsApi.ListDrawingsDefaults | src/app/api/admin/drawings/route.ts:356-357 | absent page and limit parameters read as 1 and 20 |
| EditForm.ToggleMachine | src/hooks/useEditFormHandlers.ts:60-62 | checking appends the machine, duplicates allowed; unchecking removes every equal entry and keeps the others in order, one entry per non-matching entry of the old list |
| EditForm.ToggleOnOff | src/hooks/useEditFormHandlers.ts:60-62 | checking and then unchecking a machine that was not listed restores the list |
| EditForm.ToggleMembers | src/hooks/useEditFormHandlers.ts:60-62 | after a toggle the machine is listed exactly when its box is ticked, and every other machine is listed exactly when it was before |
| EditForm.MachineTypeChange | src/hooks/useEditFormHandlers.ts:54-69 | with no form nothing happens; otherwise the machine is listed exactly when ticked, every other machine keeps its membership, and no other field changes |
| EditForm.ParseList | src/hooks/useEditFormHandlers.ts:78-90 | the parsed items are non-empty and trimmed, at most one per comma-separated part |
| EditForm.ParseListEntries | src/hooks/useEditFormHandlers.ts:78-90 | each parsed item occurs in the text and contains no comma |
| EditForm.ParseJoinRoundTrip | src/hooks/useEditFormHandlers.ts:78-90 | parsing a list joined with `, ` gives the list back when its items are non-empty, trimmed and comma-free |
| EditForm.ParseEmptyText | src/hooks/useEditFormHandlers.ts:78-90 | an empty text parses to the empty list |
| EditForm.ParseListStable | src/hooks/useEditFormHandlers.ts:71-93 | a list parsed from any text, joined with `, ` for display and parsed again, comes back unchanged |
| EditForm.KeywordsChange | src/hooks/useEditFormHandlers.ts:71-81 | with no form nothing happens; otherwise no other field changes, each keyword is a non-empty trimmed piece of the typed text, and showing the keywords joined with `, ` and re-reading them gives the same keywords |
| EditForm.ToolsRequiredChange | src/hooks/useEditFormHandlers.ts:83-93 | as for the keywords: no other field changes, each tool is a non-empty trimmed piece of the text, and showing and re-reading the tools is stable |
| EditForm.WarningEdit | src/hooks/useEditFormHandlers.ts:96-133 | with no form nothing happens; otherwise no field other than the warnings changes, and the warnings change by the list edit (replace one index, drop one index, append an empty line) |
| EditForm.WarningAddThenRemove | src/hooks/useEditFormHandlers.ts:96-133 | adding a warning line and then removing the line at the old length gives the form back |
| EditForm.TargetSteps | src/hooks/useEditFormHandlers.ts:153-154 | without a machine type or a per-machine map the handlers work on the legacy steps |
| EditForm.WithSteps | src/hooks/useEditFormHandlers.ts:157-169 | storing a step list changes only the chosen list: the legacy steps, or that machine's entry with the other machines untouched |
| EditForm.AddWorkStep | src/hooks/useEditFormHandlers.ts:136-172 | the chosen list gains one blank step numbered its previous length + 1, and the form is the old form with only that list replaced |
| EditForm.AddKeepsNumbered | src/hooks/useEditFormHandlers.ts:153-169 | adding to a list numbered 1..n gives a list numbered 1..n+1 |
| EditForm.UpdateWorkStep | src/hooks/useEditFormHandlers.ts:174-200 | the chosen list keeps its length, holds the new step at the index, and is unchanged elsewhere; no other list or field changes |
| EditForm.DeleteWorkStep | src/hooks/useEditFormHandlers.ts:202-241 | the chosen list loses the step at the index (nothing when out of range), keeps the rest in order, and is renumbered from 1; no other list or field changes |
| EditForm.AddThenDelete | src/hooks/useEditFormHandlers.ts:136-241 | adding a step and deleting it again restores a numbered list |
| EditForm.MoveWorkStep | src/hooks/useEditFormHandlers.ts:243-284 | the list keeps its length, is renumbered from 1, and holds the moved step at the target index; no other list or field changes |
| EditForm.MovePermutes | src/hooks/useEditFormHandlers.ts:249-258 | a move permutes the steps' contents |
| EditForm.MoveBack | src/hooks/useEditFormHandlers.ts:243-284 | moving from i to j and back from j to i restores a numbered list |
| EditForm.LegacyFallback | src/hooks/useEditFormHandlers.ts:153-164 | without a per-machine map, adding for a machine is the same as adding without one |
| EditForm.SetNearMissField | src/hooks/useEditFormHandlers.ts:293 | the chosen field reads back as the new value and each of the other four fields reads as before |
| EditForm.NearMissChange | src/hooks/useEditFormHandlers.ts:287-299 | the near-miss list keeps its length and changes only the item at the index; no other field changes |
| EditForm.AddNearMiss | src/hooks/useEditFormHandlers.ts:301-318 | a blank near miss with severity `low` is appended and no other field changes |
| EditForm.RemoveNearMiss | src/hooks/useEditFormHandlers.ts:320-331 | exactly the item at the index is removed, an out-of-range index changes nothing, and no other field changes |
| EditForm.AddThenRemoveNearMiss | src/hooks/useEditFormHandlers.ts:301-331 | adding a near miss and removing it again restores the form |
| WorkSteps.BlankStep | src/hooks/useEditFormHandlers.ts:142-151 | a new step carries the given number, level `normal`, one empty instruction and no tools or notes |
| WorkSteps.Renumber | src/hooks/useEditFormHandlers.ts:213-258 | renumbering keeps every step's content and length and numbers the steps 1..n by position |
| WorkSteps.NumberedContentsEqual | src/hooks/useEditFormHandlers.ts:213-216 | two numbered lists with the same contents are equal, so a step is its number plus its content |
| WorkSteps.RenumberNumbered | src/hooks/useEditFormHandlers.ts:213-216 | renumbering an already numbered list changes nothing |
| WorkSteps.ContentsMove | src/hooks/useEditFormHandlers.ts:251-252 | moving steps moves their contents the same way |
| WorkSteps.ApplyListEdit | src/components/admin/WorkStepEditor.tsx:236-371 | editing replaces index i only; removing drops exactly index i and leaves an out-of-range list unchanged; adding appends one empty item |
| WorkSteps.AppendThenRemove | src/components/admin/WorkStepEditor.tsx:247-260 | appending an empty item and removing it again restores the list |
| WorkSteps.SetSameValue | src/components/admin/WorkStepEditor.tsx:236-239 | writing an item's own value back changes nothing |
| StepEditor.EditorMachineKey | src/components/admin/WorkStepEditor.tsx:10-24 | the editor's key function maps the five Japanese names and the five English keys to English keys and returns any other input unchanged |
| StepEditor.EditorKeyAgrees | src/components/admin/WorkStepEditor.tsx:10-24 | it agrees with the shared key function on the Japanese names other than フライス, and keeps English keys, where the shared one gives `other` |
| StepEditor.EditorKeyIdempotent | src/components/admin/WorkStepEditor.tsx:10-24 | applying the editor's key function twice is the same as once |
| StepEditor.EditorStepFolder | src/components/admin/WorkStepEditor.tsx:60-62 | without a machine type the folder is `step_` + pad2(index+1) and carries no machine type; with one it is that name + `_` + the shared key of the type, which the viewer extracts again |
| StepEditor.EditorFolderUsesOther | src/components/admin/WorkStepEditor.tsx:60-61 | for every English machine key the editor's folder ends in `_other` |
| StepEditor.EditorFolderDiffers | src/components/admin/WorkStepEditor.tsx:60-61 | given an English machine key, as `MachineTypeTab` passes it, for every key other than `other` the editor links a different folder than the one the viewer reads (machining step 1: `step_01_other` against `step_01_machining`) |
| StepEditor.CorrectedStepFolder | src/components/WorkInstructionResults.tsx:75-76 | the corrected folder is `step_` + pad2(index+1), followed, when a type is given, by `_` and the editor's key for a name or key it knows and `_other` for anything else |
| StepEditor.FolderForKey | src/components/WorkInstructionResults.tsx:75-76 | naming through the Japanese name gives `step_` + pad2(n) + `_` + key, from which the key is extracted again |
| StepEditor.CorrectedFolderCarriesKey | src/components/WorkInstructionResults.tsx:75-76 | the corrected folder ends in the machine's own key, which extraction recovers |
| StepEditor.CorrectedAgreesOnJapanese | src/components/admin/WorkStepEditor.tsx:60-61 | for a Japanese machine name, as the drawing edit page passes it, the corrected folder is the editor's folder, so that caller is not affected |
| StepEditor.StepFilesKeyOrName | src/components/admin/WorkStepEditor.tsx:65-73 | looking up by English key or by its Japanese name finds the same files |
| StepEditor.StepFilesFallback | src/components/admin/WorkStepEditor.tsx:65-73 | without per-machine file lists every machine tab shows the step's legacy files; with them, a machine without a list shows no files even when legacy files exist |
| StepEditor.WarningLevelColor | src/components/admin/WorkStepEditor.tsx:116-123 | any level other than critical, important or caution is grey |
| StepEditor.WarningLevelIcon | src/components/admin/WorkStepEditor.tsx:126-133 | any level other than critical, important or caution gets 📝 |
| StepEditor.WarningLevelsDistinct | src/components/admin/WorkStepEditor.tsx:116-133 | two levels share a colour iff they share an icon, and the three named levels have distinct colours |
| AdminTabs.TabMatchesHandlers | src/components/admin/MachineTypeTab.tsx:58-60 | the tab and the step handlers address the same list iff there is no map, the machine has its own list, or the legacy list is empty |
| AdminTabs.EmptyStateIff | src/components/admin/MachineTypeTab.tsx:102 | the empty-state message shows iff the listed steps are empty |
| AdminTabs.MoveTargetsInverse | src/components/admin/MachineTypeTab.tsx:91-92 | moving a row up and then down, or down and then up, targets the row it started from; only a one-row list offers neither button |
| AdminTabs.MoveUpSwaps | src/components/admin/MachineTypeTab.tsx:91 | when tab and handlers agree, move-up swaps the step with its predecessor and renumbers |
| AdminTabs.MoveDownSwaps | src/components/admin/MachineTypeTab.tsx:92 | when tab and handlers agree, move-down swaps the step with its successor and renumbers |
| AdminTabs.SelectCompany | src/components/admin/BasicInfoTab.tsx:129-137 | with no form nothing happens; an id not in the list changes nothing |
| AdminTabs.ProductOptions | src/components/admin/BasicInfoTab.tsx:172-178 | when the selected company is not found there are no product options |
| AdminTabs.SelectProduct | src/components/admin/BasicInfoTab.tsx:157-166 | with no form nothing happens; with an unknown company nothing changes |
| AdminTabs.SelectCompanyThenProduct | src/components/admin/BasicInfoTab.tsx:129-178 | choosing a known company sets its id and name and clears the product; the options are then exactly its products, and choosing one of them selects it |
| AdminTabs.UnknownIdsChangeNothing | src/components/admin/BasicInfoTab.tsx:130-161 | an id that is not listed leaves company and product unchanged |
| AdminTabs.ListTextRoundTrip | src/components/admin/BasicInfoTab.tsx:291-308 | re-parsing the `, `-joined keywords or tools gives the list back when items are trimmed, non-empty and comma-free |
| AdminTabs.PendingOverview | src/components/admin/BasicInfoTab.tsx:451-461 | the pending overview uploads are, in order, exactly those with step number `0`, one for each such upload, repeats included |
| AdminTabs.ActiveContributions | src/components/admin/ContributionsTab.tsx:72-76 | the listed contributions are, in order, exactly the active ones, one for each active contribution, repeats included |
| AdminTabs.HeaderCount | src/components/admin/ContributionsTab.tsx:61 | without data the header count is 0 |
| AdminTabs.HeaderCountsAll | src/components/admin/ContributionsTab.tsx:61-76 | the header count is at least the listed count, and equal iff every contribution is active |
| AdminTabs.OriginalIndex | src/components/admin/ContributionsTab.tsx:78 | the merge index is the first position with the same id, or −1 |
| AdminTabs.OriginalIndexOfListed | src/components/admin/ContributionsTab.tsx:78-190 | a listed contribution gets an index at or before its own position, and exactly its position when ids are distinct |
| AdminTabs.LightboxImages | src/components/admin/ContributionsTab.tsx:144-146 | the lightbox shows, in order, exactly the contribution's image files, one for each, repeats included |
| AdminTabs.LightboxStart | src/components/admin/ContributionsTab.tsx:147-149 | the start index is −1 or the position of a file with the clicked path |
| AdminTabs.LightboxOpensOnClicked | src/components/admin/ContributionsTab.tsx:142-152 | clicking an image opens the lightbox at or before it, and exactly on it when paths are distinct |
| NewDrawing.ParseCommaJoined | src/app/admin/drawings/new/page.tsx:573-582 | splitting, trimming and filtering a `,`-joined list of trimmed non-empty comma-free entries gives the list back |
| NewDrawing.ParsedEntries | src/app/admin/drawings/new/page.tsx:573 | every parsed machine entry is trimmed, non-empty and comma-free |
| NewDrawing.CheckboxChange | src/app/admin/drawings/new/page.tsx:572-582 | for a plain machine name, reading the stored text back as a comma list gives the parsed list with the machine appended (ticked) or every copy removed (cleared) |
| NewDrawing.CheckboxShowsChange | src/app/admin/drawings/new/page.tsx:563-582 | after the change the box shows the new state, and every other box keeps its state |
| NewDrawing.CheckboxMachinesAreEntries | src/app/admin/drawings/new/page.tsx:563 | the five checkbox names are valid list entries |
| NewDrawing.CompanyKeyword | src/app/admin/drawings/new/page.tsx:189-198 | at most one non-empty company keyword; a new company contributes its raw name when it has one |
| NewDrawing.Present | src/app/admin/drawings/new/page.tsx:180-187 | a field contributes a keyword iff it is non-empty |
| NewDrawing.AutoKeywordList | src/app/admin/drawings/new/page.tsx:176-204 | no generated keyword is empty |
| NewDrawing.AutoKeywords | src/app/admin/drawings/new/page.tsx:206 | an empty keyword list yields the fixed placeholder |
| NewDrawing.AutoKeywordsShape | src/app/admin/drawings/new/page.tsx:176-206 | the keywords are category, product name, company part, then the machines; the joined text re-parses to the list when the entries are proper list entries |
| NewDrawing.ExistingCompanyUsesShortName | src/app/admin/drawings/new/page.tsx:190-194 | an existing company with an id contributes exactly the found company's non-empty short name, or nothing |
| NewDrawing.ApplyAutoKeywords | src/app/admin/drawings/new/page.tsx:627-638 | the button does nothing unless category, product name and company name are all set, and nothing when the suggestion is the placeholder text; otherwise only the keywords change, to the suggested list joined with `,`, which starts with the category |
| NewDrawing.EnabledSuggests | src/app/admin/drawings/new/page.tsx:627-638 | with the button enabled the suggestion is the joined keyword list and starts with the category |
| NewDrawing.NothingToSuggest | src/app/admin/drawings/new/page.tsx:176-635 | with no category, product, machine or new-company name the apply button changes nothing |
| NewDrawing.AutoTitle | src/app/admin/drawings/new/page.tsx:506-508 | a title is suggested iff category and product name are both set; it starts with the category and ends in 加工手順 |
| NewDrawing.ApplyAutoTitle | src/app/admin/drawings/new/page.tsx:509-516 | with category and product name set the title becomes `category（name）加工手順`; otherwise nothing changes; no field other than the title changes |
| NewDrawing.RemoveDrawing | src/app/admin/drawings/new/page.tsx:257-261 | with one entry nothing is removed; otherwise exactly the entry at the index goes |
| NewDrawing.RemoveKeepsOne | src/app/admin/drawings/new/page.tsx:257-261 | removal never empties the list and removes at most one entry |
| NewDrawing.DrawingErrors | src/app/admin/drawings/new/page.tsx:295-327 | a check is reported iff it fails, in the order the checks are written |
| NewDrawing.DrawingErrorsIff | src/app/admin/drawings/new/page.tsx:295-327 | an entry has no error iff it is registrable, with a new company's id matching ^[a-z0-9-]+$ and unused |
| NewDrawing.ExistingIds | src/app/admin/drawings/new/page.tsx:292 | the existing ids are exactly the non-empty company ids |
| NewDrawing.ValidateFormMembers | src/app/admin/drawings/new/page.tsx:290-331 | an error is reported for entry i iff that entry fails that check |
| NewDrawing.ValidateForm | src/app/admin/drawings/new/page.tsx:290-331 | every error points at an existing drawing row, and errors come drawing by drawing in row order |
| NewDrawing.ValidateFormIff | src/app/admin/drawings/new/page.tsx:290-331 | the form passes iff every entry is registrable |
| NewDrawing.ErrorMessage | src/app/admin/drawings/new/page.tsx:296-326 | each message starts with `図番 i+1: ` |
| DrawingList.SearchRowsSpec | src/app/admin/drawings/list/page.tsx:78-90 | the rows are, in order, exactly the drawings whose number, title or product contains the term case-insensitively and whose company equals the filter, one row per such drawing; empty criteria keep all |
| DrawingList.ExecuteSearch | src/app/admin/drawings/list/page.tsx:66-135 | with no criteria and the confirmation declined nothing changes; otherwise the page goes back to 1 and the rows are, in order, the drawings matching the term and the company, as many as the drawings that pass both filters |
| DrawingList.ExecuteSearchIdempotent | src/app/admin/drawings/list/page.tsx:66-135 | running the same search a second time changes nothing |
| DrawingList.TotalPages | src/app/admin/drawings/list/page.tsx:145 | the page count is ⌈n/50⌉: the least t with n ≤ 50t |
| DrawingList.PageRows | src/app/admin/drawings/list/page.tsx:146-147 | a page holds at most 50 rows: the slice from (page−1)·50 |
| DrawingList.RowOnItsPage | src/app/admin/drawings/list/page.tsx:145-147 | row i appears on page i div 50 + 1, at position i mod 50, and that page exists |
| DrawingList.DisplayedRangeCounts | src/app/admin/drawings/list/page.tsx:324-326 | the displayed range startIndex+1 to min(startIndex+50, n) counts exactly the rows of the page |
| DrawingList.PrevPage | src/app/admin/drawings/list/page.tsx:307 | the previous page is never below 1 |
| DrawingList.NextPage | src/app/admin/drawings/list/page.tsx:314 | the next page is never beyond the last |
| DrawingList.PagingStaysInRange | src/app/admin/drawings/list/page.tsx:303-319 | from a page in range, prev and next stay in range and move by one unless at an end |
| DrawingList.CompanyOptions | src/app/admin/drawings/list/page.tsx:150 | the company list has no duplicates |
| DrawingList.CompanyOptionsMembers | src/app/admin/drawings/list/page.tsx:150 | the company list holds exactly the drawings' company names |
| DrawingList.CompanyOptionsStable | src/app/admin/drawings/list/page.tsx:150 | adding drawings only appends to the company list: first-occurrence order |
| DrawingList.CountsOf | src/app/admin/drawings/list/page.tsx:95-114 | a failed load counts zero; otherwise the total is the number of contributions |
| DrawingList.PendingIgnoresStatus | src/app/admin/drawings/list/page.tsx:102-111 | pending equals the total and merged is 0, even when some contribution is merged |
| SearchBar.MatchScore | src/components/SearchBar.tsx:77-111 | an exact drawing-number match scores at least 100 |
| SearchBar.ScorePositiveIff | src/components/SearchBar.tsx:77-111 | the score is positive iff the number, title, a keyword, the company or the product contains the lower-cased query |
| SearchBar.ExactNumberOutranks | src/components/SearchBar.tsx:81-87 | of two drawings differing only in number, the exact match scores 50 more than the partial one |
| SearchBar.InsertByScore | src/components/SearchBar.tsx:69 | inserting adds exactly the one item |
| SearchBar.InsertKeepsSorted | src/components/SearchBar.tsx:69 | inserting into a list sorted by non-increasing score keeps it sorted |
| SearchBar.SortByScore | src/components/SearchBar.tsx:69 | the sort permutes its input |
| SearchBar.SortByScoreSorted | src/components/SearchBar.tsx:69 | the sort yields non-increasing scores |
| SearchBar.ScoreAll | src/components/SearchBar.tsx:63-67 | each drawing is paired with its own score, in order |
| SearchBar.Top | src/components/SearchBar.tsx:70 | the result keeps min(n, 10) items |
| SearchBar.PerformSearch | src/components/SearchBar.tsx:55-74 | a blank query gives no results, and there are never more than 10 |
| SearchBar.RankedSound | src/components/SearchBar.tsx:62-70 | the results are sorted, come from the index, carry their own score and score above 0 |
| SearchBar.RankedComplete | src/components/SearchBar.tsx:62-70 | a positively scored drawing is missing from the results only when 10 results all score at least as much |
| SearchBar.PerformSearchSound | src/components/SearchBar.tsx:55-111 | the search results are sorted, come from the index, and score above 0 against the lower-cased query |
| SearchBar.PerformSearchComplete | src/components/SearchBar.tsx:55-111 | a matching drawing is left out only when ten results all score at least as much |
| SearchBar.AddToHistory | src/components/SearchBar.tsx:37-46 | a blank term changes nothing; otherwise the term comes first, followed by the earliest of the other entries in their most-recent-first order (a subsequence of the old history without the term), min(10, 1 + number of other entries) in all |
| SearchBar.AddToHistoryTail | src/components/SearchBar.tsx:40-43 | the entries after the term are a prefix of the history with the term removed, hence a subsequence of the history |
| SearchBar.AddToHistoryKeepsAll | src/components/SearchBar.tsx:40-43 | below the cap, no earlier entry is lost |
| SearchBar.AddToHistoryNoDup | src/components/SearchBar.tsx:40-43 | a duplicate-free history stays duplicate-free |
| SearchBar.AddToHistoryIdempotent | src/components/SearchBar.tsx:37-46 | adding the same term twice is the same as once |
| SearchBar.ClearHistory | src/components/SearchBar.tsx:49-52 | clearing empties the history and changes nothing else |
| SearchBar.ClearThenAdd | src/components/SearchBar.tsx:37-52 | after clearing, adding a term leaves exactly that term |
| SearchBar.SelectDrawing | src/components/SearchBar.tsx:128-134 | selecting reports the number, puts it first in the history, clears the query and hides both lists |
| SearchBar.InputChange | src/components/SearchBar.tsx:114-125 | the query is set and the history hidden; a non-empty value searches and shows suggestions; an empty one reports no results |
| SearchBar.Focus | src/components/SearchBar.tsx:145-149 | focusing shows the history iff the query is empty and there is history, and changes nothing else |
| KnowledgeSearch.MatchKeys | src/lib/knowledge-search-v2.ts:101-197 | a dictionary key is listed iff one of its aliases occurs in the lower-cased text |
| KnowledgeSearch.MatchKeysInOrder | src/lib/knowledge-search-v2.ts:101-106 | the listed keys keep the dictionary's order |
| KnowledgeSearch.MatchKeysNoDup | src/lib/knowledge-search-v2.ts:101-106 | a dictionary with distinct keys lists each key at most once |
| KnowledgeSearch.ExtractDrawings | src/lib/knowledge-search-v2.ts:163-168 | the drawings are exactly the upper-cased matches, each once, in the order of their first match |
| KnowledgeSearch.ExtractKeywords | src/lib/knowledge-search-v2.ts:69-216 | showAll iff a show-all pattern occurs and no counting pattern does; a tool or category is listed iff it occurs; the drawings have no duplicates |
| KnowledgeSearch.CountingQuestionIsNotShowAll | src/lib/knowledge-search-v2.ts:79-81 | a text containing a counting pattern such as 何件 is never a show-all request |
| KnowledgeSearch.ToolsAndCategoriesInOrder | src/lib/knowledge-search-v2.ts:149-204 | tools and categories keep the order of their fixed lists |
| KnowledgeSearch.DictionaryKeywords | src/lib/knowledge-search-v2.ts:84-197 | materials, machines, processes, companies and difficulties are duplicate-free and in dictionary order |
| KnowledgeSearch.DictionaryKeysDistinct | src/lib/knowledge-search-v2.ts:84-190 | the five dictionaries have distinct keys |
| KnowledgeSearch.Award | src/lib/knowledge-search-v2.ts:243-306 | a criterion with positive points adds them and records its field; one with none changes nothing |
| KnowledgeSearch.AwardAllGrows | src/lib/knowledge-search-v2.ts:243-306 | awarding only adds points and appends fields, and keeps "points > 0 iff some field" |
| KnowledgeSearch.AwardAllSums | src/lib/knowledge-search-v2.ts:243-306 | the points awarded are the sum of every award's points, and the fields named are exactly the awards that score, in their order |
| KnowledgeSearch.BaseTallySums | src/lib/knowledge-search-v2.ts:223-317 | before the boost the score is the seven fields' points plus the partial matches, and the fields named are those that scored, else 部分一致 alone when only a partial match did |
| KnowledgeSearch.RelevanceScore | src/lib/knowledge-search-v2.ts:223-329 | the matched fields are reported unchanged and the points are boosted by 1.5 from three fields on, by 1.2 for two, and kept for fewer |
| KnowledgeSearch.FieldWeights | src/lib/knowledge-search-v2.ts:229-306 | the drawing number scores 10 when asked for; title fields score 4 per material, 3 per process and 2 per category; 4 per machine and 3 per tool found among the drawing's own; 2 for a matching difficulty |
| KnowledgeSearch.TitlePointsValue | src/lib/knowledge-search-v2.ts:252-281 | a title field scores its weight once per keyword found in the lower-cased title, and nothing when the title is empty |
| KnowledgeSearch.AddPartial | src/lib/knowledge-search-v2.ts:311-319 | the partial matches add their count; 部分一致 is recorded only when no field was recorded before |
| KnowledgeSearch.WordsArePieces | src/lib/knowledge-search-v2.ts:311-312 | the words are exactly the non-empty pieces of splitting at each white-space character, in order, so every run of non-white-space characters is one word; the empty pieces `split(/\s+/)` leaves at the ends are dropped |
| KnowledgeSearch.RunPieces | src/lib/knowledge-search-v2.ts:311-312 | a text starting with a word splits into that word followed by the pieces after it, the first of which is empty |
| KnowledgeSearch.Boost | src/lib/knowledge-search-v2.ts:322-326 | the boost is 1.5 (15 tenths) exactly from three fields on, 1.2 exactly for two fields, and 1.0 for one or none |
| KnowledgeSearch.BoostMonotone | src/lib/knowledge-search-v2.ts:322-326 | more matched fields never give a smaller boost |
| KnowledgeSearch.Scale | src/lib/knowledge-search-v2.ts:322-326 | in tenths, the boosted score is 10 × points without a boost, 12 × points for 1.2 and 15 × points for 1.5; it is positive iff the points are and never below 10 × points |
| KnowledgeSearch.RelevanceScorePositiveIff | src/lib/knowledge-search-v2.ts:223-329 | the final score is positive iff some field matched |
| KnowledgeSearch.DrawingNumberMatchFirst | src/lib/knowledge-search-v2.ts:242-249 | a drawing whose number was asked for scores at least 10 and lists 図番完全一致 first |
| KnowledgeSearch.Supplement | src/lib/knowledge-search-v2.ts:344-356 | history is used only when materials, machines, processes, drawings and categories are all empty, and then only drawings and companies are added from it |
| KnowledgeSearch.SupplementKeepsOwnKeywords | src/lib/knowledge-search-v2.ts:351-354 | supplementing never changes the other keyword lists |
| KnowledgeSearch.PreviousKeywords | src/lib/knowledge-search-v2.ts:350-352 | only the last history entry is consulted, and only when there is one |
| KnowledgeSearch.SearchTerms | src/lib/knowledge-search-v2.ts:379-387 | the search terms are the union of the keyword lists, each once, in the order of their first occurrence across the lists |
| KnowledgeSearch.SearchKnowledgeBase | src/lib/knowledge-search-v2.ts:334-414 | a failed search gives the empty result; otherwise the lists are the ones found, the totals are their lengths, and the search terms are those of the question's keywords supplemented from the history |
| KnowledgeSearch.BlocksNotice | src/lib/knowledge-search-v2.ts:705-778 | the "no data" notice appears iff all three totals are 0, and exactly when the summary does not |
| KnowledgeSearch.BlocksShown | src/lib/knowledge-search-v2.ts:727-770 | at most 5 drawings, 3 companies and 3 contributions are shown, each a prefix of its list; the drawing block appears iff drawings were found |
| KnowledgeSearch.BlockCases | src/lib/knowledge-search-v2.ts:701-781 | each block of the text is the summary, one of the three lists or the notice, built from the results |
| KnowledgeSearch.FormatSearchResults | src/lib/knowledge-search-v2.ts:701-781 | the text starts with the fixed heading; when anything was found the summary heading and the summary lines of the totals and search terms follow; with nothing found and no lists the text is the heading and the notice alone |
| Loaders.LoadSearchIndex | src/lib/searchLoader.ts:6-33 | a failed fetch gives an empty index with count 0 and version "1.0"; a successful one gives the fetched body |
| Loaders.DrawingSearchItem | src/lib/searchLoader.ts:36-43 | no result when the index has no drawing list; otherwise the first drawing with that number, and none exactly when no drawing has it |
| Loaders.FallbackFindsNothing | src/lib/searchLoader.ts:20-43 | after a failed load no drawing number is found |
| Loaders.DrawingFoundByNumber | src/lib/searchLoader.ts:42 | with distinct drawing numbers, each drawing is found by its own number |
| Loaders.LoadCompanies | src/lib/companyLoader.ts:6-27 | the fetched company list, or the empty list when the fetch fails or the body has no list |
| Loaders.CompanyById | src/lib/companyLoader.ts:30-32 | the first company with the id, and none exactly when no company has it |
| Loaders.ProductById | src/lib/companyLoader.ts:35-37 | the first product of the company with the id, and none exactly when no product has it |
| Loaders.CompanyFoundById | src/lib/companyLoader.ts:19-32 | with distinct ids each company is found by its id, and nothing is found after a failed load |
| Troubleshooting.FindNodeByPath | src/app/page.tsx:80-94 | an empty path finds nothing; a found node carries the last id of the path |
| Troubleshooting.FindNodeByPathFirstCommit | src/app/page.tsx:83-92 | the search commits to the first node whose id matches and that either ends the path or has children, and descends only into it |
| Troubleshooting.FindNodeByPathSound | src/app/page.tsx:80-94 | a found node is reached from the roots by following the path id by id through the children |
| Troubleshooting.CurrentNode | src/app/page.tsx:74-78 | nothing without data or below the category; a found node carries the last id of the path |
| Troubleshooting.CurrentOptions | src/app/page.tsx:56-72 | step 0 offers every main category in order followed by "other"; step 1 offers exactly the chosen category's problems, every one of them and nothing else; later steps offer the children of the node the path leads to, and nothing when it leads nowhere; no data offers nothing |
| Troubleshooting.FindById | src/app/page.tsx:107 | the first node of the list with the id, as Array.find returns it, and none exactly when no node has it |
| Troubleshooting.OptionSelect | src/app/page.tsx:96-129 | the choice is always appended to the path; on the problem screen a problem with children moves to step 2 and a childless one with advice shows it; below, a child with advice shows it before one with children moves a step down; shown advice comes with the context of the new path, and otherwise advice and context are kept |
| Troubleshooting.GoBack | src/app/page.tsx:131-136 | at step 0 nothing changes; otherwise the last choice is dropped and the step goes down by one, keeping the advice |
| Troubleshooting.Restart | src/app/page.tsx:138-143 | back to step 0 with an empty path and no advice or context |
| Troubleshooting.SelectThenBack | src/app/page.tsx:96-136 | going back after a choice restores the path, and the step when the choice advanced it |
| Troubleshooting.StaleChoiceHidesChildren | src/app/page.tsx:96-129 | choosing a dead-end problem still appends it, so a later choice with children leads to a path that no node matches and no options are shown |
| Troubleshooting.CorrectedOptionSelect | src/app/page.tsx:96-129 | the corrected selection changes nothing unless the choice leads somewhere, so the path always names the step's node |
| Troubleshooting.CorrectedNavigationInStep | src/app/page.tsx:96-143 | corrected selection, going back and restarting all keep the path in step with the screen |
| Troubleshooting.LocalizeItems | src/components/TroubleshootingResults.tsx:23-27 | every item is localised in place, same number, same order and same details |
| Troubleshooting.LocalizedAdvice | src/components/TroubleshootingResults.tsx:16-29 | the image is kept and the items are present and of the same number exactly when they were |
| Troubleshooting.OriginalsNeverShown | src/components/TroubleshootingResults.tsx:17-27 | since a translation is never empty, the title, text and item texts are always the translations of the problem-id keys |
| Troubleshooting.PathLine | src/components/TroubleshootingResults.tsx:57 | the path is shown joined with arrows: empty for no choice, the choice itself for one, the first choice then an arrow for more |
| Translation.TableText | src/hooks/useTranslation.tsx:8-258 | a table gives a text exactly for the keys of the shared key list |
| Translation.Translate | src/hooks/useTranslation.tsx:271-274 | a missing key translates to itself; a key with a non-empty text translates to that text |
| Translation.TranslatedEverywhere | src/hooks/useTranslation.tsx:8-258 | a key has a Japanese text exactly when it has an English and a Vietnamese one |
| Translation.TranslateNonEmpty | src/hooks/useTranslation.tsx:271-274 | a non-empty key never translates to the empty text |
| Translation.SetLanguage | src/hooks/useTranslation.tsx:268-269 | the language becomes the one chosen |
| Translation.UseTranslation | src/hooks/useTranslation.tsx:283-289 | outside a provider the hook fails with its message; inside it gives the provider's context |
| Translation.SetLanguageTranslates | src/hooks/useTranslation.tsx:260-281 | after choosing a language, keys translate with that language's table, falling back to the key |
| InstructionView.StepCount | src/components/WorkInstructionResults.tsx:23-29 | the machine's own list length when it has one; otherwise the legacy steps count for machining and nothing for other machines |
| InstructionView.CountMatchesTab | src/components/WorkInstructionResults.tsx:23-196 | the count on a tab is the number of steps the tab shows |
| InstructionView.LegacyStepsOnMachiningTab | src/components/WorkInstructionResults.tsx:27-172 | an instruction without per-machine lists shows its steps on the machining tab and nothing on the others |
| InstructionView.ListingFolder | src/components/WorkInstructionResults.tsx:70-76 | for a known machine key the step files are listed from `step_NN_<key>` |
| InstructionView.MediaFolder | src/components/WorkStep.tsx:123-143 | with a machine name the media links use the shared folder helper, without one `step_0<n>` |
| InstructionView.MediaMatchesListing | src/components/WorkStep.tsx:123-143 | the media links of a tab's step point into the folder its files were listed from |
| InstructionView.DownloadFolder | src/components/WorkStep.tsx:57-62 | the download folder begins with `step_0` and ends in a digit |
| InstructionView.DownloadMissesListing | src/components/WorkStep.tsx:57-62 | the download link never points into the folder the programs were listed from, and from step 10 on it misses the legacy folder too |
| InstructionView.DownloadStepTenExample | src/components/WorkStep.tsx:62 | step 10 downloads from `step_010` while its programs were listed from `step_10_machining` |
| InstructionView.CorrectedDownloadFolder | src/components/WorkInstructionResults.tsx:75-76 | the corrected download folder without a machine name is the legacy `step_NN` folder |
| InstructionView.CorrectedDownloadMatchesListing | src/components/WorkInstructionResults.tsx:70-76 | the corrected download folder is the folder the step's files were listed from and its media links use |
| InstructionView.PropertyText | src/components/WorkStep.tsx:16-26 | a property outside the six cutting conditions is shown unchanged |
| InstructionView.PropertyTextIff | src/components/WorkStep.tsx:16-26 | a property gets a label different from its name exactly when it is one of the six cutting conditions |
| InstructionView.PropertyLabelsDistinct | src/components/WorkStep.tsx:17-23 | the six cutting conditions get six different labels |
| InstructionView.LightboxNext | src/components/WorkInstructionResults.tsx:237 | the next image index exists exactly when there are images and stays in range |
| InstructionView.LightboxPrev | src/components/WorkInstructionResults.tsx:238 | the previous image index exists exactly when there are images and stays in range |
| InstructionView.LightboxBackAndForth | src/components/WorkInstructionResults.tsx:237-238 | stepping forward and then back returns to the same image |
| MigrationStatus.UnknownSpec | scripts/check_migration_status.py:71-75 | the unknown drawings keep the order of the full list and are exactly those in none of the three lists |
| MigrationStatus.ElementsCount | scripts/check_migration_status.py:129-131 | a list without duplicates has as many distinct drawings as entries |
| MigrationStatus.TotalsAgreeForPartition | scripts/check_migration_status.py:129-133 | when the three lists are duplicate-free, disjoint and drawn from the full list, the four counts add up to the full count |
| MigrationStatus.DisjointCount | scripts/check_migration_status.py:130 | disjoint groups of drawings count separately |
| MigrationStatus.PartsCover | scripts/check_migration_status.py:71-131 | the three lists and the unknown drawings are pairwise disjoint and together are the full list |
| MigrationStatus.MachineParts | scripts/check_migration_status.py:104-108 | one `machine:count ` part for each machine with steps, in the fixed machine order |
| MigrationStatus.StepsStatus | scripts/check_migration_status.py:102-111 | the status is 作業手順なし exactly when no machine has a step; otherwise it is the `machine:count ` parts of the machines with steps, in the fixed machine order, joined |
| MigrationStatus.OldFolders | scripts/check_migration_status.py:113-119 | the number of old step folders is the sum over the four file kinds |
| MigrationStatus.Status | scripts/check_migration_status.py:124-125 | a drawing without a folder gets フォルダなし |
| MigrationStatus.StatusWithoutInstruction | scripts/check_migration_status.py:95-122 | a folder without instruction.json gets only the old-folder suffix |
| MigrationStatus.StatusParsed | scripts/check_migration_status.py:95-122 | a readable instruction gives the machine status followed by the old-folder suffix |
| MigrationStatus.StatusUnreadable | scripts/check_migration_status.py:98-100 | an instruction.json that cannot be read stops the report with an error for that drawing |
| MigrationStatus.Statuses | scripts/check_migration_status.py:89-127 | one status per unknown drawing in order, and a failure exactly when some drawing's status fails |
| MigrationTargets.MachineEntries | scripts/check_migration_targets.py:50-55 | one entry per machine with steps, in the fixed machine order, with its step count |
| MigrationTargets.MachineEntriesSpec | scripts/check_migration_targets.py:50-55 | every entry has a positive count, every machine with steps has its entry, and there are none exactly when no machine has steps |
| MigrationTargets.MachineSteps | scripts/check_migration_targets.py:57-59 | a non-empty legacy step list adds a last `legacy` entry with its length |
| MigrationTargets.MachineStepsSpec | scripts/check_migration_targets.py:50-62 | all entries are positive and the drawing is skipped exactly when neither any machine nor the legacy list has steps |
| MigrationTargets.FilesIn | scripts/check_migration_targets.py:71-76 | the file count of a kind folder is the sum of the files listed in its counted step folders, so it is zero exactly when each of them is empty and bounds each of them |
| MigrationTargets.DrawingFiles | scripts/check_migration_targets.py:64-76 | a drawing's file count is the sum of its media kinds' counts, zero exactly when each kind counts zero |
| MigrationTargets.Examine | scripts/check_migration_targets.py:36-62 | missing folders and missing instruction files are skipped; the run stops exactly when an instruction file is present but does not parse; a parsed file is skipped exactly when it lists no steps, and otherwise gives its step summary with the drawing's file count |
| MigrationTargets.Analyze | scripts/check_migration_targets.py:33-97 | the run fails exactly when some drawing is unreadable; otherwise the drawings with data are those with files, in order, and the total is the sum of the drawings' file counts |
| MigrationTargets.Targets | scripts/check_migration_targets.py:6-97 | the script fails exactly when some listed drawing's instruction.json is unreadable; otherwise it reports the listed drawings with files, in order, with the sum of their file counts |
| MigrationTargets.TargetsReported | scripts/check_migration_targets.py:6-97 | a drawing is reported exactly when it is a listed target with steps and at least one file in a counted step folder |
| DeleteEmptySteps.SweepFolder | scripts/delete_empty_steps_phase2.py:33-46 | the kept entries are the survivors: everything except the empty step directories that `rmtree` removes; a plain-file step entry and an empty step directory whose removal raises each count as an error and stay; the deleted, warned and error counts match their entries, and kept plus deleted is everything |
| DeleteEmptySteps.SweepFolderKeeps | scripts/delete_empty_steps_phase2.py:34-46 | the kept entries are, in order, the entries that are not removed; a step folder with files and an empty one whose removal fails are always kept |
| DeleteEmptySteps.SweptFolderClean | scripts/delete_empty_steps_phase2.py:33-46 | after a sweep nothing removable is left, and the empty step directories still there are exactly as many as the removals that failed |
| DeleteEmptySteps.SweepWithoutFailures | scripts/delete_empty_steps_phase2.py:33-46 | when every removal succeeds, no empty step directory is left and the only errors are step entries that are plain files |
| DeleteEmptySteps.CleanFolderUnchanged | scripts/delete_empty_steps_phase2.py:33-46 | a folder with nothing removable is left as it is |
| DeleteEmptySteps.FolderCleanIff | scripts/delete_empty_steps_phase2.py:38-46 | a folder is clean exactly when every empty step directory in it is one whose removal fails |
| DeleteEmptySteps.SweepKind | scripts/delete_empty_steps_phase2.py:30-46 | the swept kind folder becomes its surviving entries in listing order (absent folders and plain files are left alone), the tally counts its removed, non-empty and failing step entries (plain files and failed removals), it ends clean, and nothing else changes |
| DeleteEmptySteps.SweptChildTwice | scripts/delete_empty_steps_phase2.py:33-46 | sweeping a folder a second time changes nothing |
| DeleteEmptySteps.KindsCleanFrame | scripts/delete_empty_steps_phase2.py:30-46 | cleaning one kind keeps the other kinds clean |
| DeleteEmptySteps.SweepKinds | scripts/delete_empty_steps_phase2.py:30-46 | each listed kind folder becomes its swept self and every other entry is untouched; all listed kinds end clean (an empty step directory is left only where its removal failed), a clean drawing is left as it is, and for distinct kinds the tally adds up the tallies of the folders as they were, failed removals among the errors |
| DeleteEmptySteps.SweepDrawing | scripts/delete_empty_steps_phase2.py:21-52 | a missing drawing is reported and skipped; otherwise it is reported as swept, its media folders become their swept selves with its tally, and no other drawing folder changes |
| DeleteEmptySteps.SweepDrawingCleans | scripts/delete_empty_steps_phase2.py:21-52 | the swept drawing ends clean, and a drawing that was already clean is left as it was with nothing deleted |
| DeleteEmptySteps.DrawingsCleanFrame | scripts/delete_empty_steps_phase2.py:21-52 | sweeping one drawing keeps the other drawings clean |
| DeleteEmptySteps.Run | scripts/delete_empty_steps_phase2.py:19-55 | one report per listed drawing in order, skipped exactly when its folder is missing; every listed drawing has its media folders swept (a drawing listed twice is swept once in effect) and unlisted drawings are untouched; with distinct drawings and kinds each report's tally counts the drawing's original folders |
| DeleteEmptySteps.RunCleans | scripts/delete_empty_steps_phase2.py:19-55 | after the run every listed drawing is clean |
| DeleteEmptySteps.RunOnCleanTree | scripts/delete_empty_steps_phase2.py:19-55 | a run over clean drawings changes nothing and deletes nothing |
| DeleteEmptySteps.SweepFolderRule | scripts/delete_empty_steps_phase2.py:33-46 | an entry is removed exactly when it is an empty `step_` folder whose path does not contain `overview` and `rmtree` succeeds on it |
| DeleteEmptySteps.SecondRunDeletesNothing | scripts/delete_empty_steps_phase2.py:5-55 | with the same removal outcomes, running the script a second time changes nothing and deletes nothing |
| DeleteEmptySteps.Phase2 | scripts/delete_empty_steps_phase2.py:19-55 | one report per listed drawing; every listed drawing ends clean, an empty step directory staying only where its removal failed; folders of other drawings are untouched |
| DeleteEmptySteps.Phase2WithoutFailures | scripts/delete_empty_steps_phase2.py:19-55 | when every removal succeeds, no media folder of a listed drawing keeps an empty step directory |
| MaskData.UserNameHidesSystemNames | scripts/mask-data.js:128-138 | after the first user-name entry (田中 becomes 佐藤太郎) neither system name occurs in the text |
| MaskData.SystemNameAfterUserName | scripts/mask-data.js:104-138 | the system name 田中工業AI comes out of the user-name table as 佐藤太郎工業AI |
| MaskData.SystemNamesReplacedFirst | scripts/mask-data.js:104-119 | with the system-name table first, 田中工業AI becomes サンプル工業AI and no system name is left |
| MaskData.MaskString | scripts/mask-data.js:128-138 | after the five tables no system name is left in a masked string |
| MaskData.MaskValue | scripts/mask-data.js:127-161 | a string goes through the string masking, arrays are masked element by element and objects entry by entry with their keys in order, other values are kept |
| MaskData.MaskKeepsShape | scripts/mask-data.js:127-161 | masking changes strings only: value kinds, array lengths and object keys in order stay as they were |
| MaskData.MaskCleanUnchanged | scripts/mask-data.js:127-161 | a document in which nothing matches comes out unchanged |
| MaskData.MaskObjectEntries | scripts/mask-data.js:145-157 | an excluded key keeps its value, and a string `id` is masked with the company-id table alone |
| Replace.ReplaceAllAbsent | scripts/mask-data.js:112-119 | a global replacement changes nothing when the pattern does not occur |
| Replace.ReplaceAllSelf | doc/demo-version/mask-company-names.js:60-67 | replacing a pattern by itself changes nothing |
| Replace.ReplaceAllRemoves | scripts/mask-data.js:115-116 | after a global replacement whose text cannot begin or complete the pattern, the pattern no longer occurs |
| Replace.ReplaceAllKeepsAbsent | doc/demo-version/rename-products-for-tv.js:41-48 | a pattern absent from the text, whose characters the replacement text lacks, is still absent after a global replacement |
| Replace.ReplaceFirstAbsent | doc/demo-version/mask-category-and-drawing.js:188-196 | replacing the first occurrence changes nothing when there is none |
| Replace.ReplaceFirstSplice | doc/demo-version/mask-category-and-drawing.js:179-183 | replacing the first occurrence splices the replacement over the leftmost match and keeps the rest |
| Replace.ApplyMappingsAppend | scripts/mask-data.js:112-119 | masking with two tables in a row is masking with their concatenation |
| Replace.ApplyMappingsKeep | scripts/mask-data.js:112-119 | a table none of whose entries changes the text leaves it unchanged |
| Replace.ApplyMappingAbsent | scripts/mask-data.js:115-116 | an entry whose original does not occur changes nothing |
| Replace.ForeignCharAbsent | scripts/mask-data.js:115-116 | a pattern with a character the text lacks does not occur in it |
| Replace.LongPatternAbsent | scripts/mask-data.js:115-116 | a pattern longer than the text does not occur in it |
| Replace.EscapeRegExp | scripts/mask-data.js:122-124 | escaping never shortens a text and leaves a text without special characters as it is |
| Replace.UnescapeEscape | scripts/mask-data.js:122-124 | the escaped pattern denotes exactly the original text |
| MaskUiText.ThirdEntryInert | scripts/mask-ui-text.js:5-19 | the third table entry never matches, because the second has already replaced the company name inside it |
| MaskUiText.BasenameAfterSlash | scripts/mask-ui-text.js:47 | the base name of `dir/name` is `name` |
| MaskUiText.Lookup | scripts/mask-ui-text.js:80-82 | a backup name is found exactly when the folder lists it, and what is found is the content of the first entry of that name |
| MaskUiText.PutSpec | scripts/mask-ui-text.js:47-48 | after a copy the backup holds the new content under that name and every other name reads as before |
| MaskUiText.MaskFiles | scripts/mask-ui-text.js:35-39 | the backup folder exists after masking |
| MaskUiText.MaskFilesFromNone | scripts/mask-ui-text.js:35-39 | a missing backup folder behaves as an empty one |
| MaskUiText.MaskFilesContent | scripts/mask-ui-text.js:41-63 | each listed file that exists is masked, other files are untouched and none is created |
| MaskUiText.RestoreFromSnoc | scripts/mask-ui-text.js:80-100 | restoring copies the backups in listing order: the last backup is copied after all the others, over what they produced, so its content ends up at its target |
| MaskUiText.MaskUi | scripts/mask-ui-text.js:26-67 | the masking command rewrites exactly the three listed files that exist, with the UI table, leaves every other file as it was and leaves a backup folder |
| MaskUiText.BasenameBackupsCollide | scripts/mask-ui-text.js:27-92 | the two `page.tsx` backups share a name, so restoring puts the top page's text into the chat page and leaves the top page masked |
| MaskUiText.BackupsOverwrite | scripts/mask-ui-text.js:41-63 | when two files share a backup key, the later copy overwrites the earlier one in place |
| MaskUiText.RestoreTwo | scripts/mask-ui-text.js:80-100 | restoring copies the backups in listing order, each to its own target |
| MaskUiText.Restore | scripts/mask-ui-text.js:70-100 | without a backup folder nothing changes; otherwise no file disappears and the last backup listed ends up at its target |
| MaskUiText.ByPathRestores | scripts/mask-ui-text.js:26-100 | with backups keyed by full path, restoring after masking gives back the files as before |
| MaskUiText.ByPathRoundTrip | scripts/mask-ui-text.js:26-100 | with backups keyed by full path, masking and then restoring returns every file to its original text |
| DemoText.IdsThenNamesIsOneTable | doc/demo-version/mask-company-names.js:69-78 | the id pass followed by the name pass is one pass over the ids and then the names |
| DemoText.MaskTextNoOriginal | doc/demo-version/mask-company-names.js:60-67 | a text containing no original of the table is left unchanged |
| DemoText.LongerFormFirst | doc/demo-version/mask-company-names.js:30-49 | with the longer form listed first, the longer name becomes its own target and the shorter entry does not touch it again |
| DemoText.TvIdsAbsent | doc/demo-version/rename-for-tv.js:21-24 | a text without the letter d is untouched by the id table |
| DemoText.TechLongForm | doc/demo-version/rename-for-tv.js:27-32 | 株式会社デモテックG becomes テレ東(株) |
| DemoText.TechShortForm | doc/demo-version/rename-for-tv.js:27-32 | デモテックG becomes テレ東(株) |
| DemoText.TvTokyoFinal | doc/demo-version/rename-for-tv.js:27-32 | the new name contains no old name and the later entries leave it alone |
| DemoText.WbsFinal | doc/demo-version/rename-for-tv.js:30-31 | the second new name does not contain its old name |
| DemoText.SystemLongForm | doc/demo-version/rename-for-tv.js:27-32 | 株式会社デモシステムJ becomes ワールドビジネスサテライト(株) |
| DemoText.SystemShortForm | doc/demo-version/rename-for-tv.js:27-32 | デモシステムJ becomes ワールドビジネスサテライト(株) |
| DemoText.Run | doc/demo-version/rename-for-tv.js:52-140 | the success, failure and changed counts count readable, failing and changed files; every write is a masked readable candidate, and only changed files are written unless every file is written back |
| DemoText.DrawingFiles | doc/demo-version/mask-company-names.js:125-136 | two files per drawing folder, its instruction and its contributions |
| DemoText.DirNames | doc/demo-version/mask-company-names.js:121-123 | the directory entries of the listing, and only those |
| DemoText.Candidates | doc/demo-version/mask-company-names.js:103-137 | companies.json and search-index.json first, then the instruction and contributions of each drawing folder |
| DemoText.CompanyRun | doc/demo-version/mask-company-names.js:69-137 | the success and failure counts count readable and unreadable candidates; every readable candidate, and nothing else, is written back with its ids and names masked |
| DemoText.TvRun | doc/demo-version/rename-for-tv.js:52-137 | the success and failure counts count readable and unreadable candidates; exactly the readable candidates whose text the renaming changes are written back, renamed |
| DemoText.RunWritesIff | doc/demo-version/rename-for-tv.js:52-70 | a run writes something exactly when a file is readable (always-write mode) or changes (write-if-changed mode) |
| DemoText.CompanyRunWritesIff | doc/demo-version/mask-company-names.js:69-86 | the company masking writes something exactly when some candidate is readable |
| DemoText.TvRunWritesIff | doc/demo-version/rename-for-tv.js:52-70 | the television renaming writes something exactly when it counts a changed file |
| RenameProducts.RenameProduct | doc/demo-version/rename-products-for-tv.js:62-70 | the product's name, category and description become their renamed texts and its drawings are kept |
| RenameProducts.RenameText | doc/demo-version/rename-products-for-tv.js:41-48 | the two replacements run in order: neither レール nor フレーム is left, and a text mentioning neither is returned unchanged |
| RenameProducts.RenameProducts | doc/demo-version/rename-products-for-tv.js:62-77 | the products are renamed one by one, and the step fails exactly when some product lacks a text |
| RenameProducts.RenameCompanies | doc/demo-version/rename-products-for-tv.js:60-79 | ids and order are kept, non-target companies are copied, a target company's products become its renamed products with nothing else changed, and the step fails exactly when a target product lacks a text |
| RenameProducts.ProcessCompanies | doc/demo-version/rename-products-for-tv.js:53-92 | the list written is the renamed company list; companies.json is marked changed exactly when the renaming changed it, and fails exactly when the renaming throws |
| RenameProducts.RenameEntries | doc/demo-version/rename-products-for-tv.js:104-121 | numbers and display numbers are kept, entries of other drawings are copied, a target entry's product name, title and category become their renamed texts, and the step fails exactly when a target entry lacks one of them |
| RenameProducts.ProcessIndex | doc/demo-version/rename-products-for-tv.js:97-134 | the entries written are the renamed entries; search-index.json is marked changed exactly when the renaming changed it, and fails exactly when the renaming throws |
| RenameProducts.RenameField | doc/demo-version/rename-products-for-tv.js:160-177 | a non-empty field becomes its renamed text, an empty or missing field is left alone, so a field exists afterwards exactly when it did before |
| RenameProducts.EditInstruction | doc/demo-version/rename-products-for-tv.js:159-185 | only the title and the overview description are renamed, and the file is written exactly when one of them changed |
| RenameProducts.ProcessInstructions | doc/demo-version/rename-products-for-tv.js:139-196 | nothing happens without the directory; otherwise each target drawing's instruction file becomes its edited self, every other file is untouched, and the parsed and written counts are the numbers of target files that parse and that change |
| RenameProducts.RenameProductsForTv | doc/demo-version/rename-products-for-tv.js:202-238 | the total is one for companies.json when the renaming changed it, one for search-index.json likewise, plus the number of target instruction files the edit changes |
| RenameProducts.TotalChangedBound | doc/demo-version/rename-products-for-tv.js:19-231 | a run writes at most six files: the two indexes and the four target instructions |
| RenameProducts.RunRemovesOldNames | doc/demo-version/rename-products-for-tv.js:202-231 | when the company step succeeds, every product of a television company has its name, category and description present and free of レール and フレーム; when the index step succeeds, every target entry has its three fields present and free of both names and every other entry is unchanged |
| MaskCategory.CategoryLabel | doc/demo-version/mask-category-and-drawing.js:21-76 | every category label is one of the 36 generic categories |
| MaskCategory.DrawingLabelInjective | doc/demo-version/mask-category-and-drawing.js:94 | different positions get different `DRW-NNN` labels |
| MaskCategory.CategoriesOf | doc/demo-version/mask-category-and-drawing.js:74-79 | the categories collected are exactly the truthy categories of the products |
| MaskCategory.CategoriesOfAppend | doc/demo-version/mask-category-and-drawing.js:74-79 | the categories of two runs of products are those of the first followed by those of the second, so the traversal order is fixed |
| MaskCategory.CategoriesOfOne | doc/demo-version/mask-category-and-drawing.js:75 | one product contributes its category when it is truthy and nothing otherwise |
| MaskCategory.CategoryMappingSpec | doc/demo-version/mask-category-and-drawing.js:63-80 | the mapping covers exactly the categories of companies that are not skipped, and the i-th distinct one gets generic category i modulo 36 |
| MaskCategory.DrawingMappingSpec | doc/demo-version/mask-category-and-drawing.js:83-99 | the mapping covers exactly the drawings of companies that are not skipped, the i-th distinct one gets `DRW-` and i+1 on three digits, and no two share a label |
| MaskCategory.MaskCompanies | doc/demo-version/mask-category-and-drawing.js:102-116 | skipped companies are untouched; in the others every product keeps all its fields but the category, which becomes the table's entry for the old category when it has one and stays as it was otherwise |
| MaskCategory.MaskedCategoriesGeneric | doc/demo-version/mask-category-and-drawing.js:106-115 | with the table built from the same companies, every truthy category of a company not skipped is in the table and becomes its entry, which is a generic category; empty ones stay as they were |
| MaskCategory.MaskEntry | doc/demo-version/mask-category-and-drawing.js:125-138 | a skipped drawing is untouched; otherwise number, product and title are kept, the category becomes its table entry when it has one, and a mapped drawing gets its display number |
| MaskCategory.MaskIndex | doc/demo-version/mask-category-and-drawing.js:119-139 | entries of skipped drawings are untouched; every other entry keeps all fields but category and display, its category becomes its table entry, and its display becomes the drawing's display number when the drawing is mapped |
| MaskCategory.MaskIndexSkips | doc/demo-version/mask-category-and-drawing.js:50-138 | entries of skipped companies' drawings are untouched, and other mapped drawings get their display number |
| MaskCategory.EditedFolders | doc/demo-version/mask-category-and-drawing.js:147-153 | the folders visited are exactly the `drawing-` folders whose number is not skipped |
| MaskCategory.EditInstruction | doc/demo-version/mask-category-and-drawing.js:157-205 | the edit throws exactly when a mapped drawing has no metadata; a file with metadata is written exactly when its drawing is mapped or its category is in the table (even if the entry equals the old category); the written category is the table's entry, and without a mapped drawing nothing else changes |
| MaskCategory.EditTitleFirstOccurrence | doc/demo-version/mask-category-and-drawing.js:169-196 | a mapped drawing gets its display number and only the first occurrence of the number in its title is replaced |
| MaskCategory.EditDescriptionFirstOccurrence | doc/demo-version/mask-category-and-drawing.js:175-186 | only the first occurrence of the number in the overview description is replaced |
| MaskCategory.ReplaceNumberSplice | doc/demo-version/mask-category-and-drawing.js:179-183 | the display number is spliced over the leftmost occurrence of the drawing number |
| MaskCategory.ReplaceNumberAbsent | doc/demo-version/mask-category-and-drawing.js:176-179 | a field without the number, or empty, is left alone |
| MaskCategory.MaskInstructions | doc/demo-version/mask-category-and-drawing.js:142-208 | without a directory nothing happens; no file appears or disappears and files outside the edited folders are untouched; for a listing without repeats each edited folder's file ends as its edit made it, and the parsed and written counts are the numbers of edited folders whose file parses and whose edit writes |
| MaskCategory.VisitedCategory | doc/demo-version/mask-category-and-drawing.js:163-167 | a visited file with metadata keeps it, and its category becomes the table's entry for the old one whether or not the file is written |
| MaskCategory.MaskInstructionsCategory | doc/demo-version/mask-category-and-drawing.js:146-167 | after the pass every edited file with metadata carries the table's entry for its old category |
| MaskCategory.MaskCategoryAndDrawing | doc/demo-version/mask-category-and-drawing.js:100-208 | the script masks the categories of companies.json and search-index.json with the table built from companies.json, skipping the television companies and their drawings, and keeps the set of instruction files |
| MaskCategory.MaskedConsistently | doc/demo-version/mask-category-and-drawing.js:102-167 | a category shared by a product, an index entry and an edited instruction file ends as one and the same generic category in all three files |
| MaskProducts.PartLabel | doc/demo-version/mask-product-names.js:20-74 | every product label is one of the 80 generic part names |
| MaskProducts.NamesOf | doc/demo-version/mask-product-names.js:72-77 | the names collected are exactly the truthy product names |
| MaskProducts.NamesOfAppend | doc/demo-version/mask-product-names.js:72-77 | the names of two runs of products are those of the first followed by those of the second |
| MaskProducts.NamesOfOne | doc/demo-version/mask-product-names.js:73 | one product contributes its name when it is truthy and nothing otherwise |
| MaskProducts.NameMappingSpec | doc/demo-version/mask-product-names.js:61-78 | the mapping covers exactly the product names of companies that are not skipped, the i-th distinct one gets generic part i modulo 80, and every value is a generic part |
| MaskProducts.MaskCompanies | doc/demo-version/mask-product-names.js:85-96 | skipped companies are untouched; categories and drawings are kept; in the others each name and description becomes its table entry when it has one and stays as it was otherwise |
| MaskProducts.MaskedNamesGeneric | doc/demo-version/mask-product-names.js:85-91 | after the update every truthy product name of a company that is not skipped is a generic part |
| MaskProducts.MaskEntry | doc/demo-version/mask-product-names.js:123-129 | a skipped drawing is untouched; otherwise only the product name changes, through the mapping |
| MaskProducts.EntryFolders | doc/demo-version/mask-product-names.js:123-133 | the instruction folders visited are exactly those of the index entries that are not skipped |
| MaskProducts.EntryFoldersAppend | doc/demo-version/mask-product-names.js:123-133 | the folders visited for two runs of entries are those of the first followed by those of the second, repeats kept |
| MaskProducts.EntryFoldersOne | doc/demo-version/mask-product-names.js:123-131 | one entry contributes its folder unless its drawing is skipped |
| MaskProducts.EditProductName | doc/demo-version/mask-product-names.js:136-147 | an instruction changes exactly when its product name is mapped, and then only that name changes |
| MaskProducts.MaskProductNames | doc/demo-version/mask-product-names.js:52-167 | companies.json gets every name and description of a company not skipped replaced through the table; search-index.json keeps skipped entries and otherwise changes only the product name, through the table; no instruction file appears or disappears, and when no drawing is visited twice each visited file ends as its edit made it and the written count is the number of visited files whose product name is in the table |
| MaskProducts.MaskedNamesConsistently | doc/demo-version/mask-product-names.js:85-147 | a product name shared by a product, an index entry and a visited instruction file ends as one and the same generic part in all three files, and nothing else in the instruction changes |
| MaskProducts.SkippedFilesUntouched | doc/demo-version/mask-product-names.js:108-133 | an instruction reached only through skipped drawings is untouched |
| MaskNames.FromCharCode | doc/demo-version/mask-all-names.js:125-127 | below the surrogate range the character has the given code |
| MaskNames.LabelLetters | doc/demo-version/mask-all-names.js:124-129 | the first 702 labels are one or two capital letters |
| MaskNames.LabelInjective | doc/demo-version/mask-all-names.js:124-129 | different positions get different labels |
| MaskNames.Gather | doc/demo-version/mask-all-names.js:41-103 | the names gathered are exactly those named by some element |
| MaskNames.GatherAppend | doc/demo-version/mask-all-names.js:41-103 | gathering over two runs gives the first run's names followed by the second's |
| MaskNames.GatherOne | doc/demo-version/mask-all-names.js:41-103 | one element contributes its own names in their order |
| MaskNames.NameIf | doc/demo-version/mask-all-names.js:42-102 | a field contributes its name exactly when it is truthy and kept |
| MaskNames.NamesToMask | doc/demo-version/mask-all-names.js:116 | the names to mask are the collected names that are not masked yet, each once, in the order of their first appearance among the collected names |
| MaskNames.NameMappingSpec | doc/demo-version/mask-all-names.js:121-130 | the mapping covers exactly the names, and the i-th name gets label i |
| MaskNames.MaskedLabelInjective | doc/demo-version/mask-all-names.js:128 | different positions get different masked names |
| MaskNames.NameMappingInjective | doc/demo-version/mask-all-names.js:121-130 | different names get different masked names |
| MaskNames.MaskedLabelMasked | doc/demo-version/mask-all-names.js:116-128 | every masked name begins with 作業者 |
| MaskNames.NameMappingCovers | doc/demo-version/mask-all-names.js:116-130 | the mapping is a masking table and maps every collected name that is not masked yet |
| MaskNames.MapFieldMasking | doc/demo-version/mask-all-names.js:180-212 | a field changes exactly when the mapping hits it, and mapping twice is mapping once |
| MaskNames.MaskUser | doc/demo-version/mask-all-names.js:148-167 | the admin is skipped; for any other user the name and display name become their table entries when they have one, the flag is set exactly when the name, display name or id is in the table, and a hit id becomes `user_` and its label with the demo password; an id that is not hit and the password are kept |
| MaskNames.MaskUsers | doc/demo-version/mask-all-names.js:145-174 | each user is masked in place, and the file is written exactly when some user changed |
| MaskNames.MaskAuthors | doc/demo-version/mask-all-names.js:177-198 | the author and each step author are mapped, and the file is written exactly when one was hit |
| MaskNames.MaskContributions | doc/demo-version/mask-all-names.js:201-221 | each contribution is mapped, and the file is written exactly when a user name or id was hit |
| MaskNames.MaskDir | doc/demo-version/mask-all-names.js:177-221 | a drawing folder's files are masked and kept present, and the write count is the number of its two files that name a user or author in the table |
| MaskNames.MaskDirs | doc/demo-version/mask-all-names.js:177-221 | each folder is masked in order, with at most two writes per folder |
| MaskNames.MaskDirsWrites | doc/demo-version/mask-all-names.js:177-221 | the folders' write count is the sum of the files each folder writes |
| MaskNames.MaskAllNames | doc/demo-version/mask-all-names.js:18-228 | the script crashes exactly when passwords.json does not parse or the directory cannot be listed; otherwise, under the table built from the data, each user and each folder is masked on its own and the updated count is one for passwords.json when some non-admin user is hit plus the files each folder writes |
| MaskNames.MapFieldClean | doc/demo-version/mask-all-names.js:180-212 | with a covering table a kept field comes out masked or empty |
| MaskNames.UserClean | doc/demo-version/mask-all-names.js:148-167 | with a covering table a user comes out with no unmasked name |
| MaskNames.AuthorsClean | doc/demo-version/mask-all-names.js:177-198 | with a covering table no unmasked author is left in an instruction |
| MaskNames.ContributionsClean | doc/demo-version/mask-all-names.js:201-221 | with a covering table no unmasked user name or id is left in the contributions |
| MaskNames.DirClean | doc/demo-version/mask-all-names.js:177-221 | with a covering table a drawing folder comes out with no unmasked name |
| MaskNames.MaskAllNamesClean | doc/demo-version/mask-all-names.js:18-228 | after a run no folder and no user holds an unmasked name |
| MaskNames.MaskAllNamesKeepsAdmin | doc/demo-version/mask-all-names.js:149 | the admin user is left exactly as it was |
| MaskNames.MaskedNamesNotRemapped | doc/demo-version/mask-all-names.js:116 | a name already beginning with 作業者 is never given a new label |
| MaskNames.MaskedUserIdLetters | doc/demo-version/mask-all-names.js:159-165 | a mapped user id becomes `user_` and its label in lower case, with the demo password |
| MaskNames.LowerLabelInjective | doc/demo-version/mask-all-names.js:162-163 | different labels stay different in lower case |
| MaskNames.MaskedUserIdsDistinct | doc/demo-version/mask-all-names.js:159-165 | two users with different mapped ids get different new ids |
| MaskNames.MaskAuthorsWrittenIffChanged | doc/demo-version/mask-all-names.js:177-198 | an instruction is written exactly when it changed, and masking it again changes nothing |
| MaskNames.MaskContributionsWrittenIffChanged | doc/demo-version/mask-all-names.js:201-221 | a contributions file is written exactly when it changed, and masking it again changes nothing |
| MaskUserNames.UserNamesOf | doc/demo-version/mask-user-names.js:27-54 | the collected names are the user names and ids of all contributions, each once, in the order of their first appearance |
| MaskUserNames.AsWrittenLabelPastZ | doc/demo-version/mask-user-names.js:62-68 | the 27th label is 作業者[, whose last character is not a letter |
| MaskUserNames.AsWrittenTableLabelsBracket | doc/demo-version/mask-user-names.js:62-68 | with more than 26 contributors the 27th is labelled 作業者[ |
| MaskUserNames.MaskedLabelLetters | doc/demo-version/mask-all-names.js:124-129 | the first 702 corrected labels are 作業者 and one or two capital letters |
| MaskUserNames.UserTableLetters | doc/demo-version/mask-all-names.js:121-130 | with the corrected labels every contributor is mapped, to 作業者 and one or two capital letters |
| MaskUserNames.UserTableInjective | doc/demo-version/mask-all-names.js:121-130 | with the corrected labels different contributors get different labels |
| MaskUserNames.MaskFiles | doc/demo-version/mask-user-names.js:81-101 | each parsed file's contributions are masked in place, files that do not parse are kept, and the written count is the number of parsed files that name a user or id in the table |
| MaskUserNames.MaskUserNamesRun | doc/demo-version/mask-user-names.js:16-108 | with the label of the i-th name as a parameter, the run stops exactly when the directory cannot be listed; otherwise each parsed file is masked with the table numbering the collected names by that label, and the written count is the number of files naming a collected user |
| MaskUserNames.MaskUserNamesRunMasksAll | doc/demo-version/mask-user-names.js:81-101 | after the run, with the script's labels as with the corrected ones, every non-empty user name and id begins with 作業者 |
| MaskUserNames.AsWrittenRunWritesBracket | doc/demo-version/mask-user-names.js:62-101 | the script's run writes 作業者[ as the user name of every contribution by the 27th distinct contributor |
| MaskUserNames.UserNamesNonEmpty | doc/demo-version/mask-user-names.js:33-45 | only non-empty user names and ids are collected |
| DisplayNumbers.SetDisplay | doc/demo-version/add-display-drawing-number.js:53-58 | an instruction is written exactly when it has metadata, and then gets the display number and nothing else |
| DisplayNumbers.SetIndex | doc/demo-version/add-display-drawing-number.js:77-83 | each entry of a fixed drawing gets its fixed display number, others are kept, and the index is written exactly when some entry is fixed |
| DisplayNumbers.AddFixedDisplay | doc/demo-version/add-display-drawing-number.js:39-93 | a missing or unreadable index is neither read nor written, otherwise it becomes the fixed-number update of the index; only the four fixed drawings' instructions can change, the instructions written are the fixed folders whose file has metadata, and the count adds the index when written |
| DisplayNumbers.FixedWrites | doc/demo-version/add-display-drawing-number.js:44-61 | the fixed pass writes exactly the fixed folders whose parsed file has metadata |
| DisplayNumbers.FixedDisplaySet | doc/demo-version/add-display-drawing-number.js:15-58 | a fixed drawing's instruction with metadata ends with its fixed display number |
| DisplayNumbers.Targets | doc/demo-version/add-display-drawing-all.js:46-48 | the drawings to number are, in index order and with repeats, exactly the index entries whose drawing has no fixed number |
| DisplayNumbers.NewMappings | doc/demo-version/add-display-drawing-all.js:54-59 | the new mapping covers exactly the target drawings, and the last target gets the label of its position |
| DisplayNumbers.NewMappingsDistinct | doc/demo-version/add-display-drawing-all.js:54-59 | with distinct numbers the i-th target gets `DRW-` and i+1 on three digits |
| DisplayNumbers.NewMappingsSpec | doc/demo-version/add-display-drawing-all.js:45-59 | the new mapping covers exactly the index drawings outside the four fixed ones |
| DisplayNumbers.FillIndex | doc/demo-version/add-display-drawing-all.js:72-85 | only display numbers change; an entry that has one keeps it, a mapped one without it gets its label, and the index is written exactly when some entry was filled |
| DisplayNumbers.FillDisplay | doc/demo-version/add-display-drawing-all.js:98-103 | an instruction is written exactly when it has metadata without a display number, and then only that number is set |
| DisplayNumbers.AddDisplayAll | doc/demo-version/add-display-drawing-all.js:26-115 | without the index nothing happens; otherwise the index is filled from the new table, each numbered folder's file ends as its fill made it, the instructions written are the numbered folders whose file has metadata without a display number, and the count adds the index when written; no file appears or disappears |
| DisplayNumbers.NumberedWrites | doc/demo-version/add-display-drawing-all.js:90-110 | the folders visited are distinct drawings of the new table, and the pass writes exactly those whose file has metadata without a display number |
| DisplayNumbers.AddDisplayAllKeepsNumbers | doc/demo-version/add-display-drawing-all.js:75-98 | an instruction that already has a display number is never overwritten |
| RenameFiles.DisplayMap | doc/demo-version/rename-files-for-masking.js:36-42 | the map covers exactly the drawings with a truthy display number |
| RenameFiles.DisplayMapLastWins | doc/demo-version/rename-files-for-masking.js:38-41 | for a repeated drawing the last truthy display number wins |
| RenameFiles.DisplayMapNonEmpty | doc/demo-version/rename-files-for-masking.js:39-40 | every display number in the map is non-empty |
| RenameFiles.MapKeys | doc/demo-version/rename-files-for-masking.js:53 | the keys of the map, each once |
| RenameFiles.InsertByLength | doc/demo-version/rename-files-for-masking.js:53 | inserting into a longest-first list keeps it longest-first and adds exactly the new element |
| RenameFiles.SortByLength | doc/demo-version/rename-files-for-masking.js:53 | the sorted numbers are longest first and a permutation of the input |
| RenameFiles.SortByLengthSame | doc/demo-version/rename-files-for-masking.js:53 | sorting distinct numbers keeps exactly those numbers, each once |
| RenameFiles.InsertEverywhere | doc/demo-version/rename-files-for-masking.js:94 | an empty pattern puts the replacement before every character of the name, in order, and once more at the end |
| RenameFiles.InterleavesCons | doc/demo-version/rename-files-for-masking.js:94 | putting one more character in front of an interleaved name keeps the replacement before every character and at the end |
| RenameFiles.NewNameLosesNumber | doc/demo-version/rename-files-for-masking.js:92-95 | when the display number shares no character with the drawing number, the new name no longer contains the drawing number |
| RenameFiles.RenameOne | doc/demo-version/rename-files-for-masking.js:84-107 | a file without the number is skipped; otherwise exactly one rename or one error: the rename succeeds exactly when the file system allows it and the new name is not a directory, moving the entry to its new name, and a failure records the file's name and changes nothing |
| RenameFiles.RenameListed | doc/demo-version/rename-files-for-masking.js:82-108 | no more renames and errors than listed files |
| RenameFiles.RenameListedCount | doc/demo-version/rename-files-for-masking.js:82-108 | renames plus errors equal the listed files that contain the number |
| RenameFiles.RenameListedKeeps | doc/demo-version/rename-files-for-masking.js:84-107 | a file without the number that no rename lands on is kept as it was |
| RenameFiles.RenameSub | doc/demo-version/rename-files-for-masking.js:74-109 | a subfolder that is not a directory is skipped; otherwise only its entries change and every file containing the number is renamed or reported |
| RenameFiles.RenameListedClears | doc/demo-version/rename-files-for-masking.js:84-107 | when no rename fails and the display number shares no character with the number, no file name keeps the number |
| RenameFiles.RenameSubCount | doc/demo-version/rename-files-for-masking.js:74-109 | in a well-listed subfolder renames plus errors equal the files that contain the number |
| RenameFiles.RenameSubs | doc/demo-version/rename-files-for-masking.js:72-109 | each sub-folder keeps its name and is renamed in place as on its own, and every error names this drawing and folder type |
| RenameFiles.RenameSubsTally | doc/demo-version/rename-files-for-masking.js:72-109 | a folder type's renames and errors are the sums of its sub-folders' own, and when every sub-folder is well listed together they count every file containing the number |
| RenameFiles.RenameDrawing | doc/demo-version/rename-files-for-masking.js:63-110 | the pdfs and programs folders, when present, become their sub-folder renamings and nothing else changes; the renames and errors are those of pdfs followed by those of programs |
| RenameFiles.RenameDrawings | doc/demo-version/rename-files-for-masking.js:55-111 | no folder appears or disappears, folders of other drawings are untouched, and every error names a visited drawing |
| RenameFiles.RenameDrawingsTally | doc/demo-version/rename-files-for-masking.js:55-111 | for distinct drawings the run's renames and errors are the sums of what each drawing's folder reports when renamed on its own |
| RenameFiles.VisitKeepsTallies | doc/demo-version/rename-files-for-masking.js:55-111 | with distinct drawings, visiting the first leaves what every later drawing would report unchanged |
| RenameFiles.HeadFolderFresh | doc/demo-version/rename-files-for-masking.js:55-57 | with distinct numbers the first drawing's folder is not visited again later |
| RenameFiles.RenameDrawingsVisits | doc/demo-version/rename-files-for-masking.js:55-111 | each visited drawing's folder ends as renaming it on its own gives |
| RenameFiles.VisitOrder | doc/demo-version/rename-files-for-masking.js:53-55 | the drawings are visited longest number first, each once, exactly the mapped ones |
| RenameFiles.RenameFilesForMasking | doc/demo-version/rename-files-for-masking.js:16-121 | the script returns early exactly without an index and crashes exactly on an unreadable one; otherwise no folder appears or disappears, every error names a mapped drawing, and the totals of renamed files and errors are the sums over the mapped drawings, longest number first, of what each drawing's folder reports on its own |
| RenameFiles.RenameFilesTouchesMapped | doc/demo-version/rename-files-for-masking.js:36-111 | a folder of an unmapped drawing is untouched, and a mapped drawing's folder is renamed with its display number |
| DemoData.MapField | doc/demo-version/mask-category-and-drawing.js:110-111 | a field changes only when it is truthy and mapped, and then to its mapped value |
| DemoData.ProductsOf | doc/demo-version/mask-category-and-drawing.js:52-58 | the products of the skipped (or the other) companies |
| DemoData.ProductsOfAppend | doc/demo-version/mask-category-and-drawing.js:52-58 | collecting over two runs of companies gives the first run's products followed by the second's, so the order is the companies' order |
| DemoData.ProductsOfOne | doc/demo-version/mask-category-and-drawing.js:52-58 | one company contributes its own products in their order when it is on the chosen side, and nothing otherwise |
| DemoData.DrawingsOf | doc/demo-version/mask-category-and-drawing.js:54-56 | the drawings of the products, and only those |
| DemoData.DrawingsOfAppend | doc/demo-version/mask-category-and-drawing.js:54-56 | the drawings of two runs of products are those of the first run followed by those of the second |
| DemoData.DrawingsOfOne | doc/demo-version/mask-category-and-drawing.js:54-56 | one product contributes its drawing list unchanged, repeats included |
| DemoData.SkipDrawings | doc/demo-version/mask-category-and-drawing.js:50-60 | the skipped drawings are exactly the drawings of the two skipped companies |
| DemoData.ReplaceFirstJsSplice | doc/demo-version/mask-category-and-drawing.js:152 | replacing with a string pattern splices the replacement over the leftmost occurrence |
| DemoData.StripPrefix | doc/demo-version/mask-category-and-drawing.js:150-152 | removing the `drawing-` prefix from a prefixed folder name gives the rest |
| DemoData.FolderNumberOfPrefixed | doc/demo-version/mask-category-and-drawing.js:150-152 | the number read back from a drawing folder is the drawing number |
| DemoData.FoldersOf | doc/demo-version/rename-products-for-tv.js:149-151 | one folder per drawing number in order, distinct when the numbers are |
| DemoData.InFoldersOf | doc/demo-version/rename-products-for-tv.js:149-151 | the number of a listed folder is one of the drawing numbers |
| DemoData.RunPass | doc/demo-version/rename-products-for-tv.js:149-193 | no file appears or disappears, only visited folders change and only when written, and the parsed and written counts count the visited files |
| FirstSeen.Assign | doc/demo-version/mask-category-and-drawing.js:65-80 | the mapping covers exactly the keys, and the counter ends at the number of distinct keys |
| FirstSeen.AssignLabels | doc/demo-version/mask-category-and-drawing.js:74-79 | the i-th distinct key, in order of first appearance, gets label i |
| FirstSeen.AssignInjective | doc/demo-version/mask-category-and-drawing.js:85-99 | with distinct labels different keys get different labels |
| FirstSeen.AssignDistinct | doc/demo-version/mask-all-names.js:121-130 | for distinct keys the i-th key gets label i |

## Left out

- Input and output: file-system reads and writes, `readdir` listings, `fetch`, the Next.js request and response objects, environment variables, authentication and `getDataPath`. Directory listings, parsed files and request bodies are parameters; a listing's order is taken as given.
- Rendering: the React components are modelled only through the state they compute. Their markup, styling, effects and timers are not modelled. The purely presentational components are left out.
- Clocks and randomness: `Date`, `generateProductId`, `generateTimestampedFileName`, `generateId` and other random or time-based ids.
- Floating point: `formatFileSize`, the confidence percentage of the knowledge search, and the step 2 and step 3 times of the default template (floor and ceiling of 0.8 and 0.2 times the process time).
- Routes and loaders that only forward to storage or to external services: the contribution route, the search-index route, `savePdfFile`, `validateDataIntegrity`, the chat and AI-advice routes, and `instructionLoader`/`contributionLoader` beyond their first-match lookup.
- KnowledgeSearch: the drawing-number regular expressions of src/lib/knowledge-search-v2.ts:156-161 are a parameter (`drawingMatches`), and so are the company, drawing and contribution lookups. The score is kept in tenths (15, 12, 10 for the boosts) so that it stays an integer.
- Strings: `toLowerCase` and `toUpperCase` map only ASCII letters, and `trim` removes only space, tab, line feed, carriage return, vertical tab, form feed, U+00A0, U+2028, U+2029, U+3000 and U+FEFF. Other Unicode space separators (U+1680, U+2000 to U+200A, U+202F, U+205F) are not removed. Lone surrogates and UTF-16 code-unit indexing are not modelled.
- JSON: records are the fields the scripts read or write. Non-object JSON values, `__proto__` keys and the insertion order of integer-like keys in JavaScript objects (which matters to doc/demo-version/rename-files-for-masking.js) are not modelled.
- Object-literal lookups: the JavaScript tables (`machineTypeMap` and the other machine-type tables, the translation tables, the category, product, display-number and name tables of the demo scripts) are Dafny maps or pair lists. A key inherited from `Object.prototype` such as `constructor`, `toString` or `hasOwnProperty` finds a function in JavaScript, so `getMachineTypeKey('constructor')` does not give `other`; the model treats such keys as absent. This concerns MachineType, StepEditor.EditorMachineKey, Translation.Translate, DemoData.MapField and the demo-script tables.
- RenameFiles.ReplaceAllJs: `String.prototype.replace` expands `$&`, `$1` and `$$` in its replacement text. The model inserts the display number literally, which differs only for a display number containing `$`.
- Replace.ApplyMapping: leaves the text unchanged for an empty original, where a global regular expression built from it would insert the masked text at every position. No table of the scripts has an empty original.
- MaskProducts.MaskProductNames: states the instruction files' contents only when no folder is visited twice; two index entries naming the same folder make the script edit that file twice.
- MaskCategory.MaskInstructions: states the edited files' contents only when the listing has no repeated name, which a directory listing never has.
- DrawingUtils.PrepMinutes: `Math.floor(total * 0.2)` is modelled as the integer division `total / 5`. The double nearest 0.2 is slightly above it, so the product never rounds below an exact multiple and both agree on integer totals.
- The rename step of doc/demo-version/rename-files-for-masking.js succeeds or fails by a parameter (`ok`), since whether `fs.renameSync` succeeds depends on the file system.
- The removal step of scripts/delete_empty_steps_phase2.py succeeds or fails by a parameter (`removes`, per drawing, media folder and entry), since whether `shutil.rmtree` succeeds depends on the file system.
- DeleteEmptySteps.SweepFolder: a step directory that cannot be listed looks empty to `glob`, which swallows the permission error, so the script tries to remove it and reports the failure. The model reads every directory's entries as they are, and keeps such a directory with a warning when it has entries.
- DeleteEmptySteps.SecondRunDeletesNothing: assumes every removal succeeds or fails the same way on both runs. A removal that fails once and succeeds on a later run is not modelled.
- MaskNames.LabelLetters: states that labels are one or two capital letters only below 702 names, the largest count with two-letter labels.
- MigrationStatus: the four hard-coded drawing lists of scripts/check_migration_status.py (`all_old_format` with 40 entries, and `phase1_deleted`, `migrated` and `to_migrate` with 23, 2 and 9) and the `unknown` list it computes from them (scripts/check_migration_status.py:72-75) are not evaluated. MigrationStatus.TotalsAgreeForPartition proves the totals for any partition of any full list.
- Translation: the three tables share one key list in the model, because the source lists the same keys in the same order in each.
- The copy loop and the file writes of scripts/mask-data.js main, and doc/demo-version/check-remaining-names.js, which only prints what it finds.
- scripts/create_csv_template.py and the TypeScript type declarations: they define no behaviour.
- FilesApi.FolderPathDetermines: holds only for path parameters that are single plain segments. Node's `join` cuts a parameter at `/` and resolves `.` and `..`, so, for example, drawing number `A/B` with folder type `images` lists the same folder as drawing number `A` with folder type `B/images`, and sub-folder `.` lists the same folder as no sub-folder.
- FilesApi.FolderPath: a `..` that climbs above the file-system root is kept in the path, where Node drops it; the data root's own segments are not modelled.
- FilesApi.ListFiles: an entry that disappears between `readdir` and `stat` would also make the handler answer 500; the model takes each entry's kind as given.
- RenameFiles.RenameFilesForMasking: a regular file named `pdfs` or `programs` inside a drawing folder passes `existsSync` and makes `readdirSync` throw, which ends the script (doc/demo-version/rename-files-for-masking.js:67-72); the model has each of these names either as a folder or as absent.
- MaskData.UserNameHidesSystemNames: states the text after the first user-name entry only. The later entries are not followed, and one of them (山田 becomes 田中三郎) writes 田中 again.
- EditForm.UpdateWorkStep: requires an existing step index, because the editor only calls it with the index of a rendered row. Writing past the end of a JavaScript array is not modelled.
- EditForm.MoveWorkStep: requires an existing source index, for the same reason.
- EditForm.NearMissChange: requires an existing near-miss index, for the same reason.
- EditForm.WarningEdit: requires an applicable edit (an existing index), for the same reason.
- SearchBar.SortByScore: states that the result is a permutation. Ordering by score is a separate lemma. Stability of equal scores is not stated.
- DrawingsApi.ExistingNumbers: a set, because the source collects these numbers concurrently and their order is not fixed.
- Troubleshooting.PathLine: states the whole line for paths of length 0 and 1, and only the first segment and separator for longer paths.
- MaskUiText.MaskFiles: states only that a backup exists for each masked file. Its partner lemmas state the masked and restored contents.

## Findings

| source | as written | input that shows it | evidently intended | confidence | as-written member | corrected member |
|---|---|---|---|---|---|---|
| src/components/admin/WorkStepEditor.tsx:60-61 | the editor hands its machine type to `getStepFolderName` unconverted, and that function maps every unknown type, English keys included, to `_other`; the path that triggers this is `MachineTypeTab` (src/components/admin/MachineTypeTab.tsx:98), which passes the English key, while the drawing edit page passes Japanese names and links the right folder | `MachineTypeTab` for `machining`, step 1: the editor uses `step_01_other` while the viewer reads `step_01_machining` | convert the key to its Japanese name first, as the viewer does | not executed | StepEditor.EditorFolderDiffers | StepEditor.CorrectedFolderCarriesKey |
| src/components/WorkStep.tsx:62 | the download folder is `"step_0" + n` | step 10 gives `step_010`, while the listing uses `step_10_machining` | the padded folder name of `getStepFolderName` | not executed | InstructionView.DownloadStepTenExample | InstructionView.CorrectedDownloadMatchesListing |
| scripts/mask-data.js:128-138 | user names are replaced before system names | `田中工業AI` becomes `佐藤太郎工業AI` instead of `サンプル工業AI` | replace the longer system names first | not executed | MaskData.SystemNameAfterUserName | MaskData.SystemNamesReplacedFirst |
| doc/demo-version/mask-user-names.js:62-68 | the label of the k-th name is the character with code 64 + k | the 27th distinct contributor is labelled `作業者[` | letter labels past Z (AA, AB, …), as in mask-all-names.js | not executed | MaskUserNames.AsWrittenRunWritesBracket | MaskUserNames.UserTableLetters |
| scripts/mask-ui-text.js:27-92 | backups are keyed by the file's base name | src/app/page.tsx and src/app/chat/page.tsx share `page.tsx`; restore writes the top page's text into the chat page | key backups by the full path | not executed | MaskUiText.BasenameBackupsCollide | MaskUiText.ByPathRoundTrip |
| src/app/page.tsx:96-129 | a selected problem with neither children nor advice stays on the path, and the next choice is appended after it | in category `c`, choose problem `a` (no children, no advice), then its sibling `b` (one child `x`): the path becomes [c, a, b] and no options are shown, so `x` cannot be reached | replace the last choice instead of extending past it | not executed | Troubleshooting.StaleChoiceHidesChildren | Troubleshooting.CorrectedNavigationInStep |
| src/app/api/files/route.ts:73-78 | the path parameters go into `join` unchecked, and `join` resolves `..` in them | drawing number `x/../../ideas-library/c/i` with folder type `images` lists the images of idea `i` in category `c` | accept only single plain segments (no `/`, not `.` or `..`) as path parameters | not executed | FilesApi.DrawingNumberReachesIdea | FilesApi.CorrectedFolderStaysInside |

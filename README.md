# Universal Excel summary — a Dafny model

This project models the core of a browser application that summarises a
folder of spreadsheet files into a single table. It covers three parts of
the application.

- **The extraction engine** (`services/excelService.ts`). It keeps only Excel
  files and opens the configured worksheet. The register number comes from
  the last run of digits in the id cell, or in the file name when there is
  no id cell. Every field mapping whose register range contains that number
  is applied: the source cell is read, formatted by the mapping's format
  (date, fixed decimals or unchanged) and stored under the mapping's column.
  A failing file becomes an error entry. At the end the rows are sorted by
  register number and numbered from 1.
- **The application state** (`App.tsx`). This covers:
  - the plan limits and the cap on files per batch for the free plan;
  - the saved configuration profiles, with their load, switch, save, create
    and delete handlers;
  - the table that is handed to the CSV, Excel and PDF exporters.
- **The configuration panel** (`components/ConfigPanel.tsx`). This covers
  editing one configuration field, one field of one mapping, removing a
  mapping, adding a mapping in a fresh column, and submitting a new profile
  name.

Files:

| file | module | contents |
|---|---|---|
| `types.dfy` | `Types` | the records of `types.ts` and the default configuration of `constants.ts` |
| `strings.dfy` | `Strings` | decimal digits, `parseInt`/`String` on naturals, `padStart`, ASCII lower-casing, substring search |
| `excel_service.dfy` | `ExcelService` | the engine: the register resolver, the format rules, the mapping evaluator, the per-file extractor and the batch method |
| `app.dfy` | `App` | the plans, the file cap, the profile list functions, the `AppState` class and the export table |
| `config_panel.dfy` | `ConfigPanel` | the panel's handlers as functions from the old record or list to the new one |

The spreadsheet library is a parameter of the engine (`ExcelService.Library`).
It provides four functions:
- reading a workbook, which either yields sheets or throws with a message;
- decoding a date serial, which may fail;
- JavaScript's `String(number)`;
- the pt-BR fixed-precision rendering.

The engine's own logic is modelled on top of these.

## Model

| member | source | states |
|---|---|---|
| Strings.DecimalValue | services/excelService.ts:9 | `parseInt` of a digit string of zeros is 0, and of one digit is that digit's value |
| Strings.NatToDecimal | services/excelService.ts:70 | `String(n)` of a natural is a non-empty digit string with no leading zero, one digit exactly below 10 |
| Strings.DecimalRoundTrip | services/excelService.ts:9 | parsing the printed decimal of `n` gives back `n` |
| Strings.NoLeadingZeroValue | services/excelService.ts:9 | a digit string without a leading zero is worth at least 1, and at least 10 when longer than one digit |
| Strings.DecimalRoundTripText | services/excelService.ts:9 | printing the parsed value of a canonical digit string gives back the string |
| Strings.LeadingZero | services/excelService.ts:9 | a leading zero does not change the value `parseInt` reads |
| Strings.PadStart2 | services/excelService.ts:70 | `padStart(2, '0')` has length max(2, \|s\|), ends with `s` and is zeros before it |
| Strings.PadStart2Value | services/excelService.ts:70 | zero padding keeps a digit string's value |
| Strings.ToLowerAscii | services/excelService.ts:63 | lower-casing keeps the length and lowers each letter |
| ExcelService.DigitPrefix | services/excelService.ts:7 | the leading digit run is all digits and maximal |
| ExcelService.DigitRuns | services/excelService.ts:7 | the `/\d+/g` matches are non-empty digit strings, and there are none exactly when the text has no digit |
| ExcelService.LastRunOfSuffix | services/excelService.ts:7-9 | the last run of a suffix is the last run of the whole text, unless a digit just before the suffix extends it |
| ExcelService.ShiftLastRun | services/excelService.ts:7-9 | a last run of the text after a non-digit is, shifted, a last run of the whole text |
| ExcelService.LastOfLeadingRun | services/excelService.ts:7-9 | when digits follow the leading run, the last match of the text is the last match of the rest |
| ExcelService.LastMatchIsLastRun | services/excelService.ts:7-9 | the last match is the last maximal digit run of the text |
| ExcelService.LastMatchAfterNonDigit | services/excelService.ts:7-9 | a leading non-digit does not change which run is last |
| ExcelService.LastMatchIsLeadingRun | services/excelService.ts:7-9 | when no digit follows the leading run, that run is the last one |
| ExcelService.LastMatchAfterLeadingRun | services/excelService.ts:7-9 | when digits follow the leading run, the last run of the rest is the last run of the text |
| ExcelService.LastRunUnique | services/excelService.ts:7-9 | a text has only one last maximal digit run |
| ExcelService.ExtractLastNumber | services/excelService.ts:6-12 | the result is 0 without digits, otherwise the value of the last maximal digit run, and never negative |
| ExcelService.ExtractLastNumberIsLastRun | services/excelService.ts:6-12 | whenever `s[i..j]` is the last digit run, the register number is its value |
| ExcelService.ExtractLastNumberOfSuffix | services/excelService.ts:6-12 | a text ending in a digit run that follows a non-digit (or nothing) gives that run's value, leading zeros included (`MGR-045` gives 45) |
| ExcelService.ExtractLastNumberLastWins | services/excelService.ts:6-12 | text put in front of a part that starts with a non-digit and contains a digit does not change the result: the last run wins |
| ExcelService.IsExcelName | services/excelService.ts:27 | an accepted name ends in a dot followed by three or four characters |
| ExcelService.ExcelNameIgnoresCase | services/excelService.ts:27 | a name is accepted exactly when its lower-cased form is (the `/i` flag) |
| ExcelService.StripNonAlnum | services/excelService.ts:45 | the stripped id-cell address holds only ASCII letters and digits, is no longer than the address, and is the address itself exactly when the address has only those; one character is kept exactly when it is a letter or digit |
| ExcelService.StripNonAlnumAppend | services/excelService.ts:45 | stripping a concatenation is the concatenation of the stripped parts, so the letters and digits stay, in order |
| ExcelService.ValueText | services/excelService.ts:47 | `String(idCell.v)`: text as it is, a number as the library prints it, `true`/`false`, `null` |
| ExcelService.RegId | services/excelService.ts:45-49 | the register number comes from the stripped id cell's text when that cell exists, from the file name otherwise |
| ExcelService.IsDateFormat | services/excelService.ts:63-66 | a format with a date token has at least two characters |
| ExcelService.DateFormatIgnoresCase | services/excelService.ts:63-66 | the date-token test gives the same answer for a format and its lower-cased form |
| ExcelService.HasDecimalPattern | services/excelService.ts:76 | a format that matches `[0#][.,][0#]+` has at least three characters |
| ExcelService.FmtDigitRun | services/excelService.ts:77 | the run of `0`/`#` digits is maximal |
| ExcelService.FractionDigits | services/excelService.ts:77-79 | the precision exists exactly when a `.` or `,` is followed by `0`/`#`, and it is at least 1 |
| ExcelService.FractionDigitsLeftmost | services/excelService.ts:77-79 | the precision is the length of the digit run after the leftmost such separator |
| ExcelService.DecimalPatternHasFraction | services/excelService.ts:76-78 | whenever `[0#][.,][0#]+` matches, the precision match also succeeds, so the `if (match)` is always taken |
| ExcelService.RuleFor | services/excelService.ts:62-86 | the date rule applies exactly on a date token; the fixed rule exactly on the decimal pattern without one, with the format's precision; otherwise pass-through |
| ExcelService.FormatDate | services/excelService.ts:70 | the date text has at least 7 characters, all digits or `/` |
| ExcelService.FormatDateShape | services/excelService.ts:70 | a formatted date is `DD/MM/Y…` and its three parts read back as day, month and year |
| ExcelService.SliceOfFormatted | services/excelService.ts:70 | where day, month and year sit in the date text |
| ExcelService.FormatValue | services/excelService.ts:59-87 | only numbers are changed, only into text; a number under a pass-through format is unchanged; a decimal format renders at the format's precision; a date format gives the date text of the decoded serial, or keeps the number when decoding fails |
| ExcelService.DateFormatting | services/excelService.ts:66-70 | a number under a date format whose serial decodes becomes zero-padded `DD/MM/YYYY` that reads back as the decoded date |
| ExcelService.DateFallback | services/excelService.ts:67-73 | when the date decoder fails, the number is kept |
| ExcelService.DateTokenWins | services/excelService.ts:66-76 | a format with a date token never takes the decimal path |
| ExcelService.DefaultDateFormats | constants.ts:11-16 | the shipped formats `dd/mm/yyyy` and `hh:mm` (it contains `mm`) both select the date rule |
| ExcelService.DefaultDecimalFormat | constants.ts:11-16 | the shipped format `0.000` selects the fixed rule with precision 3 |
| ExcelService.DefaultTextFormat | constants.ts:11-16 | the shipped format `@` selects pass-through, and every value, numbers included, comes out of it unchanged |
| ExcelService.MappedValue | services/excelService.ts:57-87 | a missing source cell stores null; a present non-number, or any value under a pass-through format, is stored as it is |
| ExcelService.MappedData | services/excelService.ts:54-91 | every column that has a value also has a name key, and the other way round |
| ExcelService.MappedKeys | services/excelService.ts:54-91 | column `c` and its name key are present exactly when a mapping whose range contains the register number has column `c` |
| ExcelService.MappedLastWins | services/excelService.ts:89-90 | a later applicable mapping with the same column overwrites an earlier one; the last one's value and name remain |
| ExcelService.BuildRowData | services/excelService.ts:52-92 | the key-by-key loop builds exactly the in-order application of the mappings |
| ExcelService.ErrorMessage | services/excelService.ts:103 | the error text is the exception's message, or "Unknown error" when it is empty |
| ExcelService.FileOutcome | services/excelService.ts:23-105 | a file is skipped exactly when its name is not `.xls`/`.xlsx`/`.xlsm` in any case; a row carries the file name and order 0; an error carries the file name and a non-empty text; an Excel file whose read throws fails with the exception's message, or "Unknown error" |
| ExcelService.ThrownReadIsCaught | services/excelService.ts:102-103 | a throwing read yields no row and exactly one error, with the file name and the message, or "Unknown error" when the message is empty |
| ExcelService.MissingSheet | services/excelService.ts:36-42 | a readable file without the configured sheet yields exactly the error `Sheet '<name>' not found.` and no row |
| ExcelService.ExtractedRow | services/excelService.ts:44-100 | a readable file with the sheet yields a row with the resolved register number, whose data is the in-order application of the mappings, and which holds exactly the applicable columns |
| ExcelService.ProcessFile | services/excelService.ts:23-105 | the step-by-step extractor computes the file's outcome |
| ExcelService.ExtractedRows | services/excelService.ts:94-100 | every row pushed before numbering has order 0 |
| ExcelService.ExtractedErrors | services/excelService.ts:103-110 | a batch has at most one error per file, and every error text is non-empty |
| ExcelService.BatchCount | services/excelService.ts:110-120 | rows plus errors never outnumber the files |
| ExcelService.BatchAppend | services/excelService.ts:108-110 | a batch's rows and errors are those of its parts, concatenated |
| ExcelService.BatchAppendRows | services/excelService.ts:108-110 | the rows of a batch are the rows of its two parts, concatenated |
| ExcelService.BatchAppendErrors | services/excelService.ts:108-110 | the errors of a batch are the errors of its two parts, concatenated |
| ExcelService.SingleFileAppended | services/excelService.ts:110 | one more file adds exactly its own outcome |
| ExcelService.FailureIsIsolated | services/excelService.ts:102-104 | a failing file adds its error and changes nothing else in the batch |
| ExcelService.NonExcelIsSkipped | services/excelService.ts:27-29 | a non-Excel file adds neither a row nor an error |
| ExcelService.SwapWithPrevious | services/excelService.ts:113 | rows `j-1` and `j` are exchanged, every other row stays, and the multiset is kept |
| ExcelService.InsertionStep | services/excelService.ts:113 | swapping the inserted row past a larger neighbour keeps the state of the insertion pass |
| ExcelService.InsertionDone | services/excelService.ts:113 | a pass that stops at the front or after a no larger row leaves rows `0..i` in register order |
| ExcelService.InsertIntoSorted | services/excelService.ts:113 | with rows `0..i-1` in register order, one pass puts rows `0..i` in order, leaves the rows after `i` untouched and keeps the multiset |
| ExcelService.SortByRegId | services/excelService.ts:113 | the rows end in non-decreasing register order and are a permutation of the input |
| ExcelService.AssignOrder | services/excelService.ts:116-118 | each row's order becomes its position plus 1, and nothing else changes |
| ExcelService.Unnumbered | services/excelService.ts:97 | clearing the order field keeps the rows in place |
| ExcelService.CollectOutcomes | services/excelService.ts:107-110 | the file-by-file loop collects exactly the batch's extracted rows and errors, in file order |
| ExcelService.SortAndNumber | services/excelService.ts:112-118 | the unnumbered rows come back as many, sorted by register number, numbered 1..n, and with the order cleared they are a permutation of the input |
| ExcelService.ProcessFiles | services/excelService.ts:14-121 | the result rows are sorted by register number, numbered 1..n and are exactly the extracted rows; the errors are the files' errors; rows plus errors are at most the files |
| App.Limits | App.tsx:25-29 | FREE allows 5 files, no AI and 1 profile; PRO and ENTERPRISE allow 9999, AI and 9999 |
| App.FilesToProcess | App.tsx:160-171 | the files processed are a prefix of the selection, at most 5 on FREE, all of them on other plans |
| App.FindProfile | App.tsx:105 | a profile is found exactly when the id is present, and it is the first with that id |
| App.HasIdCons | App.tsx:105 | an id is in `[p] + ps` exactly when it is `p`'s or in `ps` |
| App.SaveInto | App.tsx:112-117 | saving keeps the length, ids and names; it replaces config and mappings in the profiles with the current id only |
| App.SaveThenFind | App.tsx:104-117 | switching to the profile just saved loads the saved config and mappings |
| App.RemoveId | App.tsx:148 | the remaining profiles are exactly those without the deleted id |
| App.DistinctTail | App.tsx:148 | with distinct ids, the first profile's id is not in the rest |
| App.ConsDistinct | App.tsx:148 | a profile whose id is not in a list of distinct ids can be put in front keeping them distinct |
| App.DropAtOfTail | App.tsx:148 | removing element `k+1` of a list is its head in front of the tail with element `k` removed |
| App.RemoveIdDistinct | App.tsx:148 | deleting keeps ids distinct |
| App.RemoveAbsentId | App.tsx:148 | deleting an unknown id changes nothing |
| App.RemoveIdAt | App.tsx:148 | with distinct ids, deleting the id of profile `k` removes exactly that profile and keeps the order of the others |
| App.RemoveIdKeepsOthers | App.tsx:142-149 | with distinct ids, deleting removes at most one profile |
| App.AppendThenRemove | App.tsx:130-148 | deleting a profile just created under a fresh id restores the list |
| App.AppState.constructor | App.tsx:63-89 | start-up loads the saved profiles and selects the first, or starts from the default profile |
| App.AppState.FolderSelect | App.tsx:158-171 | only the capped prefix is processed; cutting a FREE batch opens the pricing dialog; nothing else changes |
| App.AppState.LoadProfileData | App.tsx:92-96 | the profile becomes current together with its config and mappings; the list is unchanged |
| App.AppState.ProfileChange | App.tsx:104-109 | a known id loads that profile; an unknown id changes nothing |
| App.AppState.SaveProfile | App.tsx:111-121 | only the current profile gets the edited config and mappings; the invariant is kept |
| App.AppState.CreateProfile | App.tsx:123-140 | at the plan's profile cap nothing changes except that the pricing dialog opens; otherwise exactly one profile with the edited config and mappings is appended and becomes current |
| App.AppState.DeleteProfile | App.tsx:142-156 | with one profile nothing changes; otherwise the profiles with that id are removed, and deleting the current one loads the first remaining; the invariant is kept |
| App.ConsSorted | App.tsx:233 | a mapping whose column is no larger than the first can be put in front keeping column order |
| App.SortedTail | App.tsx:233 | dropping the first mapping keeps column order |
| App.InsertByColIndex | App.tsx:233 | insertion keeps the column order and adds exactly the mapping |
| App.SortByColIndex | App.tsx:233 | the sorted mappings are in column order and a permutation of the mappings |
| App.ExportCell | App.tsx:237 | a present non-null value is exported as it is; a missing or null one becomes `""` |
| App.HeaderRow | App.tsx:234 | the header is `Arquivo`, the field names in column order, `ID Reg`, `Ordem` |
| App.DataRow | App.tsx:236-239 | a data row is the file name, one cell per mapping in column order, the register number and the order |
| App.GetExportData | App.tsx:232-242 | the header lists the field names sorted by column; there is one data row per result row, in order, each as wide as the header |
| App.ExportColumnsOrdered | App.tsx:233-234 | the exported columns come in non-decreasing column order and every mapping gets one |
| ConfigPanel.HandleConfigChange | components/ConfigPanel.tsx:28-30 | the named field takes the new value and the other fields keep theirs |
| ConfigPanel.ConfigChangeLaws | components/ConfigPanel.tsx:28-30 | typing a field's current text changes nothing; of two edits of one field the later wins |
| ConfigPanel.ApplyEdit | components/ConfigPanel.tsx:34 | the edited field takes the value and every other field keeps its own |
| ConfigPanel.UpdateMapping | components/ConfigPanel.tsx:32-36 | the length is kept, only element `index` changes, and in it only the edited field |
| ConfigPanel.MappingFieldsDetermine | components/ConfigPanel.tsx:34 | a mapping is determined by its seven fields |
| ConfigPanel.UpdateWithCurrentValue | components/ConfigPanel.tsx:32-36 | writing a field's current value back leaves the list as it was |
| ConfigPanel.RemoveMapping | components/ConfigPanel.tsx:38-40 | an index in range removes exactly that element and keeps the order of the rest; any other index changes nothing |
| ConfigPanel.RemoveLast | components/ConfigPanel.tsx:38-40 | removing the last element of `ms + [m]` gives `ms` |
| ConfigPanel.MaxColIndex | components/ConfigPanel.tsx:43 | the maximum is at least 1, bounds every column and is 1 or one of the columns |
| ConfigPanel.AddMapping | components/ConfigPanel.tsx:42-56 | exactly one mapping is appended with the defaults `NOVO CAMPO`, `A1`, 1, 9999, `@` and a column above every existing one and at least 2 |
| ConfigPanel.AddMappingColumn | components/ConfigPanel.tsx:43-53 | the new column is 2, or one past the largest column in use |
| ConfigPanel.AddThenRemove | components/ConfigPanel.tsx:38-56 | adding a mapping and removing it again restores the list |
| ConfigPanel.TrimStart | components/ConfigPanel.tsx:60 | the removed prefix is all white space and what remains does not start with white space |
| ConfigPanel.TrimEnd | components/ConfigPanel.tsx:60 | the removed suffix is all white space and what remains does not end with white space |
| ConfigPanel.Trim | components/ConfigPanel.tsx:60 | the trimmed name is no longer than the name and neither starts nor ends with white space |
| ConfigPanel.TrimEmpty | components/ConfigPanel.tsx:60 | the trimmed name is empty exactly when every character is white space |
| ConfigPanel.CreateSubmit | components/ConfigPanel.tsx:58-65 | the profile is created exactly when the name has a non-white-space character, under the untrimmed name, and the form is then cleared and closed; otherwise nothing changes |

## Left out

- The spreadsheet library is a parameter. Its four functions are not defined here: reading a workbook, the date-serial decoder, `String(number)` and `toLocaleString('pt-BR', …)`. The fixed-precision text is left abstract, and a `RangeError` from an out-of-range precision is not modelled.
- `file.arrayBuffer()` is folded into the read function: a failure to read the bytes is a thrown read.
- ExcelService.ProcessFiles: `Promise.all` runs the files concurrently and rows are pushed in completion order. The model processes the files one after the other. So the result is stated as a permutation of the extracted rows, and the order of rows with equal register numbers is not claimed. Errors are pushed in completion order too; the model gives them in file order, which is only one of the orders the source can produce.
- ExcelService.SortByRegId: it is stable, but stability is not claimed, for the reason above.
- App.SortByColIndex: stability is not claimed either, although JavaScript's `sort` is stable.
- The regular expressions (`\d`, `[^A-Za-z0-9]`, the `/i` flag) are ASCII by definition. `toLowerCase` is modelled on ASCII letters only. No other character lowercases to `d`, `m`, `y`, `a` or to the letters of `.xls`.
- Numbers are JavaScript doubles in the source. Register numbers, `minReg`, `maxReg` and `colIndex` are unbounded integers here. Not modelled:
  - `parseInt` rounding on very long digit runs;
  - `NaN` from `parseInt` on an empty numeric input in the mapping table;
  - `Math.max` returning `NaN`.
- Property names such as `__proto__` are looked up on JavaScript objects as inherited members (sheet names, cell addresses). The model uses plain maps.
- The row's `originalFile` field is a browser `File` handle and is not modelled.
- App.AppState.CreateProfile requires the new id to be fresh. The source uses `Date.now().toString()` as the id and does not check it.
- App.AppState.constructor requires the saved profiles to have distinct ids. It takes the parsed list as a parameter; `localStorage` and the JSON parsing are not modelled (a parse failure behaves like an empty list: the default profile is used).
- App.AppState.ProfileChange, App.AppState.SaveProfile and App.AppState.DeleteProfile require the invariant `Valid()` that the constructor establishes. A list with repeated ids could make `handleDeleteProfile` load `undefined`, and this is not modelled.
- ConfigPanel.Trim: states only the length bound and that neither end is white space, not that the result is the middle slice of the name. ConfigPanel.TrimStart and ConfigPanel.TrimEnd each state that they remove only white space, from their own end.
- ConfigPanel.UpdateMapping requires a valid index. The table only passes the index of a displayed row.
- ConfigPanel.HandleConfigChange takes one of the four input names. Other names cannot come from the form.
- ConfigPanel.AddMapping takes the new id as a parameter. The source uses `Date.now().toString()`.
- Not modelled: the `localStorage` writes, alerts, `handleAnalyze` and the Gemini service, authentication, the exporters' rendering (CSV text, workbook styling, PDF layout), `handleUpgrade` and the presentational components. They are I/O or user interface.

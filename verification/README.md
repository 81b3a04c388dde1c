# Invoice generator core, modelled in Dafny

`facturas.py` is a small Streamlit tool. It fills an Excel "invoice" (a
grading rubric) for every student or team of a course. For each group it:

- loads the template `plantilla.xlsx`;
- writes the course, the task and the student names into the header;
- lays out one rubric row per part of the task, inserting rows when a task
  has more than one part;
- rewrites the totals formulas below the parts so that they point at their
  new rows;
- saves the workbook as `Factura_{task}_{course code}_{group token}.xlsx`.

This project models that core and proves what it produces:

- `text.dfy` (module `Text`) holds the Python string operations the
  generator relies on: `strip`, `replace`, `re.sub` with a character class,
  `split(sep)[0]` and `join`.
- `filenames.dfy` (module `FileNames`) holds `limpiar_nombre_archivo`, the
  course code, the group token, the header texts and the output file name.
- `groups.dfy` (module `Groups`) holds the groups the generator iterates
  over. In individual mode that is one group per selected student. In team
  mode each team selector offers only the students that no other team
  holds.
- `formulas.dfy` (modules `Formulas`, `FormulaTexts`) holds the formula
  texts the generator writes. It also holds a scanner that lists the cell
  references a formula text mentions, so that what each formula refers to
  is proved rather than assumed.
- `sheet.dfy` (module `Sheet`) holds the worksheet: cells with values and
  styles, merged ranges, the openpyxl operations the generator calls, and
  `copiar_formato`. The `Worksheet` class carries the mutable state. Each
  of its methods is tied to a function on the state's value (`State`).
- `layout.dfy` (module `Layout`) holds the filling of one invoice. `Render`
  and its helper methods change a `Worksheet` step by step, as the source
  does. Each method is proved equal to a function (`Headers`, `Prepared`,
  `PartsWritten`, `Totals`, and `Rendered` for the whole).
- `rendered.dfy` (module `RenderedSheet`) proves what the rendered sheet
  holds, cell by cell and merge by merge.

A template with `n` parts is laid out as follows:

- part `i` (from 0) is row `9 + i`;
- the net grade is row `n + 10`;
- the final grade is row `n + 12`;
- the penalty weights are row `n + 13`;
- the penalty checks are row `n + 15`;
- the penalty sum is row `n + 17`.

These rows are exactly where the template's rows 11, 13, 14, 16 and 18 land
after `n - 1` rows are inserted at row 10 (`Layout.TotalsFollowTemplate`).

Details of `facturas.py` that the model keeps as written:

- The header and token branch (line 198) tests the evaluation mode, not the
  size of the group. A one-member team still gets `Estudiantes:` and an
  `Equipo_` token.
- Only the task name goes through `limpiar_nombre_archivo` (lines 268-269).
  The course code and the group token go into the file name as they are
  (`FileNames.UncleanedStudentName`).
- The penalty sum (line 264) adds five products: columns D to H of the
  checks row, each times the same column of the weights row.
- Three totals formulas are rewritten (lines 263-265): the net grade, the
  penalty sum and the final grade.
- The net grade (line 263) sums `J9` down to `J{net-1}`, the row right after
  the last part. That is where the template's row 10 lands
  (`RenderedSheet.NetSumsParts`).
- openpyxl's `insert_rows` (line 219) moves cells but leaves merged ranges
  where they were. Merges below the part rows therefore do not follow the
  cells they covered. Only the merges starting in rows 9 to `9 + n` are
  removed (lines 222-231, `RenderedSheet.RenderedMerges`).

## Model

| member | source | states |
|---|---|---|
| Text.Strip | facturas.py:49 | `strip()` returns a slice of its input that neither starts nor ends with whitespace; everything it drops, at the front and at the back, is whitespace |
| Text.TrimStart | facturas.py:49 | the leading part dropped is whitespace, and the rest is a suffix that does not start with whitespace |
| Text.TrimEnd | facturas.py:49 | the trailing part dropped is whitespace, and the rest is a prefix that does not end with whitespace |
| Text.Delete | facturas.py:48 | deleting a character class never lengthens the string |
| Text.DeleteSpec | facturas.py:48 | deleting a character class leaves none of its characters, leaves a string without them unchanged, and drops a single character exactly when it is in the class |
| Text.DeleteAppend | facturas.py:48 | deleting from a concatenation deletes from each part |
| Text.ReplaceChar | facturas.py:49 | `replace(c, d)` keeps the length, turns every `c` into `d` and keeps every other character in place |
| Text.ReplaceRemoves | facturas.py:49 | after `replace(c, d)` with `c != d`, no `c` remains |
| Text.ReplaceKeepsStripped | facturas.py:49 | replacing with a non-whitespace character keeps a stripped string stripped |
| Text.Before | facturas.py:57 | `split(sep)[0]` is a prefix of the input |
| Text.BeforeSpec | facturas.py:57 | `split(sep)[0]` is a prefix with no occurrence of `sep` inside it, followed by `sep` unless it is the whole string |
| Text.Join | facturas.py:200-202 | `sep.join(xs)`; it has no contract of its own, and `Text.JoinLayout` and `Text.SplitJoin` state what it produces |
| Text.JoinLayout | facturas.py:200-202 | `sep.join(xs)` holds every piece in order at its offset, each but the last followed by `sep` and then by the next piece, and the last piece ends the string |
| Text.SplitJoin | facturas.py:201-202 | splitting `c.join(xs)` on `c` gives `xs` back when no piece holds `c` |
| FileNames.Sanitize | facturas.py:45-49 | the cleaned name holds none of `<>:"/\|?*`, no space, and no surrounding whitespace |
| FileNames.SanitizeIdempotent | facturas.py:45-49 | cleaning a cleaned name changes nothing |
| FileNames.SanitizeFixesClean | facturas.py:45-49 | a name without forbidden characters, spaces or surrounding whitespace is its own cleaned form |
| FileNames.CourseCode | facturas.py:57 | the course code is a prefix of the selected label |
| FileNames.CourseCodeSpec | facturas.py:57 | the course code is the text before the first `" - "` of the selected label |
| FileNames.CourseCodeOfLabel | facturas.py:55-57 | the code of a label `code - name` is `code` whenever `code` itself starts no `" - "` |
| FileNames.FirstWord | facturas.py:201 | `est.split(" ")[0]` is a space-free prefix of the name, followed by a space unless it is the whole name |
| FileNames.GroupToken | facturas.py:198-206 | the branch is on the mode: in team mode the token starts with `Equipo_`; in individual mode it is as long as the first member's name and holds no space |
| FileNames.TeamTokenWords | facturas.py:198-202 | the team token is `Equipo_` followed by the members' first words, which splitting on `_` recovers |
| FileNames.IndividualToken | facturas.py:203-206 | the individual token has no space and is the name with spaces turned into `_`, so the name comes back when it held no `_` |
| FileNames.StudentHeading | facturas.py:198-204 | the A5 heading; it has no contract of its own, and `RenderedSheet.RenderedHeaders` states that A5 holds `Estudiantes:` in team mode and `Estudiante:` otherwise |
| FileNames.StudentNames | facturas.py:198-205 | in team mode B5 holds every member in order, each but the last followed by `", "`; in individual mode it holds the first member only, whatever the group size |
| FileNames.FileName | facturas.py:268-269 | the file name starts with `Factura_` and ends with `.xlsx` |
| FileNames.FileNameClean | facturas.py:268-269 | the file name is free of forbidden characters when the course code and the token are |
| FileNames.UncleanedStudentName | facturas.py:206 | a forbidden character in an individual student's name reaches the file name |
| Groups.IndividualGroups | facturas.py:94 | one group per selected student, group `i` holding exactly the `i`-th selected student |
| Groups.IndividualGroupsSpec | facturas.py:94 | one single-member group per selected student; reading the groups in order gives back the selection |
| Groups.InUse | facturas.py:103-107 | a student is in use exactly when one of the first `n` team selections holds them |
| Groups.CollectInUse | facturas.py:103-107 | walking the `n` team entries of the session store collects exactly the students in use |
| Groups.Options | facturas.py:115-118 | a student is offered exactly when they are on the roster and either not in use or already in this team; there are no more options than roster entries |
| Groups.OptionsAppend | facturas.py:115-118 | the options follow the roster's order: the options of a concatenated roster are the options of each part in turn, and one student is offered exactly when free or already in this team |
| Groups.OptionsAvoidOtherTeams | facturas.py:110-118 | a team is never offered a member of another team unless it already holds that student |
| Groups.PickKeepsDisjoint | facturas.py:110-120 | when teams are disjoint and one selector picks among its options, the teams stay disjoint |
| Groups.NonEmpty | facturas.py:121-122 | exactly the non-empty selections are kept |
| Groups.NonEmptyKeepsDisjoint | facturas.py:121-122 | dropping the empty selections keeps selections that share no student apart |
| Groups.TeamGroups | facturas.py:110-122 | the team-mode groups are the non-empty selections in team order, each a non-empty list of roster students; when each selector returns its stored selection and the stored teams are disjoint, no student is in two groups |
| Formulas.Decimal | facturas.py:234-242 | a row number renders as a non-empty run of digits without a leading zero |
| Formulas.DecimalRoundTrip | facturas.py:234-242 | reading a rendered row number back gives the number |
| Formulas.ParseRefText | facturas.py:242 | a written cell reference reads back as the same reference |
| Formulas.RefsAppend | facturas.py:242 | scanning two texts that meet at a break lists the references of each in turn |
| FormulaTexts.ProductsRefs | facturas.py:242 | a sum of products mentions exactly its factors, in order |
| FormulaTexts.ScoreFormulaRefs | facturas.py:242 | `J{r}` mentions C to H of row `r`, each next to the weight fixed in `$C$8` to `$H$8`, then `B{r}`, and no other cell |
| FormulaTexts.NetFormulaRefs | facturas.py:263 | the net grade mentions `J9` and `J{net-1}` only |
| FormulaTexts.PenaltyFormulaRefs | facturas.py:264 | the penalty sum mentions each check D to H of the checks row, each next to the same column of the weights row |
| FormulaTexts.FinalFormulaRefs | facturas.py:265 | the final grade mentions the net grade twice and the penalty sum once |
| Sheet.CopiedStyleSpec | facturas.py:37-43 | a styled source is copied look for look and the destination keeps its protection; an unstyled source changes nothing; copying twice is copying once |
| Sheet.FormatCopiedAt | facturas.py:37-43 | copying a format changes only the destination's style, and no merge |
| Sheet.Worksheet.CopyFormat | facturas.py:37-43 | `copiar_formato` leaves the sheet as `FormatCopied` describes |
| Sheet.Worksheet.SetValue | facturas.py:195-206 | assigning a cell changes its value and keeps its style |
| Sheet.Worksheet.SetAlignment | facturas.py:259 | setting an alignment changes only that cell's alignment |
| Sheet.Worksheet.MergeCells | facturas.py:258 | merging adds the range to the merged ranges |
| Sheet.Worksheet.UnmergeCells | facturas.py:213-217 | unmerging a merged range removes it and clears the cells it covered except the top-left one; on a range that is not merged it fails and changes nothing |
| Sheet.UnmergedAt | facturas.py:213-217 | after unmerging, exactly the covered cells other than the top-left one read as blank |
| Sheet.Worksheet.InsertRows | facturas.py:219 | inserting rows moves every cell at or below the index down, and leaves the merged ranges where they were |
| Sheet.RowsInsertedAt | facturas.py:219 | rows above the index are unchanged, the inserted rows are blank, and every later row holds what was `amount` rows higher |
| Layout.TotalsFollowTemplate | facturas.py:251-255 | the totals rows computed from `n` are the template's rows 11, 13, 14, 16 and 18 after the insertion |
| Layout.PartLabelSpec | facturas.py:235-237 | the column A text starts with the part kind and its number from 1, and carries `": name"` exactly when the name is not blank |
| Layout.PartLabel | facturas.py:235-237 | the column A text of a part; it has no contract of its own, and `Layout.PartLabelSpec` states what it holds |
| Layout.WritePart | facturas.py:233-248 | writing one part's label, weight and score formula, and copying row 9's format onto rows after the first, gives `PartWritten` |
| Layout.Headers | facturas.py:195-205 | the header step as a function on the sheet; `RenderedSheet.HeadersAt` states that it sets B2, B3, A5 and B5 and nothing else |
| Layout.Prepared | facturas.py:211-231 | the row preparation as a function on the sheet; `RenderedSheet.PreparedAt`, `RenderedSheet.PreparedMerges` and `RenderedSheet.PreparedMoves` state what it leaves |
| Layout.PartsWritten | facturas.py:233-248 | the part loop as a function on the sheet; `RenderedSheet.PartsWrittenAt` states what each part row holds |
| Layout.Totals | facturas.py:257-265 | the totals step as a function on the sheet; `RenderedSheet.TotalsAt` and `RenderedSheet.TotalsMerges` state what it writes and merges |
| Layout.Rendered | facturas.py:194-265 | the whole invoice as a function on the template; the `RenderedSheet` lemmas below state what it holds |
| Layout.ScoreIsFormula | facturas.py:242 | the score text is stored as a formula |
| Layout.TotalsAreFormulas | facturas.py:263-265 | the three totals texts are stored as formulas |
| Layout.SweepStep | facturas.py:227-231 | unmerging one more stale range extends the sweep by that range |
| Layout.Render | facturas.py:194-265 | filling the template step by step leaves the sheet as `Rendered` describes |
| Layout.MakeRoom | facturas.py:211-231 | unmerging rows 10 to 12, inserting `n - 1` rows at row 10 and unmerging every range starting in rows 9 to `9 + n` gives `Prepared` |
| Layout.UnmergeTemplateRows | facturas.py:213-217 | trying to unmerge `D10:H10`, `D11:H11` and `D12:H12`, ignoring failures, gives `TemplateRowsUnmerged` |
| Layout.SweepStale | facturas.py:227-231 | unmerging the collected ranges one at a time, in any order, gives `Swept` |
| Layout.CollectStale | facturas.py:222-225 | the ranges collected are exactly the merges starting in rows 9 to `9 + n` |
| Layout.WriteParts | facturas.py:233-248 | writing the parts gives `PartsWritten` with the parts' labels and weights |
| Layout.CopyRowFormat | facturas.py:244-248 | copying row 9's format onto a row, column by column from A to K, gives `RowFormatCopied` |
| Layout.WriteTotals | facturas.py:257-265 | merging and aligning the net grade row and writing the three formulas gives `Totals` |
| RenderedSheet.HeadersAt | facturas.py:195-205 | the header step changes only the values of B2, B3, A5 and B5 |
| RenderedSheet.TemplateRowsUnmergedAt | facturas.py:213-217 | the unmerge loop removes exactly the merged template ranges among `D10:H10` to `D12:H12`, and clears only what they covered |
| RenderedSheet.PreparedAt | facturas.py:211-231 | after the preparation, rows above 10 are kept, the inserted rows are blank, later rows hold the template's rows `n - 1` higher, and cells covered by a removed merge are blank |
| RenderedSheet.PreparedMerges | facturas.py:211-231 | after the preparation, the merges are the template's, minus the net-grade ranges and minus those starting in rows 9 to `9 + n` |
| RenderedSheet.PartsWrittenAt | facturas.py:233-248 | after the first `k` parts, each of their rows holds its label, weight and score formula, and rows after the first take row 9's styles in columns A to K |
| RenderedSheet.TotalsAt | facturas.py:257-265 | the totals step writes the three formulas, sets `D{net}`'s alignment and changes nothing else |
| RenderedSheet.RenderedHeaders | facturas.py:195-205 | B2 holds the course label and B3 the task; A5 and B5 hold the heading and names the mode calls for |
| RenderedSheet.AboveParts | facturas.py:194-219 | rows 1 to 8 end as the header step leaves them |
| RenderedSheet.RenderedPart | facturas.py:233-242 | row `9 + i` holds part `i`'s label in A, its weight in B and its score formula in J |
| RenderedSheet.RenderedPartFormat | facturas.py:244-248 | every part row after the first is empty outside A, B and J; in columns A to K it takes row 9's look when row 9's cell has a style, and keeps the default style otherwise |
| RenderedSheet.RenderedMergesOnePart | facturas.py:211-258 | with one part, the merges are the template's plus `D11:H11` |
| RenderedSheet.RenderedMerges | facturas.py:211-258 | with more than one part, `D{net}:H{net}` is merged, no other merge starts in rows 9 to `9 + n`, and every other template merge stays |
| RenderedSheet.RenderedTotals | facturas.py:209-265 | the three formulas sit in their computed rows, and `D{net}` carries the alignment the template's `D11` had |
| RenderedSheet.NetSumsParts | facturas.py:251-263 | the net grade sums column J from the first part's row to the row right after the last part |
| RenderedSheet.RenderedOnePart | facturas.py:208-265 | with one part, every cell the generator does not write is as in the template, `D11` included |
| RenderedSheet.RenderedMovesRest | facturas.py:211-231 | with more than one part, a template cell in row 10 or below is found `n - 1` rows lower; in the template's rows 10 to 12, columns E to H of a row whose `D:H` range was merged are blank there. The exceptions are the three rewritten formula cells and cells covered by a removed merge; `D{net}` keeps the template's `D11` whole, alignment included |
| RenderedSheet.PreparedMoves | facturas.py:211-231 | the preparation moves a cell in row 10 or below `n - 1` rows down, blank in columns E to H of a template row 10 to 12 whose `D:H` range was merged, unless a removed merge covers it |
| RenderedSheet.RenderedRowNine | facturas.py:211-248 | row 9, the first part's row, keeps the template's style in every column, whatever the number of parts, and its value outside A, B and J, unless a removed merge covers the cell |

## Left out

- The Streamlit interface is left out: widgets, reruns, the progress bar and
  messages. The team selectors' answers are parameters of
  `Groups.TeamGroups` (`picks`), and the session store is a map.
- Reading `cursos.csv` and the roster file is left out (lines 31-35, 52-75).
  So is filtering by role and building full names. Courses, students and
  selections are parameters.
- The automatic redistribution of weights and the warning when they do not
  add up to 100 are left out (lines 133-176). They use floating point and
  only talk to the user. Weights are `real`s written as they are.
- Loading the template, creating the output folder and saving the workbook
  are left out (lines 181-185, 191-192, 270-272). `Layout.Render` works on a
  worksheet given to it.
- The `try`/`except` around the whole batch (lines 187, 277-278) is left
  out. An exception there stops the remaining groups, and the model raises
  none.
- Layout.Render: the `try` around `merge_cells` and the alignment
  assignment (lines 257-261) cannot fail in the model, so both always take
  effect.
- Sheet.Worksheet.MergeCells: openpyxl also replaces the covered cells other
  than the top-left one with empty merged cells and formats the range's
  border; the model records only the merged range.
- Sheet.Worksheet.SetValue: openpyxl's checks on assigned text are not
  modelled. It rejects control characters and limits a cell to 32767
  characters. In the model, only a text of two or more characters starting
  with `=` is told apart; it becomes a formula.
- Sheet.Worksheet.UnmergeCells: the model blanks every covered cell but
  the top-left one. openpyxl deletes the covered cells one by one from its
  cell store and raises `KeyError` at the first one that is not stored.
  After `insert_rows` a covered cell may be missing. The generator swallows
  that error (lines 228-231): the range is gone, but the covered cells after
  the missing one keep their content and style.
- Sheet.Worksheet.UnmergeCells: the model treats a range as merged only
  when it is merged exactly as named. openpyxl's `in` on `merged_cells`
  tests containment, so a range lying inside a bigger merge passes its
  test. The ranges swept at lines 227-231 are read from `merged_cells`
  itself, so only the three fixed ranges of line 215 can differ.
- Sheet.Worksheet.SetValue: openpyxl stores a text that is an Excel error
  code, such as `#N/A`, as an error value rather than a string. The model
  stores it as text. The generator writes such a text only if a course
  label, task name, student name or part name is one.
- Styles are compared as values. Fonts, borders, fills, alignments and
  protections are identified by an index, and `copy()` of a style object is
  a value copy. Object identity and openpyxl's shared style tables are not
  modelled.
- The worksheet is reduced to values, styles and merged ranges. Row heights,
  column widths, data validation and conditional formatting are not part of
  this model. Formulas are stored as text and never evaluated.
- The bounds of 1 to 20 on the number of parts and teams are not modelled.
  The model allows any count of at least one.

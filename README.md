# ScaffoldTrack stock ledger in Dafny

ScaffoldTrack manages scaffolding equipment for a rental and assembly
business. Its core is a stock ledger. Availability is never stored: every
figure is recomputed from an append-only log of typed movements.

- 'envio' and 'retorno' move units to and from a site (obra).
- 'manutencao' and 'retorno_manutencao' move units into and out of maintenance.
- 'perda' and 'retorno_perda' declare a loss and reverse it.

This project models that ledger and the page logic that feeds it:

- `text.dfy` (module `Text`): the Python string built-ins the pages rely on.
  These are `str.strip`, `str.split` on one character, `str.join`, and the
  decimal rendering of a count inside an f-string.
- `ledger.dfy` (module `Ledger`): the equipment and movement rows, and the
  balance queries as recursive sums over the log. It also holds the
  per-site overview, the validator `validar_movimentacao` and the
  duplicate-description query `equipamento_existe`.
- `ledger_facts.dfy` (module `LedgerFacts`): what one recorded movement does
  to each balance, what the validator's verdict means, and the balance
  invariant that validated movements keep.
- `store.dfy` (module `Database`): the class `Store`, holding the
  equipment, movement and checklist tables. It has the row writes of
  `database.py` as methods, and `Valid()` states the primary-key discipline
  of AUTOINCREMENT.
- `movement_page.dfy` (module `MovementPage`): from `modules/movimentacao.py`.
  - the eligibility loop, which decides which equipment is offered for each
    kind and with what cap;
  - the selection dict keyed by equipment id;
  - the best-effort batch loop, specified by the function `RunBatch`;
  - the single-movement submit.
- `checklist_page.dfy` (module `ChecklistPage`): from `modules/checklists.py`.
  It has the item templates, the ✓/✗/• encoding of a checklist into
  newline-joined text, the reader that splits, strips and drops blank lines,
  the save guard and the three status buttons.
- `equipment_page.dfy` (module `EquipmentPage`): from `modules/equipamentos.py`.
  - upper-casing of descriptions;
  - the duplicate guard on register and on edit, which keeps descriptions
    unique in the table;
  - the "Enviado" figure of the detail view.

Database writes are methods on `Store` with `modifies` clauses. Queries are
functions of the tables. Each page loop is a method with its invariants,
proved against a function that states what the loop computes.

## Model

| member | source | states |
|---|---|---|
| Text.Strip | modules/checklists.py:73-74 | the result is the slice of the input between a blank prefix and a blank suffix, and it neither starts nor ends with white space, so exactly the surrounding white space is removed; it is empty exactly when the input is all white space |
| Text.StripKeepsOut | modules/checklists.py:185 | stripping never introduces a character, so a line break absent from a piece stays absent |
| Text.Split | modules/checklists.py:71 | there is always at least one piece, and no piece contains the separator |
| Text.Join | modules/checklists.py:187 | no lines join to the empty text, one line to itself, and the joined text starts with the first line; Text.SplitJoin is its inverse |
| Text.SplitJoin | modules/checklists.py:187 | splitting a join on the same separator gives back the lines, when no line holds the separator |
| Text.DecimalRoundTrip | database.py:480 | the decimal text of a count in the validator's messages reads back as that count |
| Ledger.Find | database.py:368-371 | the lookup by id returns a row of the table with that id, and nothing exactly when no row has it |
| Ledger.Available | database.py:362-403 | 0 for an unknown id; otherwise 0 exactly when everything out (sent, in maintenance, lost) reaches the owned quantity, and else the owned quantity minus everything out; with no movements it is the owned quantity |
| Ledger.SentToSite | database.py:421-437 | 0 exactly when the returns from the site reach the sends to it, and else sends minus returns; 0 with no movements |
| Ledger.InMaintenance | database.py:439-455 | 0 exactly when the returns from maintenance reach the units sent to it, and else the difference; 0 with no movements |
| Ledger.Lost | database.py:457-473 | 0 exactly when the reversed losses reach the declared ones, and else the difference; 0 with no movements |
| Ledger.SentOverview | database.py:405-419 | lists only equipment with a movement at the site and a positive send-minus-return net there, with that net; every such row is listed |
| Ledger.Validate | database.py:475-505 | per kind: 'envio'/'manutencao' accepted iff q ≤ available; 'retorno' refused without a site, else accepted iff q ≤ sent to that site; 'retorno_manutencao' iff q ≤ in maintenance; 'retorno_perda' iff q ≤ lost; 'perda' and unknown kinds always accepted; each rejection carries the source's message with the balance in decimal |
| Ledger.CountCollisions | database.py:210-222 | the count is positive iff some row has the description (and, when an id to exclude is given, a different id) |
| Ledger.DescriptionTaken | database.py:210-222 | true iff some row has the description and, when a truthy id is given, a different id |
| LedgerFacts.TotalAppend | database.py:376-385 | appending a movement adds exactly its own contribution to a per-kind sum |
| LedgerFacts.TotalAtAppend | database.py:426-431 | the same for the per-site sums |
| LedgerFacts.RecordEffect | database.py:396-403 | one recorded movement changes each net of an equipment by its own share only, per site as well |
| LedgerFacts.OtherEquipmentFrame | database.py:384 | a movement of another equipment leaves every balance and every verdict about this one unchanged |
| LedgerFacts.SiteFrame | database.py:430 | sent-to-site counts only 'envio'/'retorno' rows of exactly that equipment and site |
| LedgerFacts.AcceptedOutboundLowersAvailable | database.py:477-480 | recording an accepted 'envio' or 'manutencao' of q lowers available by exactly q |
| LedgerFacts.SendReturnRoundTrip | database.py:396-403 | an 'envio' of q followed by a 'retorno' of q to the same site restores available, sent-to-site, maintenance and lost |
| LedgerFacts.SendThenPartialReturn | database.py:421-437 | 10 owned, send 4, return 1: available goes 10, 6, 7 and sent-to-site 4, 3, each step accepted |
| LedgerFacts.AcceptedKeepsBalanced | database.py:475-505 | every accepted movement other than 'perda' keeps the ledger balanced, for every equipment |
| LedgerFacts.LossIsUnbounded | database.py:500-505 | a 'perda' of 15 on 10 owned is accepted, available clamps to 0, lost is 15, and the ledger is no longer balanced |
| LedgerFacts.Conservation | database.py:396-403 | on a balanced ledger, available + sent + in maintenance + lost equals the owned quantity |
| LedgerFacts.ValidateIsBoundCheck | database.py:475-505 | the validator is a bound check against one balance per kind, and a rejection ends with that balance in decimal |
| LedgerFacts.EnvioBoundary | database.py:477-480 | sending exactly the available amount is accepted; one more is refused with the message naming the available amount |
| Database.UpdatedAll | database.py:247-254 | the update rewrites only the row with that id, keeps order, and keeps every id |
| Database.WithStatus | database.py:333-337 | only the checklist with that id changes, and only in its status |
| Database.Without | database.py:256-260 | the delete keeps exactly the rows with another id |
| Database.AscendingBounds | database.py:57 | ids handed out in increasing order from 1 stay below the next id and are strictly increasing |
| Database.Store.constructor | database.py:20-114 | a fresh database has empty tables, every id counter at 1 (SQLite's first AUTOINCREMENT id), and satisfies the key discipline |
| Database.Store.AddEquipment | database.py:194-202 | appends one row with a fresh id and the default status 'disponivel'; the next equipment id moves on by one; nothing else changes |
| Database.Store.UpdateEquipment | database.py:247-254 | the equipment table becomes the update of the old one; the other tables are unchanged |
| Database.Store.DeleteEquipment | database.py:256-260 | the row with that id is removed; movements are kept |
| Database.Store.AddMovement | database.py:264-284 | appends exactly one movement with the given fields and a fresh id; a given non-empty date is stored, otherwise the clock (`if data_movimentacao:`); earlier movements and all equipment rows are unchanged |
| Database.Store.AddChecklist | database.py:312-320 | appends one checklist with a fresh id, the clock and status 'pendente'; the next checklist id moves on by one |
| Database.Store.UpdateChecklistStatus | database.py:333-337 | the checklist table becomes the status update of the old one |
| Database.ValidIds | database.py:57 | in a valid store the ids of each table are positive, below the next id, and unique |
| MovementPage.SiteFor | modules/movimentacao.py:237-247 | 'envio'/'retorno' are recorded with the chosen site, every other kind with none |
| MovementPage.OfferFor | modules/movimentacao.py:252-282 | an offered cap is always positive |
| MovementPage.OffersOf | modules/movimentacao.py:284-290 | at most one offer per row, each with a positive cap |
| MovementPage.ListOffers | modules/movimentacao.py:250-290 | the eligibility loop builds exactly the offers of the table's rows, in table order |
| MovementPage.OffersOfSound | modules/movimentacao.py:284-290 | every offer describes an eligible row, with its id, description and cap |
| MovementPage.OffersOfComplete | modules/movimentacao.py:284-290 | every eligible row is offered with its cap |
| MovementPage.OfferAgreesWithValidator | modules/movimentacao.py:259-282 | for every kind but 'perda', a quantity ≥ 1 is accepted iff the row is offered and the quantity is within the cap; 'perda' is offered up to the owned quantity and always accepted |
| MovementPage.Upsert | modules/movimentacao.py:321-326 | the dict assignment keeps one entry per id, holds the new entry, and keeps every entry with another id |
| MovementPage.Selection | modules/movimentacao.py:301-326 | the dict built by assigning each ticked offer under its id, in offer order, holds one entry per id, only ticked offers with their typed quantity, and every ticked offer's id |
| MovementPage.UpsertNew | modules/movimentacao.py:321 | assigning a key not yet in the dict appends the entry at the end |
| MovementPage.SelectionInOfferOrder | modules/movimentacao.py:301-341 | when offers list each equipment once, the dict's values are exactly the ticked offers in offer order, the order the batch then processes |
| MovementPage.OffersAvoid | modules/movimentacao.py:284-290 | an id that no equipment row carries is never offered |
| MovementPage.OffersOfDistinct | modules/movimentacao.py:284-290 | when the equipment table's ids are unique, the offered rows carry pairwise distinct ids |
| MovementPage.PageSelectionInOrder | modules/movimentacao.py:284-341 | over a table with unique ids, the page's selection is exactly the ticked offers, in the order they are listed |
| MovementPage.Select | modules/movimentacao.py:301-326 | the checkbox loop builds exactly Selection |
| MovementPage.RunBatch | modules/movimentacao.py:361-372 | every item is either recorded or reported: successes + errors = number of items, the log grows by one row per success, and the next id moves on by the successes |
| MovementPage.RunBatchKeepsLog | modules/movimentacao.py:361-372 | the batch only appends: the old log is a prefix of the new one |
| MovementPage.RunBatchRecords | modules/movimentacao.py:371 | each recorded movement has the batch's kind and site, the next id in turn, and an item's equipment and quantity |
| MovementPage.RunBatchErrors | modules/movimentacao.py:368-369 | each error line starts with an item's description and ": " |
| MovementPage.IndependentItemsAllSucceed | modules/movimentacao.py:365-372 | with one entry per equipment and each item acceptable on its own, the batch records every item and reports no error |
| MovementPage.FreshSelectionSucceeds | modules/movimentacao.py:311-372 | a batch picked from the current offers within their caps goes through in full |
| MovementPage.AdvanceAccepted | modules/movimentacao.py:370-372 | the loop's tally still accounts for the whole batch after a recorded item |
| MovementPage.AdvanceRejected | modules/movimentacao.py:368-369 | the loop's tally still accounts for the whole batch after a reported item |
| MovementPage.ProcessItem | modules/movimentacao.py:366-372 | one pass: an accepted item appends its movement and reports nothing; a rejected item changes nothing and reports "description: reason" |
| MovementPage.RecordAll | modules/movimentacao.py:362-372 | the loop ends with the log, next id, success count and errors that RunBatch predicts |
| MovementPage.SubmitBatch | modules/movimentacao.py:355-372 | refused before any write when nothing is selected or a site kind has no site, and a refusal leaves the movement log and its id counter as they were; otherwise the outcome of RunBatch |
| MovementPage.SubmitSingle | modules/movimentacao.py:203-218 | needs an equipment and a positive quantity, and a site for 'envio'/'retorno'; when accepted, appends exactly one movement whose id is the old counter and moves the counter on by one; a refusal leaves the log and the counter as they were |
| ChecklistPage.TemplateSizes | modules/checklists.py:122-161 | montagem has 10 items, desmontagem and inspecao 8 each |
| ChecklistPage.TemplateLines | modules/checklists.py:122-161 | every template item is a non-blank, stripped, single line |
| ChecklistPage.MarkTemplate | modules/checklists.py:164-169 | every template item appears once, in order, as "✓ item" if ticked and "✗ item" otherwise |
| ChecklistPage.Cleaned | modules/checklists.py:71-74 | the kept pieces are non-blank and stripped, and no more than the input pieces |
| ChecklistPage.CleanedCount | modules/checklists.py:184-185 | one line is kept per non-blank piece |
| ChecklistPage.CleanedNoBreak | modules/checklists.py:184-185 | pieces without a line break clean to single lines |
| ChecklistPage.ExtraLines | modules/checklists.py:183-185 | the extras are the non-blank lines, stripped, each after "• ", in order |
| ChecklistPage.MarkedItems | modules/checklists.py:164-169 | one marked line per template item |
| ChecklistPage.PrefixedLine | modules/checklists.py:167-169 | a mark followed by a single line is a single line |
| ChecklistPage.EncodedAreLines | modules/checklists.py:181-187 | every stored line is a single, non-blank, stripped line |
| ChecklistPage.Decode | modules/checklists.py:69-74 | the display shows one line per non-blank piece of the text, each non-blank, stripped and without a line break; an empty text shows nothing |
| ChecklistPage.CleanedLines | modules/checklists.py:71-74 | reading lines that are already clean changes nothing |
| ChecklistPage.DecodeJoin | modules/checklists.py:69-74 | reading a newline join of clean lines gives back exactly those lines |
| ChecklistPage.EncodeItems | modules/checklists.py:181-187 | the stored text is the marked items followed by the bulleted extras, joined by line breaks; it reads back as the marked items followed by the bulleted extras; its line count is the template size plus the number of non-blank extras |
| ChecklistPage.SaveChecklist | modules/checklists.py:178-193 | without a site or a responsible person nothing is stored and the checklist id counter is unchanged; otherwise one 'pendente' checklist is appended under the old counter as its id, the counter moves on by one, and its text is the encoded lines joined by line breaks, which reads back as those lines |
| ChecklistPage.ApplyStatusAction | modules/checklists.py:80-97 | a button sets only that checklist's status; every other row and column, the counters and the clock are kept |
| ChecklistPage.ActionNames | modules/checklists.py:82-97 | the buttons store exactly "aprovado", "reprovado" and "pendente", each a different name |
| ChecklistPage.StatusLastWins | modules/checklists.py:80-97 | of two status writes to one checklist the last wins, so pressing a button twice is pressing it once |
| EquipmentPage.UpperOf | modules/equipamentos.py:158 | an upper-cased character is one or two characters with no ASCII lower-case letter |
| EquipmentPage.Upper | modules/equipamentos.py:112 | the upper-cased description is at least as long as the input, at most twice, with no ASCII lower-case letter |
| EquipmentPage.UpperAppend | modules/equipamentos.py:158 | upper-casing distributes over concatenation |
| EquipmentPage.UpperIdempotent | modules/equipamentos.py:158 | upper-casing twice is upper-casing once, so a stored description is its own normal form |
| EquipmentPage.SameDescription | modules/equipamentos.py:158 | "tubo 2m" and "TUBO 2M" are both stored as "TUBO 2M" |
| EquipmentPage.AppendKeepsUnique | modules/equipamentos.py:185-193 | appending a row whose description no row has keeps descriptions unique |
| EquipmentPage.UpdateKeepsUnique | modules/equipamentos.py:127-134 | rewriting a row with a description no other row has keeps descriptions unique |
| EquipmentPage.WithoutKeepsUnique | modules/equipamentos.py:97-101 | deleting a row keeps descriptions unique |
| EquipmentPage.OwnDescriptionAllowed | database.py:214-217 | on edit, a row's own description is not a collision |
| EquipmentPage.OtherDescriptionRefused | database.py:214-217 | on edit, another row's description is a collision |
| EquipmentPage.OrNone | modules/equipamentos.py:191-193 | an empty optional field is stored as NULL, any other as it is |
| EquipmentPage.Register | modules/equipamentos.py:185-197 | needs a description and a positive quantity; refuses a description already present; otherwise appends one row with the upper-cased description, the next id and status 'disponivel'; descriptions stay unique; the other tables, counters and clock are kept |
| EquipmentPage.RegisterTwice | modules/equipamentos.py:185-193 | registering the same description twice, in any letter case, adds at most one row and refuses the second |
| EquipmentPage.Edit | modules/equipamentos.py:108-137 | needs a description and a positive quantity; refuses another row's description; otherwise rewrites the row; descriptions stay unique; the other tables, counters and clock are kept |
| EquipmentPage.SentShown | modules/equipamentos.py:72-75 | with no movements the page shows nothing sent |
| EquipmentPage.SentShownCountsLosses | modules/equipamentos.py:72-75 | as written, "Enviado" on a balanced ledger is the units at sites plus the units lost |
| EquipmentPage.SentShownCounterexample | modules/equipamentos.py:72-75 | 10 owned and 3 lost, none sent: "Enviado" shows 3 |
| EquipmentPage.SentCorrectedIsSent | modules/equipamentos.py:72-75 | with losses also subtracted, the figure on a balanced ledger is exactly the units at sites |

## Left out

- SQLite itself is not modelled: connections, the schema DDL, row factories, ORDER BY and the display joins. The tables are sequences in a class, and a query is a function over them.
- The timestamp formatting in `add_movimentacao` is not modelled, because it depends on `strftime`. A given, non-empty date is an opaque string stored as it is. The database clock is a field of `Store`.
- All Streamlit rendering is left out: widgets, forms, `session_state`, `rerun` and labels. Widget bounds such as `min_value=1` become explicit guards or lemma premises.
- The reports module, `app.py`, the sites and clients pages, and maintenance records are not part of this model. None of them feeds the ledger.
- The equipment status tag and the status summaries are left out. The tag is stored, but the ledger never reads it.
- The race between validating and recording across two sessions is left out. The model has one sequential caller.
- EquipmentPage.UpperOf, EquipmentPage.Upper: model `str.upper` for ASCII and Latin-1 only (a-z, à-þ except ÷, ß to "SS", ÿ, µ); the case mappings of other scripts are left out.
- Ledger.Kind: `Other(tag)` stands for an unrecognised kind tag and is assumed never to carry one of the six known names.
- LedgerFacts.Balanced: it does not require the total sent over all sites to be non-negative on its own; it requires each per-site net to be.
- "available + sent + in maintenance + lost ≤ owned" is not an invariant of the code, because a 'perda' of any size is accepted (database.py:500-505). LedgerFacts.LossIsUnbounded exhibits the violation, and LedgerFacts.AcceptedKeepsBalanced holds for every kind except 'perda'.
- The delete handler of modules/equipamentos.py:97-101 (its confirmation call and its messages) is left out; only the database deletion it calls is modelled (Database.Store.DeleteEquipment), and it leaves the equipment's movements in the log, as the code does.

## Findings

| source | as written | input that shows it | evidently intended | confidence | as-written member | corrected member |
|---|---|---|---|---|---|---|
| modules/equipamentos.py:75 | "Enviado" = owned − available − in maintenance | 10 owned, one 'perda' of 3, nothing sent: the page shows "Enviado: 3" | the units at sites, i.e. also subtract the lost units | medium, not executed | EquipmentPage.SentShownCounterexample | EquipmentPage.SentCorrectedIsSent |
